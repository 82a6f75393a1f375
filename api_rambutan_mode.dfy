/**
 * The `rambutanmode` API module: one parameter `action_type` with the values
 * enable, disable and status, acting on the requesting user's two stored
 * options. The request's clock (`time()`) and the configured time zone's
 * "today midnight" are parameters (epoch seconds).
 */
module ApiRambutanMode {
  import opened Wrappers
  import opened UserOptions
  import Hooks

  datatype Action = Enable | Disable | Status

  /** The three values `action_type` accepts. */
  function ActionName(a: Action): string {
    match a
    case Enable => "enable"
    case Disable => "disable"
    case Status => "status"
  }

  datatype ApiError =
    | NotLoggedIn             // the user is not registered
    | MissingParam            // no `action_type` in the request
    | BadValue(value: string) // an `action_type` outside the accepted set

  datatype ModeStatus = Enabled | Disabled

  /** The `rambutanmode` object an action adds to the API result. */
  datatype Response =
    | Toggled(status: ModeStatus, message: string)
    | StatusReport(status: ModeStatus, enabledAt: Option<int>)

  const ActivatedMessage: string := "Rambutan Mode activated! Resets at midnight Florida time."
  const DeactivatedMessage: string := "Rambutan Mode deactivated."

  /** Validation of `action_type` against the declared enumeration. */
  function ParseActionType(raw: Option<string>): (r: Result<Action, ApiError>)
    ensures raw.None? ==> r == Failure(MissingParam)
    ensures raw.Some? ==> (r.Success? <==> raw.value in {"enable", "disable", "status"})
    ensures raw.Some? && r.Failure? ==> r.error == BadValue(raw.value)
    ensures r.Success? ==> raw == Some(ActionName(r.value))
  {
    match raw
    case None => Failure(MissingParam)
    case Some(s) =>
      if s == "enable" then Success(Enable)
      else if s == "disable" then Success(Disable)
      else if s == "status" then Success(Status)
      else Failure(BadValue(s))
  }

  /** The names are the accepted values, one per action. */
  lemma ActionNamesRoundTrip(a: Action, b: Action)
    ensures ParseActionType(Some(ActionName(a))) == Success(a)
    ensures ActionName(a) == ActionName(b) ==> a == b
  {
  }

  /** `needsToken`: no token for `status`, a CSRF token for anything else, a missing value included. */
  function NeedsToken(raw: Option<string>): (token: Option<string>)
    ensures token.None? <==> raw == Some("status")
    ensures token.Some? ==> token.value == "csrf"
  {
    if raw == Some("status") then None else Some("csrf")
  }

  /** `isWriteMode`: every request except `status` is a write. */
  function IsWriteMode(raw: Option<string>): (write: bool)
    ensures write <==> raw != Some("status")
  {
    raw != Some("status")
  }

  /** A request needs a token exactly when it is a write; of the accepted actions only status is neither. */
  lemma TokenExactlyForWrites(raw: Option<string>, a: Action)
    ensures NeedsToken(raw).Some? <==> IsWriteMode(raw)
    ensures IsWriteMode(Some(ActionName(a))) <==> a != Status
  {
  }

  /**
   * The expiry check inlined in the status branch: active only when the flag
   * and the timestamp are both set and the timestamp is not before today's
   * midnight.
   */
  function StatusIsActive(opts: StoredOptions, todayMidnight: int): (active: bool)
    ensures !opts.FlagSet() || !opts.HasTimestamp() ==> !active
    ensures opts.FlagSet() && opts.HasTimestamp() ==> (active <==> opts.enabledAt >= todayMidnight)
  {
    if opts.FlagSet() && opts.HasTimestamp() then opts.enabledAt >= todayMidnight else false
  }

  /** The status branch's `enabled_at`: null for a stored 0, the stored value otherwise. */
  function ReportedEnabledAt(opts: StoredOptions): (at: Option<int>)
    ensures at.None? <==> !opts.HasTimestamp()
    ensures at.Some? ==> at.value == opts.enabledAt
  {
    if opts.HasTimestamp() then Some(opts.enabledAt) else None
  }

  /** The options and the result after one API call. */
  datatype Outcome = Outcome(stored: StoredOptions, result: Result<Response, ApiError>)

  /**
   * One call of `execute` on the options `opts`, in the order `execute` itself
   * checks: the registration check, then the `action_type` value; enable and
   * disable write both options together, status writes nothing. The API
   * framework's own checks before `execute` (parameter validation for
   * token-requiring requests, the CSRF token) are not part of this function.
   */
  function Transition(opts: StoredOptions, actionType: Option<string>, registered: bool,
                      now: int, todayMidnight: int): (o: Outcome)
    ensures !registered ==> o == Outcome(opts, Failure(NotLoggedIn))
    ensures o.result.Failure? ==> o.stored == opts
    ensures registered && ParseActionType(actionType).Failure? ==>
              o.result == Failure(ParseActionType(actionType).error)
    ensures registered && actionType == Some("enable") ==>
              o == Outcome(StoredOptions(1, now), Success(Toggled(Enabled, ActivatedMessage)))
    ensures registered && actionType == Some("disable") ==>
              o == Outcome(NeverSet, Success(Toggled(Disabled, DeactivatedMessage)))
    ensures registered && actionType == Some("status") ==>
              o.stored == opts && o.result.Success? && o.result.value.StatusReport? &&
              (o.result.value.status == Enabled <==>
                 opts.FlagSet() && opts.HasTimestamp() && opts.enabledAt >= todayMidnight) &&
              o.result.value.enabledAt == ReportedEnabledAt(opts)
  {
    if !registered then Outcome(opts, Failure(NotLoggedIn))
    else match ParseActionType(actionType)
      case Failure(e) => Outcome(opts, Failure(e))
      case Success(Enable) =>
        Outcome(StoredOptions(1, now), Success(Toggled(Enabled, ActivatedMessage)))
      case Success(Disable) =>
        Outcome(StoredOptions(0, 0), Success(Toggled(Disabled, DeactivatedMessage)))
      case Success(Status) =>
        var status := if StatusIsActive(opts, todayMidnight) then Enabled else Disabled;
        Outcome(opts, Success(StatusReport(status, ReportedEnabledAt(opts))))
  }

  /** The status reported for `opts`, as a second request would see it. */
  function StatusAfter(opts: StoredOptions, now: int, todayMidnight: int): (status: ModeStatus) {
    var o := Transition(opts, Some("status"), true, now, todayMidnight);
    if o.result.Success? then o.result.value.status else Disabled
  }

  /**
   * The requesting user's stored options, which `execute` updates in place
   * through the options manager.
   */
  class UserRambutanOptions {
    var flag: int       // `rambutanmode`
    var enabledAt: int  // `rambutanmode-enabled-at`

    function Stored(): StoredOptions
      reads this
    {
      StoredOptions(flag, enabledAt)
    }

    /** A user who never toggled the mode: both lookups yield their default 0. */
    constructor ()
      ensures Stored() == NeverSet
    {
      flag, enabledAt := 0, 0;
    }

    /** `execute`: one API call by this user. */
    method Execute(actionType: Option<string>, registered: bool, now: int, todayMidnight: int)
      returns (r: Result<Response, ApiError>)
      modifies this
      ensures Transition(old(Stored()), actionType, registered, now, todayMidnight) == Outcome(Stored(), r)
    {
      if !registered {
        return Failure(NotLoggedIn);
      }
      var action := ParseActionType(actionType);
      if action.Failure? {
        return Failure(action.error);
      }
      match action.value
      case Enable =>
        flag := 1;
        enabledAt := now;
        r := Success(Toggled(Enabled, ActivatedMessage));
      case Disable =>
        flag := 0;
        enabledAt := 0;
        r := Success(Toggled(Disabled, DeactivatedMessage));
      case Status =>
        var active := false;
        if flag != 0 && enabledAt != 0 {
          active := enabledAt >= todayMidnight;
        }
        r := Success(StatusReport(if active then Enabled else Disabled,
                                  if enabledAt != 0 then Some(enabledAt) else None));
    }
  }

  /**
   * The states the API itself can produce from a user who never toggled, with
   * a positive clock: never set, or set together with a nonzero timestamp.
   */
  predicate ApiReachable(opts: StoredOptions) {
    opts == NeverSet || (opts.flag == 1 && opts.enabledAt > 0)
  }

  lemma TransitionKeepsApiReachable(opts: StoredOptions, actionType: Option<string>, registered: bool,
                                    now: int, todayMidnight: int)
    requires ApiReachable(opts) && now > 0
    ensures ApiReachable(Transition(opts, actionType, registered, now, todayMidnight).stored)
  {
  }

  /** Enabling and then asking for the status, with today's midnight not after the enable time, reports enabled. */
  lemma EnableThenStatus(opts: StoredOptions, now: int, todayMidnight: int)
    requires now > 0 && todayMidnight <= now
    ensures StatusAfter(Transition(opts, Some("enable"), true, now, todayMidnight).stored, now, todayMidnight) == Enabled
  {
  }

  /** Disabling and then asking for the status reports disabled, whatever the clock. */
  lemma DisableThenStatus(opts: StoredOptions, now: int, todayMidnight: int, later: int, laterMidnight: int)
    ensures StatusAfter(Transition(opts, Some("disable"), true, now, todayMidnight).stored, later, laterMidnight) == Disabled
  {
  }

  /**
   * An enable at `now` lapses lazily: once a later midnight has passed, both the
   * status action and the parser report the mode off, while the stored flag is
   * still set.
   */
  lemma EnableLapsesAtNextMidnight(opts: StoredOptions, now: int, todayMidnight: int,
                                   later: int, nextMidnight: int)
    requires now > 0 && now < nextMidnight
    ensures var stored := Transition(opts, Some("enable"), true, now, todayMidnight).stored;
            stored.FlagSet() &&
            StatusAfter(stored, later, nextMidnight) == Disabled &&
            !Hooks.IsRambutanModeActive(Hooks.User(true), stored, nextMidnight)
  {
  }

  /** The status action and the parser's check agree whenever a timestamp is stored. */
  lemma StatusAgreesWithParserWhenTimestamped(opts: StoredOptions, todayMidnight: int)
    requires opts.HasTimestamp()
    ensures StatusIsActive(opts, todayMidnight) == Hooks.IsRambutanModeActive(Hooks.User(true), opts, todayMidnight)
  {
  }

  /**
   * They disagree exactly on a set flag without a timestamp: the parser treats
   * it as on for good, the status action as off.
   */
  lemma StatusDisagreesWithParserOnlyWithoutTimestamp(opts: StoredOptions, todayMidnight: int)
    ensures StatusIsActive(opts, todayMidnight) != Hooks.IsRambutanModeActive(Hooks.User(true), opts, todayMidnight)
            <==> opts.FlagSet() && !opts.HasTimestamp()
  {
  }

  /** No sequence of API calls with a positive clock reaches that state, so there the two always agree. */
  lemma {:induction false} ApiCallsKeepCopiesInAgreement(opts: StoredOptions, calls: seq<Request>,
                                                        todayMidnight: int)
    requires ApiReachable(opts)
    requires forall i :: 0 <= i < |calls| ==> calls[i].now > 0
    ensures ApiReachable(Replay(opts, calls))
    ensures StatusIsActive(Replay(opts, calls), todayMidnight) ==
            Hooks.IsRambutanModeActive(Hooks.User(true), Replay(opts, calls), todayMidnight)
    decreases |calls|
  {
    if calls != [] {
      var c := calls[0];
      TransitionKeepsApiReachable(opts, c.actionType, c.registered, c.now, c.todayMidnight);
      ApiCallsKeepCopiesInAgreement(Transition(opts, c.actionType, c.registered, c.now, c.todayMidnight).stored, calls[1..], todayMidnight);
    }
  }

  /** One API call: the `action_type` sent, whether the caller is registered, and the clock. */
  datatype Request = Request(actionType: Option<string>, registered: bool, now: int, todayMidnight: int)

  /** The stored options after a sequence of calls. */
  function Replay(opts: StoredOptions, calls: seq<Request>): (final: StoredOptions)
    decreases |calls|
  {
    if calls == [] then opts
    else
      var c := calls[0];
      Replay(Transition(opts, c.actionType, c.registered, c.now, c.todayMidnight).stored, calls[1..])
  }

  /**
   * A user enables the mode at `enableTime` and asks for the status the same
   * day and again after the next midnight.
   */
  method EnableStatusAcrossMidnight(u: UserRambutanOptions, enableTime: int, todayMidnight: int,
                                    laterTime: int, nextMidnight: int)
    returns (sameDay: Result<Response, ApiError>, nextDay: Result<Response, ApiError>)
    requires 0 < enableTime && todayMidnight <= enableTime < nextMidnight
    modifies u
    ensures sameDay.Success? && sameDay.value.status == Enabled
    ensures nextDay.Success? && nextDay.value.status == Disabled
    ensures u.flag == 1 && u.enabledAt == enableTime
  {
    var _ := u.Execute(Some("enable"), true, enableTime, todayMidnight);
    sameDay := u.Execute(Some("status"), true, enableTime, todayMidnight);
    nextDay := u.Execute(Some("status"), true, laterTime, nextMidnight);
  }
}
