# RambutanMode, modelled in Dafny

RambutanMode is a MediaWiki extension that gives each registered user a boolean
"Rambutan Mode". While it is on, the parser functions `{{#rambutan:Full Name}}`
and `{{#rambutanband:Band Name}}` rewrite names to mention Rambutan; the mode
switches itself off at local midnight in the configured time zone, lazily: the
stored options are not touched, the next read simply finds the enable time
before today's midnight. An API module `rambutanmode` enables, disables and
reports the mode.

The model has five modules:

- `UserOptions` (`user_options.dfy`): the two stored per-user options,
  `rambutanmode` (the flag) and `rambutanmode-enabled-at` (epoch seconds), as
  integers with PHP truthiness (`!= 0`); a user who never set them reads 0 and 0.
- `PhpText` (`php_text.dfy`): PHP's `trim` with its default character list
  (space, tab, LF, CR, NUL, vertical tab) and `preg_split('/\s+/', ...)`, whose
  `\s` matches space, tab, LF, vertical tab, form feed and CR. Proved: `trim`
  removes exactly the padding around a text and is idempotent; a text without
  `\s` is one part, and a whole run of `\s` characters is one separator, which
  together fix the split of every text; splitting names separated by any
  whitespace runs gives the names back; a text that neither starts nor ends
  with `\s` splits into non-empty parts.
- `Hooks` (`hooks.dfy`): the expiry check `isRambutanModeActive` and the two
  parser functions, as pure functions of the page's user, the stored options
  and today's midnight.
- `ApiRambutanMode` (`api_rambutan_mode.dfy`): parameter validation,
  `needsToken`, `isWriteMode`, the status branch's own expiry check, a pure
  `Transition` that specifies one call, and the class `UserRambutanOptions`
  whose method `Execute` updates the two options in place, proved equal to
  `Transition`. Round trips (enable then status, disable then status), lazy
  expiry across midnight, and the relation between the two expiry checks are
  lemmas over `Transition`.
- `Wrappers` (`wrappers.dfy`): `Option` and `Result`.

Time is a parameter: "today midnight" in the configured zone is an epoch-second
integer handed in, and the request clock `time()` is the `now` argument of
`Execute`. Both source copies of the expiry check also compute the current time
but never use it; the model does not carry it there.

Two behaviours of the code are modelled as written and worth knowing:

- The two expiry checks differ. With the flag set and the stored timestamp 0,
  `isRambutanModeActive` reports the mode on (it skips the midnight test), while
  the API's status action reports it off (it requires both options to be set).
  `StatusDisagreesWithParserOnlyWithoutTimestamp` shows this is the only case in
  which they differ. The API itself never writes that state when the clock is
  positive: `ApiCallsKeepCopiesInAgreement` shows that after any sequence of API
  calls from a never-set user the two agree. The state can arise only from an
  option written by some other path.
- `trim` does not strip a form feed, but `\s` splits on it. A trimmed name can
  therefore split into an empty part, so "after trimming, all parts are
  non-empty" holds only for names that neither start nor end with a form feed
  (`SplitPartsNonEmpty`). `FormFeedBeforeName` shows that a single name after a
  form feed is rendered as a two-part name with an empty first part, and
  `FormFeedAfterName` that a single name followed by a form feed is rendered as
  a two-part name with an empty last part.

## Model

| member | source | states |
|---|---|---|
| `Hooks.IsRambutanModeActive` | src/Hooks.php:46-80 | never active without a registered user or with the flag unset; with the flag set, active when no timestamp is stored, otherwise exactly when the enable time is not before today's midnight |
| `Hooks.LapseIsPermanent` | src/Hooks.php:62-79 | a set flag that has lapsed did so because its timestamp is before midnight, and it stays lapsed at every later midnight |
| `Hooks.RenderRambutan` | src/Hooks.php:88-108 | output is empty exactly when the trimmed name is; mode off gives the trimmed name; mode on gives the link as a quoted middle name for two parts and the stage-name remark otherwise |
| `Hooks.RenderRambutanBand` | src/Hooks.php:115-127 | output is empty exactly when the trimmed name is; mode off gives the trimmed name; mode on gives the trimmed name followed by the "formerly known as" remark |
| `Hooks.RenderSeesTrimmedName` | src/Hooks.php:89 | two names that trim to the same text render the same under both parser functions |
| `Hooks.RenderIgnoresPadding` | src/Hooks.php:89-92 | padding of trim characters around a name changes neither parser function's output |
| `Hooks.TwoNamePerson` | src/Hooks.php:99-103 | a padded two-part name whose parts are separated by any run of `\s` characters renders as `First "[[Rambutan|Rambutan]]" Last` |
| `Hooks.StageNamePerson` | src/Hooks.php:104-107 | a padded name of one part, or of three or more separated by any `\s` runs, renders as the trimmed name followed by the stage-name remark |
| `Hooks.ModeOffOnlyTrims` | src/Hooks.php:89-96 | with the mode off both parser functions return the trimmed name, and rendering twice equals rendering once |
| `Hooks.ActiveOutputLinksRambutan` | src/Hooks.php:98-127 | with the mode on, the output of both parser functions for a non-empty name contains the Rambutan link |
| `Hooks.FormFeedBeforeName` | src/Hooks.php:89-103 | a single name after a form feed is rendered as a two-part name with an empty first part |
| `Hooks.FormFeedAfterName` | src/Hooks.php:89-103 | a single name followed by a form feed is rendered as a two-part name with an empty last part |
| `PhpText.Trim` | src/Hooks.php:89 | the result has no trim character at either end and is empty exactly when the input is all trim characters |
| `PhpText.TrimRemovesPadding` | src/Hooks.php:89 | trimming padding plus text plus padding gives the text back when its ends are not trim characters |
| `PhpText.TrimKeepsOwnText` | src/Hooks.php:116 | a text whose ends are not trim characters is left unchanged |
| `PhpText.TrimIdempotent` | src/Hooks.php:116 | trimming twice equals trimming once |
| `PhpText.SplitOnSpaceRuns` | src/Hooks.php:99 | there is at least one part and no part contains a `\s` character |
| `PhpText.SplitOfPlainText` | src/Hooks.php:99 | a text without `\s` characters is a single part |
| `PhpText.SplitAtRun` | src/Hooks.php:99 | a text without `\s`, then a whole run of `\s` characters, then a rest that does not start with `\s` splits into the first text followed by the split of the rest |
| `PhpText.SplitJoinRoundTrip` | src/Hooks.php:99 | splitting non-empty words separated by arbitrary non-empty `\s` runs yields the words |
| `PhpText.SplitPartsNonEmpty` | src/Hooks.php:99-101 | a text that neither starts nor ends with `\s` splits into non-empty parts |
| `PhpText.SpaceKeptByTrimIsFormFeed` | src/Hooks.php:89-99 | form feed is exactly the character that `\s` matches and `trim` does not strip |
| `ApiRambutanMode.ParseActionType` | src/ApiRambutanMode.php:70-77 | a missing value is refused, a present one is accepted exactly when it is enable, disable or status, and an accepted value is the name of the action returned |
| `ApiRambutanMode.ActionNamesRoundTrip` | src/ApiRambutanMode.php:73 | each action's name parses back to it, and distinct actions have distinct names |
| `ApiRambutanMode.NeedsToken` | src/ApiRambutanMode.php:79-87 | no token exactly for `status`; a CSRF token otherwise, a missing value included |
| `ApiRambutanMode.IsWriteMode` | src/ApiRambutanMode.php:89-93 | a write exactly when the action is not `status` |
| `ApiRambutanMode.TokenExactlyForWrites` | src/ApiRambutanMode.php:79-93 | a token is needed exactly for writes; of the accepted actions only status is not a write |
| `ApiRambutanMode.StatusIsActive` | src/ApiRambutanMode.php:49-61 | active only when flag and timestamp are both set, and then exactly when the timestamp is not before today's midnight |
| `ApiRambutanMode.ReportedEnabledAt` | src/ApiRambutanMode.php:65 | `enabled_at` is null exactly when the stored timestamp is 0, and otherwise the stored value |
| `ApiRambutanMode.Transition` | src/ApiRambutanMode.php:14-67 | unregistered callers get `notloggedin` with nothing written; failed calls write nothing; enable stores 1 and now together; disable stores 0 and 0; status writes nothing and reports enabled exactly under the midnight check |
| `ApiRambutanMode.UserRambutanOptions.constructor` | src/ApiRambutanMode.php:46-47 | a fresh user's options read 0 and 0 |
| `ApiRambutanMode.UserRambutanOptions.Execute` | src/ApiRambutanMode.php:14-68 | the new options and the result are those `Transition` gives for the old options |
| `ApiRambutanMode.TransitionKeepsApiReachable` | src/ApiRambutanMode.php:27-44 | with a positive clock, every call keeps the options either never set or set with a positive timestamp |
| `ApiRambutanMode.EnableThenStatus` | src/ApiRambutanMode.php:27-61 | enable at a positive time not before today's midnight, then status, reports enabled |
| `ApiRambutanMode.DisableThenStatus` | src/ApiRambutanMode.php:36-61 | disable, then status at any time, reports disabled |
| `ApiRambutanMode.EnableLapsesAtNextMidnight` | src/ApiRambutanMode.php:27-61 | after a later midnight both the status action and the parser report an earlier enable as off while the stored flag is still set |
| `ApiRambutanMode.StatusAgreesWithParserWhenTimestamped` | src/ApiRambutanMode.php:49-61 | with a stored timestamp, the status check and the parser's check give the same answer |
| `ApiRambutanMode.StatusDisagreesWithParserOnlyWithoutTimestamp` | src/ApiRambutanMode.php:51 | the two checks differ exactly when the flag is set and no timestamp is stored |
| `ApiRambutanMode.ApiCallsKeepCopiesInAgreement` | src/ApiRambutanMode.php:27-61 | after any sequence of API calls with a positive clock from a never-set user, the two checks agree |
| `ApiRambutanMode.EnableStatusAcrossMidnight` | src/ApiRambutanMode.php:27-64 | on the object: enable, status the same day reports enabled, status after the next midnight reports disabled, and the stored options still hold the enable |

## Left out

- Time-zone and daylight-saving computation of "today midnight" (PHP `DateTimeZone`/`DateTime`): a parameter in epoch seconds.
- The host framework: user and option lookups, `saveOptions` persistence, the API result buffer, `dieWithError` mechanics; they become fields, parameters and return values.
- ApiRambutanMode.Transition: follows the order of `execute` itself (registration check, then `action_type`); the API framework validates `action_type` for token-requiring requests and checks the CSRF token before `execute` runs, so an unregistered caller with a missing or unknown `action_type` is refused by the framework with `missingparam` or `badvalue`, not with `notloggedin`. Nothing is written in either order. That framework code is not part of this model.
- CSRF token validation and read-only-mode enforcement, done by the API framework from `needsToken` and `isWriteMode`; only the two functions are modelled.
- Hook registration (`onParserFirstCallInit`, `onBeforePageDisplay`): wiring with no logic beyond a registered-user check.
- `resources/ext.rambutanMode.preferences.js`: browser UI and asynchronous API calls.
- Option values are integers with PHP truthiness; the string forms the database returns ("0", "1", "") are not modelled.
- The shared-document storage variant, output-cache keying and per-render memoization are not part of this code and are not modelled.
