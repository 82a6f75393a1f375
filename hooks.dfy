/**
 * The parser-side half of the extension: whether Rambutan Mode is in effect for
 * the user a page is parsed for, and the two parser functions
 * `{{#rambutan:Full Name}}` and `{{#rambutanband:Band Name}}` that rewrite names
 * while it is.
 *
 * The configured time zone's "today midnight" is a parameter (epoch seconds);
 * the option lookups are the stored values handed in.
 */
module Hooks {
  import opened UserOptions
  import opened PhpText

  /** The user identity a parser reports: possibly none, possibly anonymous. */
  datatype ParserUser = NoUser | User(registered: bool)
  {
    predicate IsRegistered() { User? && registered }
  }

  /** What the parser functions can learn about the page's user and the clock. */
  datatype ParserContext = ParserContext(user: ParserUser, options: StoredOptions, todayMidnight: int)

  /**
   * The expiry check: the stored flag counts only for a registered user, and a
   * nonzero enable time before today's midnight makes it lapse. Nothing is
   * written; the stored options keep their values until the next toggle.
   */
  function IsRambutanModeActive(user: ParserUser, opts: StoredOptions, todayMidnight: int): (active: bool)
    ensures !user.IsRegistered() ==> !active
    ensures !opts.FlagSet() ==> !active
    ensures user.IsRegistered() && opts.FlagSet() && !opts.HasTimestamp() ==> active
    ensures user.IsRegistered() && opts.FlagSet() && opts.HasTimestamp() ==>
              (active <==> opts.enabledAt >= todayMidnight)
  {
    if !user.IsRegistered() then false
    else if !opts.FlagSet() then false
    else if opts.HasTimestamp() && opts.enabledAt < todayMidnight then false
    else true
  }

  /** A lapsed enable stays lapsed at every later midnight, until the next explicit toggle. */
  lemma LapseIsPermanent(user: ParserUser, opts: StoredOptions, todayMidnight: int, laterMidnight: int)
    requires user.IsRegistered() && opts.FlagSet()
    requires !IsRambutanModeActive(user, opts, todayMidnight) && todayMidnight <= laterMidnight
    ensures !IsRambutanModeActive(user, opts, laterMidnight)
    ensures opts.HasTimestamp() && opts.enabledAt < todayMidnight
  {
  }

  function ModeActive(ctx: ParserContext): (active: bool) {
    IsRambutanModeActive(ctx.user, ctx.options, ctx.todayMidnight)
  }

  const RambutanLink: string := "[[Rambutan|Rambutan]]"
  const StageNameSuffix: string := " (also known by the stage name \"" + RambutanLink + "\")"
  const BandSuffix: string := " (formerly known as " + RambutanLink + ")"

  /** `First "[[Rambutan|Rambutan]]" Last`. */
  function MiddleName(first: string, last: string): (out: string) {
    first + " \"" + RambutanLink + "\" " + last
  }

  /**
   * `{{#rambutan:...}}`: an empty (after trimming) name gives "" whatever the
   * mode; with the mode off the trimmed name comes back; with it on, a name of
   * exactly two parts gets the link as a quoted middle name and any other name
   * gets the stage-name remark appended.
   */
  function RenderRambutan(ctx: ParserContext, name: string): (out: string)
    ensures out == [] <==> Trim(name) == []
    ensures Trim(name) != [] && !ModeActive(ctx) ==> out == Trim(name)
    ensures Trim(name) != [] && ModeActive(ctx) && |SplitOnSpaceRuns(Trim(name))| == 2 ==>
              out == MiddleName(SplitOnSpaceRuns(Trim(name))[0], SplitOnSpaceRuns(Trim(name))[1])
    ensures Trim(name) != [] && ModeActive(ctx) && |SplitOnSpaceRuns(Trim(name))| != 2 ==>
              out == Trim(name) + StageNameSuffix
  {
    PersonFromTrimmed(ctx, Trim(name))
  }

  /** `{{#rambutan:...}}` from the point where the name has been trimmed. */
  function PersonFromTrimmed(ctx: ParserContext, name: string): (out: string) {
    if name == [] then []
    else if !ModeActive(ctx) then name
    else
      var parts := SplitOnSpaceRuns(name);
      if |parts| == 2 then MiddleName(parts[0], parts[1])
      else name + StageNameSuffix
  }

  /**
   * `{{#rambutanband:...}}`: "" for an empty (after trimming) name, the trimmed
   * name with the mode off, and the trimmed name followed by the
   * "formerly known as" remark with it on.
   */
  function RenderRambutanBand(ctx: ParserContext, name: string): (out: string)
    ensures out == [] <==> Trim(name) == []
    ensures Trim(name) != [] && !ModeActive(ctx) ==> out == Trim(name)
    ensures Trim(name) != [] && ModeActive(ctx) ==> out == Trim(name) + BandSuffix
  {
    BandFromTrimmed(ctx, Trim(name))
  }

  /** `{{#rambutanband:...}}` from the point where the name has been trimmed. */
  function BandFromTrimmed(ctx: ParserContext, name: string): (out: string) {
    if name == [] then []
    else if !ModeActive(ctx) then name
    else name + BandSuffix
  }

  /** `sub` occurs in `s` starting at index `i`. */
  predicate OccursAt(s: string, sub: string, i: int) {
    0 <= i <= |s| - |sub| && s[i..i + |sub|] == sub
  }

  /** `sub` occurs somewhere in `s`. */
  ghost predicate Contains(s: string, sub: string) {
    exists i :: OccursAt(s, sub, i)
  }

  lemma ContainsMiddle(a: string, b: string, c: string)
    ensures Contains(a + b + c, b)
  {
    assert (a + b + c)[|a|..|a| + |b|] == b;
    assert OccursAt(a + b + c, b, |a|);
  }

  /**
   * A two-part name, padded or not, with any whitespace run between the parts,
   * is rewritten to carry the link as a quoted middle name between its parts.
   */
  lemma TwoNamePerson(ctx: ParserContext, pre: string, first: string, run: string, last: string, post: string)
    requires ModeActive(ctx)
    requires PlainWords([first, last]) && IsSpaceRun(run) && TrimmedEnds(first + run + last)
    requires AllTrimChars(pre) && AllTrimChars(post)
    ensures RenderRambutan(ctx, pre + first + run + last + post) == MiddleName(first, last)
  {
    var t := first + run + last;
    assert pre + first + run + last + post == pre + t + post;
    RenderIgnoresPadding(ctx, pre, t, post);
    assert [first, last][0] == first && [first, last][1] == last;
    SplitTwoWords(first, run, last);
    RenderTwoParts(ctx, t, first, last);
  }

  /** The two-part branch, once trimming and splitting are known. */
  lemma RenderTwoParts(ctx: ParserContext, name: string, first: string, last: string)
    requires ModeActive(ctx) && name != [] && TrimmedEnds(name)
    requires SplitOnSpaceRuns(name) == [first, last]
    ensures RenderRambutan(ctx, name) == MiddleName(first, last)
  {
    TrimKeepsOwnText(name);
  }

  /** Both parser functions see only the trimmed name, so padding around it changes nothing. */
  lemma RenderSeesTrimmedName(ctx: ParserContext, name: string, other: string)
    requires Trim(name) == Trim(other)
    ensures RenderRambutan(ctx, name) == RenderRambutan(ctx, other)
    ensures RenderRambutanBand(ctx, name) == RenderRambutanBand(ctx, other)
  {
  }

  /** Padding around a name whose ends are not trim characters changes neither parser function's output. */
  lemma RenderIgnoresPadding(ctx: ParserContext, pre: string, t: string, post: string)
    requires AllTrimChars(pre) && AllTrimChars(post) && TrimmedEnds(t)
    ensures RenderRambutan(ctx, pre + t + post) == RenderRambutan(ctx, t)
    ensures RenderRambutanBand(ctx, pre + t + post) == RenderRambutanBand(ctx, t)
  {
    TrimRemovesPadding(pre, t, post);
    TrimKeepsOwnText(t);
    RenderSeesTrimmedName(ctx, pre + t + post, t);
  }

  /**
   * A name of one part, or of three or more separated by any whitespace runs,
   * keeps its trimmed text and gets the stage-name remark appended.
   */
  lemma StageNamePerson(ctx: ParserContext, pre: string, words: seq<string>, runs: seq<string>, post: string)
    requires ModeActive(ctx)
    requires |words| >= 1 && |words| != 2 && |runs| == |words| - 1 && PlainWords(words)
    requires forall i :: 0 <= i < |runs| ==> IsSpaceRun(runs[i])
    requires TrimmedEnds(JoinWithRuns(words, runs))
    requires AllTrimChars(pre) && AllTrimChars(post)
    ensures RenderRambutan(ctx, pre + JoinWithRuns(words, runs) + post) == JoinWithRuns(words, runs) + StageNameSuffix
  {
    var t := JoinWithRuns(words, runs);
    RenderIgnoresPadding(ctx, pre, t, post);
    TrimKeepsOwnText(t);
    SplitJoinRoundTrip(words, runs);
  }

  /** With the mode off, both parser functions only trim, and re-rendering changes nothing. */
  lemma ModeOffOnlyTrims(ctx: ParserContext, name: string)
    requires !ModeActive(ctx)
    ensures RenderRambutan(ctx, name) == Trim(name) == RenderRambutanBand(ctx, name)
    ensures RenderRambutan(ctx, RenderRambutan(ctx, name)) == RenderRambutan(ctx, name)
  {
  }

  lemma MiddleNameLinks(first: string, last: string)
    ensures Contains(MiddleName(first, last), RambutanLink)
  {
    assert MiddleName(first, last) == (first + " \"") + RambutanLink + ("\" " + last);
    ContainsMiddle(first + " \"", RambutanLink, "\" " + last);
  }

  lemma SuffixesLink(t: string)
    ensures Contains(t + StageNameSuffix, RambutanLink)
    ensures Contains(t + BandSuffix, RambutanLink)
  {
    assert t + StageNameSuffix == (t + " (also known by the stage name \"") + RambutanLink + "\")";
    ContainsMiddle(t + " (also known by the stage name \"", RambutanLink, "\")");
    assert t + BandSuffix == (t + " (formerly known as ") + RambutanLink + ")";
    ContainsMiddle(t + " (formerly known as ", RambutanLink, ")");
  }

  /** With the mode on, the output for every non-empty name links to the Rambutan article. */
  lemma ActiveOutputLinksRambutan(ctx: ParserContext, name: string)
    requires ModeActive(ctx) && Trim(name) != []
    ensures Contains(RenderRambutan(ctx, name), RambutanLink)
    ensures Contains(RenderRambutanBand(ctx, name), RambutanLink)
  {
    var t := Trim(name);
    var parts := SplitOnSpaceRuns(t);
    SuffixesLink(t);
    if |parts| == 2 {
      MiddleNameLinks(parts[0], parts[1]);
    }
  }

  /**
   * `trim` leaves a form feed in place while `\s` splits on it, so a single
   * name preceded by a form feed counts as two parts, the first one empty.
   * Stated for every character `\s` matches and `trim` keeps; form feed is
   * the only one (`SpaceKeptByTrimIsFormFeed`).
   */
  lemma FormFeedBeforeName(ctx: ParserContext, c: char, word: string)
    requires ModeActive(ctx) && IsSpace(c) && !IsTrimChar(c)
    requires word != [] && NoSpace(word) && !IsTrimChar(word[|word| - 1])
    ensures RenderRambutan(ctx, [c] + word) == MiddleName("", word)
  {
    SplitLeadingRun([c], word);
    RenderTwoParts(ctx, [c] + word, [], word);
  }

  /** The mirror case: a single name followed by a form feed counts as two parts, the last one empty. */
  lemma FormFeedAfterName(ctx: ParserContext, word: string, c: char)
    requires ModeActive(ctx) && IsSpace(c) && !IsTrimChar(c)
    requires word != [] && NoSpace(word) && !IsTrimChar(word[0])
    ensures RenderRambutan(ctx, word + [c]) == MiddleName(word, "")
  {
    SplitTrailingRun(word, [c]);
    RenderTwoParts(ctx, word + [c], word, []);
  }
}
