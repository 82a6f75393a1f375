/**
 * The two PHP string primitives the parser functions use: `trim` with its default
 * character list, and `preg_split('/\s+/', ...)` without flags or limit.
 * Both act on single-byte characters; multi-byte UTF-8 sequences never contain
 * the ASCII bytes involved, so modelling strings as sequences of characters
 * loses nothing here.
 */
module PhpText {

  /** The characters `trim` strips by default: space, tab, LF, CR, NUL and vertical tab. */
  predicate IsTrimChar(c: char) {
    c == ' ' || c == '\t' || c == '\n' || c == '\r' || c == '\0' || c == '\U{0B}'
  }

  /** The characters PCRE's `\s` matches outside UTF mode: space, tab, LF, VT, FF and CR. */
  predicate IsSpace(c: char) {
    c == ' ' || c == '\t' || c == '\n' || c == '\U{0B}' || c == '\U{0C}' || c == '\r'
  }

  predicate AllTrimChars(s: string) {
    forall i :: 0 <= i < |s| ==> IsTrimChar(s[i])
  }

  predicate NoSpace(s: string) {
    forall i :: 0 <= i < |s| ==> !IsSpace(s[i])
  }

  /** Neither end of `s` is a character that `trim` strips. */
  predicate TrimmedEnds(s: string) {
    s == [] || (!IsTrimChar(s[0]) && !IsTrimChar(s[|s| - 1]))
  }

  /** `ltrim`: drops the longest prefix of trim characters. */
  function TrimLeft(s: string): (r: string)
    ensures |r| <= |s| && r == s[|s| - |r|..]
    ensures AllTrimChars(s[..|s| - |r|])
    ensures r == [] || !IsTrimChar(r[0])
    decreases |s|
  {
    if |s| > 0 && IsTrimChar(s[0]) then
      var r := TrimLeft(s[1..]);
      assert s[..|s| - |r|] == [s[0]] + s[1..][..|s| - 1 - |r|];
      r
    else s
  }

  /** `rtrim`: drops the longest suffix of trim characters. */
  function TrimRight(s: string): (r: string)
    ensures |r| <= |s| && r == s[..|r|]
    ensures AllTrimChars(s[|r|..])
    ensures r == [] || !IsTrimChar(r[|r| - 1])
    decreases |s|
  {
    if |s| > 0 && IsTrimChar(s[|s| - 1]) then
      var r := TrimRight(s[..|s| - 1]);
      assert s[|r|..] == s[..|s| - 1][|r|..] + [s[|s| - 1]];
      r
    else s
  }

  /** `trim`: strips trim characters from both ends. */
  function Trim(s: string): (r: string)
    ensures TrimmedEnds(r)
    ensures r == [] <==> AllTrimChars(s)
    ensures |r| <= |s|
  {
    var l := TrimLeft(s);
    var r := TrimRight(l);
    assert r == [] ==> AllTrimChars(s) by {
      if r == [] {
        assert s == s[..|s| - |l|] + l;
      }
    }
    r
  }

  /** The longest prefix of `s` holding no `\s` character. */
  function Word(s: string): (w: string)
    ensures |w| <= |s| && w == s[..|w|]
    ensures NoSpace(w)
    ensures |w| < |s| ==> IsSpace(s[|w|])
    decreases |s|
  {
    if |s| == 0 || IsSpace(s[0]) then [] else [s[0]] + Word(s[1..])
  }

  /** Drops the longest prefix of `\s` characters. */
  function SkipSpaces(s: string): (r: string)
    ensures |r| <= |s| && r == s[|s| - |r|..]
    ensures forall i :: 0 <= i < |s| - |r| ==> IsSpace(s[i])
    ensures r == [] || !IsSpace(r[0])
    decreases |s|
  {
    if |s| > 0 && IsSpace(s[0]) then SkipSpaces(s[1..]) else s
  }

  /**
   * `preg_split('/\s+/', s)`: the pieces of `s` between maximal runs of `\s`
   * characters, including an empty first or last piece when `s` starts or ends
   * with such a run, and `[""]` for the empty string.
   */
  function SplitOnSpaceRuns(s: string): (parts: seq<string>)
    ensures |parts| >= 1
    ensures forall i :: 0 <= i < |parts| ==> NoSpace(parts[i])
    decreases |s|
  {
    var w := Word(s);
    if |w| == |s| then [w] else [w] + SplitOnSpaceRuns(SkipSpaces(s[|w|..]))
  }

  /** A non-empty run of `\s` characters, such as one match of `\s+`. */
  predicate IsSpaceRun(run: string) {
    run != [] && forall i :: 0 <= i < |run| ==> IsSpace(run[i])
  }

  /** `words[0] + runs[0] + words[1] + ... + words[n-1]`: words separated by whitespace runs. */
  function JoinWithRuns(words: seq<string>, runs: seq<string>): (s: string)
    requires |words| >= 1 && |runs| == |words| - 1
    ensures words[0] <= s
  {
    if |words| == 1 then words[0] else words[0] + runs[0] + JoinWithRuns(words[1..], runs[1..])
  }

  /** Every word is non-empty and free of `\s` characters. */
  predicate PlainWords(words: seq<string>) {
    forall i :: 0 <= i < |words| ==> words[i] != [] && NoSpace(words[i])
  }

  lemma {:induction false} TrimLeftSkipsPadding(pad: string, rest: string)
    requires AllTrimChars(pad)
    requires rest == [] || !IsTrimChar(rest[0])
    ensures TrimLeft(pad + rest) == rest
    decreases |pad|
  {
    if pad != [] {
      assert (pad + rest)[1..] == pad[1..] + rest;
      TrimLeftSkipsPadding(pad[1..], rest);
    }
  }

  lemma {:induction false} TrimRightSkipsPadding(rest: string, pad: string)
    requires AllTrimChars(pad)
    requires rest == [] || !IsTrimChar(rest[|rest| - 1])
    ensures TrimRight(rest + pad) == rest
    decreases |pad|
  {
    if pad != [] {
      assert (rest + pad)[..|rest + pad| - 1] == rest + pad[..|pad| - 1];
      TrimRightSkipsPadding(rest, pad[..|pad| - 1]);
    }
  }

  /** `trim` removes exactly the padding around a text whose ends are not trim characters. */
  lemma TrimRemovesPadding(pre: string, t: string, post: string)
    requires AllTrimChars(pre) && AllTrimChars(post) && TrimmedEnds(t)
    ensures Trim(pre + t + post) == t
  {
    if t == [] {
      assert AllTrimChars(pre + t + post);
    } else {
      assert pre + t + post == pre + (t + post);
      TrimLeftSkipsPadding(pre, t + post);
      TrimRightSkipsPadding(t, post);
    }
  }

  /** `trim` leaves a text alone whose ends are not trim characters. */
  lemma TrimKeepsOwnText(t: string)
    requires TrimmedEnds(t)
    ensures Trim(t) == t
  {
    assert t == [] + t + [];
    TrimRemovesPadding([], t, []);
  }

  /** `trim` is idempotent. */
  lemma TrimIdempotent(s: string)
    ensures Trim(Trim(s)) == Trim(s)
  {
  }

  lemma {:induction false} WordStopsAtSpace(w: string, tail: string)
    requires NoSpace(w)
    requires tail == [] || IsSpace(tail[0])
    ensures Word(w + tail) == w
    decreases |w|
  {
    if w != [] {
      assert (w + tail)[1..] == w[1..] + tail;
      WordStopsAtSpace(w[1..], tail);
    }
  }

  lemma {:induction false} SkipSpacesStopsAtText(pad: string, rest: string)
    requires forall i :: 0 <= i < |pad| ==> IsSpace(pad[i])
    requires rest == [] || !IsSpace(rest[0])
    ensures SkipSpaces(pad + rest) == rest
    decreases |pad|
  {
    if pad != [] {
      assert (pad + rest)[1..] == pad[1..] + rest;
      SkipSpacesStopsAtText(pad[1..], rest);
    }
  }

  /** A text without `\s` characters is a single part. */
  lemma SplitOfPlainText(w: string)
    requires NoSpace(w)
    ensures SplitOnSpaceRuns(w) == [w]
  {
    assert w + [] == w;
    WordStopsAtSpace(w, []);
  }

  /**
   * A whole run of `\s` characters is one separator: the text before it is the
   * first part and the split goes on after it.
   */
  lemma SplitAtRun(w: string, run: string, rest: string)
    requires NoSpace(w) && IsSpaceRun(run)
    requires rest == [] || !IsSpace(rest[0])
    ensures SplitOnSpaceRuns(w + run + rest) == [w] + SplitOnSpaceRuns(rest)
  {
    var s := w + run + rest;
    assert s == w + (run + rest);
    WordStopsAtSpace(w, run + rest);
    assert s[|w|..] == run + rest;
    SkipSpacesStopsAtText(run, rest);
  }

  /** Form feed is the one character that `\s` matches and `trim` does not strip. */
  lemma SpaceKeptByTrimIsFormFeed(c: char)
    ensures IsSpace(c) && !IsTrimChar(c) <==> c == '\U{0C}'
  {
  }

  /** Two words around a whitespace run split into those two words. */
  lemma SplitTwoWords(first: string, run: string, last: string)
    requires NoSpace(first) && IsSpaceRun(run) && last != [] && NoSpace(last)
    ensures SplitOnSpaceRuns(first + run + last) == [first, last]
  {
    SplitAtRun(first, run, last);
    SplitOfPlainText(last);
  }

  /** A text that starts with a whitespace run splits off an empty first part. */
  lemma SplitLeadingRun(run: string, rest: string)
    requires IsSpaceRun(run) && NoSpace(rest)
    ensures SplitOnSpaceRuns(run + rest) == ["", rest]
  {
    var s := run + rest;
    assert Word(s) == [];
    assert s[0..] == s;
    SkipSpacesStopsAtText(run, rest);
    SplitOfPlainText(rest);
  }

  /** A text that ends with a whitespace run splits off an empty last part. */
  lemma SplitTrailingRun(w: string, run: string)
    requires NoSpace(w) && IsSpaceRun(run)
    ensures SplitOnSpaceRuns(w + run) == [w, ""]
  {
    assert w + run == w + run + [];
    SplitAtRun(w, run, []);
    SplitOfPlainText([]);
  }

  /** Splitting non-empty words separated by arbitrary whitespace runs gives the words back. */
  lemma {:induction false} SplitJoinRoundTrip(words: seq<string>, runs: seq<string>)
    requires |words| >= 1 && |runs| == |words| - 1 && PlainWords(words)
    requires forall i :: 0 <= i < |runs| ==> IsSpaceRun(runs[i])
    ensures SplitOnSpaceRuns(JoinWithRuns(words, runs)) == words
    decreases |words|
  {
    if |words| == 1 {
      SplitOfPlainText(words[0]);
    } else {
      var rest := JoinWithRuns(words[1..], runs[1..]);
      assert words[1..][0] == words[1] && words[1] != [];
      assert rest[0] == words[1][0];
      assert NoSpace(words[0]) && IsSpaceRun(runs[0]);
      SplitAtRun(words[0], runs[0], rest);
      SplitJoinRoundTrip(words[1..], runs[1..]);
      assert words == [words[0]] + words[1..];
    }
  }

  /** A text that neither starts nor ends with a `\s` character splits into non-empty parts. */
  lemma {:induction false} SplitPartsNonEmpty(s: string)
    requires s != [] && !IsSpace(s[0]) && !IsSpace(s[|s| - 1])
    ensures forall i :: 0 <= i < |SplitOnSpaceRuns(s)| ==> SplitOnSpaceRuns(s)[i] != []
    decreases |s|
  {
    var w := Word(s);
    if |w| < |s| {
      var rest := SkipSpaces(s[|w|..]);
      assert s[|w|..][|s| - |w| - 1] == s[|s| - 1];
      assert rest[|rest| - 1] == s[|s| - 1];
      SplitPartsNonEmpty(rest);
    }
  }
}
