/** The two string extensions the converter relies on: splitting a text
    insert into line tokens, and scrubbing a URL down to a safe character
    class. */
module StringExt {

  const NewLine: string := "\n"

  // ---------------------------------------------------------------------
  // s.split("\n")

  /** `s.split("\n")`: the segments between newline characters, so a string
      with k newlines has k + 1 segments (empty ones included). */
  function Split(s: string): (lines: seq<string>)
    ensures |lines| >= 1
  {
    if s == [] then [""]
    else
      var rest := Split(s[1..]);
      if s[0] == '\n' then [""] + rest else [[s[0]] + rest[0]] + rest[1..]
  }

  /** Number of newline characters in `s`. */
  function NewLineCount(s: string): nat {
    if s == [] then 0 else (if s[0] == '\n' then 1 else 0) + NewLineCount(s[1..])
  }

  /** `s` with every newline character deleted. */
  function WithoutNewLines(s: string): string {
    if s == [] then [] else (if s[0] == '\n' then [] else [s[0]]) + WithoutNewLines(s[1..])
  }

  /** The concatenation of a list of strings. */
  function Concat(ss: seq<string>): string {
    if ss == [] then [] else ss[0] + Concat(ss[1..])
  }

  /** The list joined with a newline between consecutive elements. */
  function JoinLines(ss: seq<string>): string
    requires |ss| >= 1
  {
    if |ss| == 1 then ss[0] else ss[0] + NewLine + JoinLines(ss[1..])
  }

  lemma SplitShape(s: string)
    ensures |Split(s)| == NewLineCount(s) + 1
    ensures forall i | 0 <= i < |Split(s)| :: '\n' !in Split(s)[i]
    ensures JoinLines(Split(s)) == s
    ensures Concat(Split(s)) == WithoutNewLines(s)
  {
    SplitLines(s);
    SplitJoin(s);
    SplitConcat(s);
  }

  /** One segment per newline plus one, none holding a newline. */
  lemma {:induction false} SplitLines(s: string)
    ensures |Split(s)| == NewLineCount(s) + 1
    ensures forall i | 0 <= i < |Split(s)| :: '\n' !in Split(s)[i]
  {
    if s != [] {
      SplitLines(s[1..]);
      var rest := Split(s[1..]);
      var lines := Split(s);
      if s[0] == '\n' {
        assert lines[1..] == rest;
        forall i | 0 <= i < |lines| ensures '\n' !in lines[i] {
          if i > 0 { assert lines[i] == rest[i - 1]; }
        }
      } else {
        assert lines[0] == [s[0]] + rest[0];
        forall i | 0 <= i < |lines| ensures '\n' !in lines[i] {
          if i > 0 { assert lines[i] == rest[i]; }
        }
      }
    }
  }

  /** Joining the segments with newlines gives the string back. */
  lemma {:induction false} SplitJoin(s: string)
    ensures JoinLines(Split(s)) == s
  {
    if s != [] {
      SplitJoin(s[1..]);
      var rest := Split(s[1..]);
      var lines := Split(s);
      assert s == [s[0]] + s[1..];
      if s[0] == '\n' {
        assert lines == [""] + rest;
        assert lines[1..] == rest;
      } else {
        assert lines[0] == [s[0]] + rest[0] && lines[1..] == rest[1..];
        if |rest| == 1 {
          assert JoinLines(lines) == [s[0]] + rest[0];
        } else {
          assert JoinLines(rest) == rest[0] + NewLine + JoinLines(rest[1..]);
          assert JoinLines(lines) == [s[0]] + rest[0] + NewLine + JoinLines(rest[1..]);
        }
      }
    }
  }

  /** Concatenating the segments gives the string without its newlines. */
  lemma {:induction false} SplitConcat(s: string)
    ensures Concat(Split(s)) == WithoutNewLines(s)
  {
    if s != [] {
      SplitConcat(s[1..]);
      var rest := Split(s[1..]);
      var lines := Split(s);
      if s[0] == '\n' {
        assert lines[1..] == rest;
      } else {
        assert lines[0] == [s[0]] + rest[0] && lines[1..] == rest[1..];
        ConcatCons(rest);
      }
    }
  }

  lemma ConcatCons(ss: seq<string>)
    requires |ss| >= 1
    ensures Concat(ss) == ss[0] + Concat(ss[1..])
  {
  }

  lemma {:induction false} NoNewLineSplit(s: string)
    requires '\n' !in s
    ensures Split(s) == [s]
  {
    if s != [] {
      NoNewLineSplit(s[1..]);
      assert [s[0]] + s[1..] == s;
    }
  }

  // ---------------------------------------------------------------------
  // s._tokenizeWithNewLines()

  /** What the reducer emits for the segment at index `ind`: a non-final
      segment becomes itself, or a newline when it is empty; the final
      segment is emitted only when it is non-empty. */
  function SegmentTokens(lines: seq<string>, ind: nat): seq<string>
    requires ind < |lines|
  {
    if ind != |lines| - 1 then [if lines[ind] != "" then lines[ind] else NewLine]
    else if lines[ind] != "" then [lines[ind]]
    else []
  }

  /** The accumulator of the reduce after the first `k` segments. */
  function Reduced(lines: seq<string>, k: nat): seq<string>
    requires k <= |lines|
  {
    if k == 0 then [] else Reduced(lines, k - 1) + SegmentTokens(lines, k - 1)
  }

  /** The line tokens of a text insert. There is always at least one, so
      no insert disappears when it is split into lines. */
  function LineTokens(s: string): (r: seq<string>)
    ensures |r| >= 1
  {
    if s == NewLine then [s]
    else
      var lines := Split(s);
      if |lines| == 1 then lines
      else
        ReducedNonEmpty(lines, |lines|);
        Reduced(lines, |lines|)
  }

  /** The first segment is never the last one, so it always emits a token. */
  lemma {:induction false} ReducedNonEmpty(lines: seq<string>, k: nat)
    requires 1 <= k <= |lines| && |lines| >= 2
    ensures |Reduced(lines, k)| >= 1
  {
    if k > 1 {
      ReducedNonEmpty(lines, k - 1);
    }
  }

  /** `_tokenizeWithNewLines`: a reduce that pushes one token per segment
      into its accumulator. */
  method TokenizeWithNewLines(s: string) returns (tokens: seq<string>)
    ensures tokens == LineTokens(s)
  {
    if s == NewLine {
      return [s];
    }
    var lines := Split(s);
    if |lines| == 1 {
      return lines;
    }
    var lastIndex := |lines| - 1;
    var pv: seq<string> := [];
    for ind := 0 to |lines|
      invariant pv == Reduced(lines, ind)
    {
      var line := lines[ind];
      if ind != lastIndex {
        if line != "" {
          pv := pv + [line];
        } else {
          pv := pv + [NewLine];
        }
      } else if line != "" {
        pv := pv + [line];
      }
    }
    tokens := pv;
  }

  /** The tokens that carry text, concatenated: newline tokens contribute
      nothing. */
  function TextOf(tokens: seq<string>): string {
    if tokens == [] then []
    else TextOf(tokens[..|tokens| - 1]) + (if tokens[|tokens| - 1] == NewLine then [] else tokens[|tokens| - 1])
  }

  /** A token is a bare newline or a non-empty piece of a single line. */
  predicate IsLineToken(t: string) {
    t == NewLine || (t != "" && '\n' !in t)
  }

  lemma {:induction false} ReducedShape(lines: seq<string>, k: nat)
    requires k <= |lines|
    requires forall i | 0 <= i < |lines| :: '\n' !in lines[i]
    ensures |Reduced(lines, k)| <= k
    ensures forall j | 0 <= j < |Reduced(lines, k)| :: IsLineToken(Reduced(lines, k)[j])
    ensures TextOf(Reduced(lines, k)) == Concat(lines[..k])
  {
    if k > 0 {
      ReducedShape(lines, k - 1);
      var prev := Reduced(lines, k - 1);
      var seg := SegmentTokens(lines, k - 1);
      var line := lines[k - 1];
      ConcatSnoc(lines[..k]);
      assert lines[..k][..k - 1] == lines[..k - 1];
      if seg == [] {
        assert Reduced(lines, k) == prev;
      } else {
        assert line != NewLine by { assert '\n' in NewLine; }
        var r := prev + seg;
        assert r[..|r| - 1] == prev;
      }
    }
  }

  lemma {:induction false} ConcatSnoc(ss: seq<string>)
    requires |ss| >= 1
    ensures Concat(ss) == Concat(ss[..|ss| - 1]) + ss[|ss| - 1]
  {
    if |ss| > 1 {
      ConcatSnoc(ss[1..]);
      assert ss[1..][..|ss| - 2] == ss[..|ss| - 1][1..];
    }
  }

  /** A string that is exactly a newline gives that newline alone. */
  lemma TokensOfNewLine()
    ensures LineTokens(NewLine) == [NewLine]
  {
  }

  /** A string without a newline, the empty string included, is its own
      single token. */
  lemma TokensWithoutNewLine(s: string)
    requires '\n' !in s
    ensures LineTokens(s) == [s]
  {
    NoNewLineSplit(s);
  }

  /** When the input holds a newline, every token is a bare newline or a
      non-empty newline-free piece, there are at most (newlines + 1) tokens,
      and the text tokens together are the input with its newlines deleted. */
  lemma TokensShape(s: string)
    requires '\n' in s
    ensures |LineTokens(s)| <= NewLineCount(s) + 1
    ensures forall j | 0 <= j < |LineTokens(s)| :: IsLineToken(LineTokens(s)[j])
    ensures TextOf(LineTokens(s)) == WithoutNewLines(s)
  {
    SplitShape(s);
    var lines := Split(s);
    if s == NewLine {
      assert LineTokens(s) == [NewLine];
      assert TextOf([NewLine]) == TextOf([]) + [];
    } else {
      ReducedShape(lines, |lines|);
      assert lines[..|lines|] == lines;
    }
  }

  // ---------------------------------------------------------------------
  // A non-final, non-empty segment loses the newline after it

  /** As written, a newline that follows a non-empty segment produces no
      token: two lines come out as two text tokens, and joining the tokens
      does not give the input back. */
  lemma TokenizeDropsNewLine()
    ensures LineTokens("a\nb") == ["a", "b"]
    ensures Concat(LineTokens("a\nb")) != "a\nb"
  {
    var s := "a\nb";
    assert s[1..] == "\nb" && s[1..][1..] == "b" && s[1..][1..][1..] == "";
    assert Split("") == [""];
    assert ['b'] + "" == "b";
    assert Split(s[1..][1..]) == ["b"];
    assert Split(s[1..]) == ["", "b"];
    assert ['a'] + "" == "a";
    assert Split(s) == ["a", "b"];
    var lines := Split(s);
    assert Reduced(lines, 1) == ["a"];
    assert Reduced(lines, 2) == ["a", "b"];
    assert Concat(["a", "b"]) == "ab";
    assert |"ab"| != |s|;
  }

  /** The segment tokens with the newline kept after every non-final
      segment: the line itself followed by a newline token, or the newline
      alone for an empty line. */
  function KeptSegmentTokens(lines: seq<string>, ind: nat): seq<string>
    requires ind < |lines|
  {
    if ind != |lines| - 1 then (if lines[ind] != "" then [lines[ind], NewLine] else [NewLine])
    else if lines[ind] != "" then [lines[ind]]
    else []
  }

  function KeptReduced(lines: seq<string>, k: nat): seq<string>
    requires k <= |lines|
  {
    if k == 0 then [] else KeptReduced(lines, k - 1) + KeptSegmentTokens(lines, k - 1)
  }

  /** The line tokens with every newline kept; like the original, never
      empty. */
  function KeptLineTokens(s: string): (r: seq<string>)
    ensures |r| >= 1
  {
    if s == NewLine then [s]
    else
      var lines := Split(s);
      if |lines| == 1 then lines
      else
        KeptReducedNonEmpty(lines, |lines|);
        KeptReduced(lines, |lines|)
  }

  lemma {:induction false} KeptReducedNonEmpty(lines: seq<string>, k: nat)
    requires 1 <= k <= |lines| && |lines| >= 2
    ensures |KeptReduced(lines, k)| >= 1
  {
    if k > 1 {
      KeptReducedNonEmpty(lines, k - 1);
    }
  }

  /** With the newline kept, the tokens joined give the input back. */
  lemma KeptTokensRebuild(s: string)
    ensures Concat(KeptLineTokens(s)) == s
  {
    var lines := Split(s);
    SplitJoin(s);
    if s == NewLine {
      ConcatCons([s]);
    } else if |lines| == 1 {
      ConcatCons(lines);
    } else {
      KeptReducedAll(lines);
    }
  }

  lemma KeptReducedAll(lines: seq<string>)
    requires |lines| >= 2
    ensures Concat(KeptReduced(lines, |lines|)) == JoinLines(lines)
  {
    var n := |lines|;
    KeptReducedJoin(lines, n - 1);
    var prev := KeptReduced(lines, n - 1);
    ConcatAppend(prev, KeptSegmentTokens(lines, n - 1));
    JoinLinesSnoc(lines);
    if lines[n - 1] != "" {
      ConcatCons([lines[n - 1]]);
    }
  }

  /** Before the last segment, the kept tokens join to the lines so far,
      each followed by a newline. */
  lemma {:induction false} KeptReducedJoin(lines: seq<string>, k: nat)
    requires 1 <= k < |lines|
    ensures Concat(KeptReduced(lines, k)) == JoinLines(lines[..k]) + NewLine
  {
    var seg := KeptSegmentTokens(lines, k - 1);
    KeptSegmentJoin(lines, k - 1);
    if k == 1 {
      assert KeptReduced(lines, 1) == seg;
    } else {
      KeptReducedJoin(lines, k - 1);
      ConcatAppend(KeptReduced(lines, k - 1), seg);
      JoinLinesSnoc(lines[..k]);
      assert lines[..k][..k - 1] == lines[..k - 1];
    }
  }

  lemma KeptSegmentJoin(lines: seq<string>, ind: nat)
    requires ind < |lines| - 1
    ensures Concat(KeptSegmentTokens(lines, ind)) == lines[ind] + NewLine
  {
    var seg := KeptSegmentTokens(lines, ind);
    ConcatCons(seg);
    if lines[ind] != "" {
      ConcatCons(seg[1..]);
    }
  }

  lemma {:induction false} ConcatAppend(a: seq<string>, b: seq<string>)
    ensures Concat(a + b) == Concat(a) + Concat(b)
  {
    if a != [] {
      ConcatAppend(a[1..], b);
      assert (a + b)[1..] == a[1..] + b;
    } else {
      assert a + b == b;
    }
  }

  lemma {:induction false} JoinLinesSnoc(ss: seq<string>)
    requires |ss| >= 2
    ensures JoinLines(ss) == JoinLines(ss[..|ss| - 1]) + NewLine + ss[|ss| - 1]
  {
    if |ss| > 2 {
      JoinLinesSnoc(ss[1..]);
      assert ss[1..][..|ss| - 2] == ss[..|ss| - 1][1..];
    }
  }

  // ---------------------------------------------------------------------
  // s._scrubUrl()

  /** The characters a scrubbed URL may contain: ASCII letters and digits and
      `-+&@#/%?=~_|!:,.;()`. */
  predicate IsUrlSafe(c: char) {
    || 'A' <= c <= 'Z' || 'a' <= c <= 'z' || '0' <= c <= '9'
    || c == '-' || c == '+' || c == '&' || c == '@' || c == '#' || c == '/' || c == '%'
    || c == '?' || c == '=' || c == '~' || c == '_' || c == '|' || c == '!' || c == ':'
    || c == ',' || c == '.' || c == ';' || c == '(' || c == ')'
  }

  predicate AllUrlSafe(s: string) {
    forall i | 0 <= i < |s| :: IsUrlSafe(s[i])
  }

  /** `a` is `b` with zero or more characters deleted. */
  predicate IsSubsequence(a: string, b: string)
    decreases |b|
  {
    a == [] || (b != [] && ((a[0] == b[0] && IsSubsequence(a[1..], b[1..])) || IsSubsequence(a, b[1..])))
  }

  /** `_scrubUrl`: every character outside the safe class is deleted. The
      result is made of safe characters only and keeps every safe character
      of the input (ScrubKeepsSafeChars) in order (ScrubSubsequence). */
  function ScrubUrl(s: string): (r: string)
    ensures AllUrlSafe(r)
    ensures |r| <= |s|
  {
    if s == [] then []
    else
      var rest := ScrubUrl(s[1..]);
      if IsUrlSafe(s[0]) then [s[0]] + rest else rest
  }

  /** The scrubbed URL is the input with characters deleted. */
  lemma {:induction false} ScrubSubsequence(s: string)
    ensures IsSubsequence(ScrubUrl(s), s)
  {
    if s != [] {
      ScrubSubsequence(s[1..]);
      var rest := ScrubUrl(s[1..]);
      if IsUrlSafe(s[0]) {
        assert ([s[0]] + rest)[1..] == rest;
      }
    }
  }

  /** Every safe character of the input is kept, as often as it occurs. */
  lemma {:induction false} ScrubKeepsSafeChars(s: string, c: char)
    requires IsUrlSafe(c)
    ensures multiset(ScrubUrl(s))[c] == multiset(s)[c]
  {
    if s != [] {
      ScrubKeepsSafeChars(s[1..], c);
      assert s == [s[0]] + s[1..];
      assert multiset(s) == multiset([s[0]]) + multiset(s[1..]);
      if IsUrlSafe(s[0]) {
        assert multiset(ScrubUrl(s)) == multiset([s[0]]) + multiset(ScrubUrl(s[1..]));
      }
    }
  }

  /** A string of safe characters only comes back unchanged. */
  lemma {:induction false} ScrubSafe(s: string)
    requires AllUrlSafe(s)
    ensures ScrubUrl(s) == s
  {
    if s != [] {
      ScrubSafe(s[1..]);
      assert s == [s[0]] + s[1..];
    }
  }

  /** Scrubbing twice is scrubbing once. */
  lemma ScrubIdempotent(s: string)
    ensures ScrubUrl(ScrubUrl(s)) == ScrubUrl(s)
  {
    ScrubSafe(ScrubUrl(s));
  }

  /** Scrubbing works character by character, so it distributes over
      concatenation. */
  lemma {:induction false} ScrubConcat(a: string, b: string)
    ensures ScrubUrl(a + b) == ScrubUrl(a) + ScrubUrl(b)
  {
    if a != [] {
      ScrubConcat(a[1..], b);
      var head := if IsUrlSafe(a[0]) then [a[0]] else [];
      assert a + b == [a[0]] + (a[1..] + b);
      ScrubCons(a[0], a[1..] + b);
      assert a == [a[0]] + a[1..];
      ScrubCons(a[0], a[1..]);
      assert ScrubUrl(a + b) == head + (ScrubUrl(a[1..]) + ScrubUrl(b));
    } else {
      assert a + b == b;
    }
  }

  lemma ScrubCons(c: char, s: string)
    ensures ScrubUrl([c] + s) == (if IsUrlSafe(c) then [c] else []) + ScrubUrl(s)
  {
    assert ([c] + s)[1..] == s;
  }

  /** The class is a character filter, not a scheme allowlist: a script URL
      is made of safe characters and passes through intact. */
  lemma ScriptSchemeSurvives()
    ensures ScrubUrl("javascript:alert(1)") == "javascript:alert(1)"
  {
    var url := "javascript:alert(1)";
    assert url[10] == ':' && url[16] == '(' && url[18] == ')';
    assert AllUrlSafe(url);
    ScrubSafe(url);
  }
}
