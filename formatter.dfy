// `formatCodeForMarkdown`: hard-wraps every line of a snippet that is longer
// than 80 code units, using the matches of the global regular expression
// `(.{1,80})`, and leaves shorter lines alone.
module Formatter {
  import opened JsText

  /** The assumed width of an A4 page, in characters. */
  const MaxLineLength: nat := 80

  function Min(a: nat, b: nat): nat { if a <= b then a else b }

  /** Number of leading characters that `.` can match, i.e. the length of the
      run of non-terminators at the front of `s`. */
  function LeadingRun(s: string): (n: nat)
    ensures n <= |s|
    ensures NoTerminators(s[..n])
    ensures n < |s| ==> IsLineTerminator(s[n])
  {
    if s == [] || IsLineTerminator(s[0]) then 0
    else
      var n := 1 + LeadingRun(s[1..]);
      assert s[..n] == [s[0]] + s[1..][..n - 1];
      n
  }

  /** One match of `(.{1,80})`: between 1 and 80 characters, none of them a
      line terminator. */
  predicate IsChunk(c: string)
  {
    1 <= |c| <= MaxLineLength && NoTerminators(c)
  }

  /** `s.match(/(.{1,80})/g)`, with the empty sequence standing for `null`.
      Scanning left to right, a line terminator cannot start a match and is
      skipped; elsewhere the greedy match takes as many non-terminators as it
      can, up to 80. */
  function MatchAll(s: string): (chunks: seq<string>)
    ensures forall k :: 0 <= k < |chunks| ==> IsChunk(chunks[k])
    decreases |s|
  {
    if s == [] then []
    else if IsLineTerminator(s[0]) then MatchAll(s[1..])
    else
      var k := Min(MaxLineLength, LeadingRun(s));
      [s[..k]] + MatchAll(s[k..])
  }

  /** The characters of `s` that are not line terminators, in order. */
  function DropTerminators(s: string): string
  {
    if s == [] then []
    else (if IsLineTerminator(s[0]) then [] else [s[0]]) + DropTerminators(s[1..])
  }

  /** The callback given to `lines.map`: a line of at most 80 characters is
      kept, a longer one is replaced by its matches joined with '\n'. Either
      way the line's characters other than line terminators are kept, in
      order. */
  function WrapLine(line: string): (r: string)
    ensures |line| <= MaxLineLength ==> r == line
    ensures DropTerminators(r) == DropTerminators(line)
  {
    if |line| > MaxLineLength then
      var matches := MatchAll(line);
      if matches == [] then line
      else
        MatchAllKeepsNonTerminators(line);
        DropTerminatorsJoin(matches);
        Join(matches)
    else line
  }

  function WrapAll(lines: seq<string>): (wrapped: seq<string>)
    ensures |wrapped| == |lines|
    ensures forall k :: 0 <= k < |lines| ==> wrapped[k] == WrapLine(lines[k])
  {
    seq(|lines|, k requires 0 <= k < |lines| => WrapLine(lines[k]))
  }

  /** `formatCodeForMarkdown(code)`: a snippet whose lines all fit is
      returned exactly as given, and in every case only line terminators are
      added or lost, never any other character. */
  function FormatCodeForMarkdown(code: string): (r: string)
    ensures AllLinesShort(code) ==> r == code
    ensures DropTerminators(r) == DropTerminators(code)
  {
    var lines := Split(code);
    JoinSplit(code);
    DropTerminatorsJoinEq(WrapAll(lines), lines);
    ShortLinesKept(lines);
    Join(WrapAll(lines))
  }

  /** Lines that all fit come out of the `map` as they went in. */
  lemma {:induction false} ShortLinesKept(lines: seq<string>)
    ensures (forall k :: 0 <= k < |lines| ==> |lines[k]| <= MaxLineLength) ==> WrapAll(lines) == lines
  {
  }

  /** The first line of a snippet is wrapped on its own and the rest of the
      snippet is formatted independently: a short line passes through
      unchanged and a long one is replaced in place by its wrap. */
  lemma {:induction false} FormatConsLine(a: string, b: string)
    requires '\n' !in a
    ensures Split(FormatCodeForMarkdown(a + "\n" + b)) == Split(WrapLine(a)) + Split(FormatCodeForMarkdown(b))
  {
    FormatCons(a, b);
    SplitAround(WrapLine(a), FormatCodeForMarkdown(b));
  }

  lemma {:induction false} FormatCons(a: string, b: string)
    requires '\n' !in a
    ensures FormatCodeForMarkdown(a + "\n" + b) == WrapLine(a) + "\n" + FormatCodeForMarkdown(b)
  {
    SplitAround(a, b);
    SplitSingle(a);
    var lines := Split(b);
    WrapAllCons(a, lines);
    JoinCons(WrapLine(a), WrapAll(lines));
  }

  lemma {:induction false} WrapAllCons(line: string, lines: seq<string>)
    ensures WrapAll([line] + lines) == [WrapLine(line)] + WrapAll(lines)
  {
  }

  lemma {:induction false} JoinCons(x: string, xs: seq<string>)
    requires |xs| >= 1
    ensures Join([x] + xs) == x + "\n" + Join(xs)
  {
    assert ([x] + xs)[1..] == xs;
  }

  /** A snippet of one line is that line, wrapped. */
  lemma {:induction false} FormatSingleLine(a: string)
    requires '\n' !in a
    ensures FormatCodeForMarkdown(a) == WrapLine(a)
  {
    SplitSingle(a);
  }

  /** Every '\n'-separated line of `code` fits in 80 characters. */
  predicate AllLinesShort(code: string)
  {
    forall k :: 0 <= k < |Split(code)| ==> |Split(code)[k]| <= MaxLineLength
  }

  lemma {:induction false} DropTerminatorsAppend(a: string, b: string)
    ensures DropTerminators(a + b) == DropTerminators(a) + DropTerminators(b)
  {
    if a == [] {
      assert a + b == b;
    } else {
      var head := if IsLineTerminator(a[0]) then [] else [a[0]];
      assert (a + b)[0] == a[0];
      assert (a + b)[1..] == a[1..] + b;
      DropTerminatorsAppend(a[1..], b);
      calc {
        DropTerminators(a + b);
        head + DropTerminators(a[1..] + b);
        head + (DropTerminators(a[1..]) + DropTerminators(b));
        (head + DropTerminators(a[1..])) + DropTerminators(b);
        DropTerminators(a) + DropTerminators(b);
      }
    }
  }

  lemma {:induction false} DropTerminatorsNone(s: string)
    requires NoTerminators(s)
    ensures DropTerminators(s) == s
  {
    if s != [] {
      DropTerminatorsNone(s[1..]);
    }
  }

  /** Joining matches with '\n' adds only terminators: what is left without
      them is the matches glued together. */
  lemma {:induction false} DropTerminatorsJoin(chunks: seq<string>)
    requires forall k :: 0 <= k < |chunks| ==> IsChunk(chunks[k])
    ensures DropTerminators(Join(chunks)) == Concat(chunks)
  {
    if |chunks| == 1 {
      assert IsChunk(chunks[0]);
      DropTerminatorsNone(chunks[0]);
      assert Concat(chunks) == chunks[0] + Concat([]);
    } else if |chunks| > 1 {
      var c, rest := chunks[0], chunks[1..];
      assert IsChunk(c);
      DropTerminatorsJoin(rest);
      DropTerminatorsNone(c);
      DropTerminatorsAppend(c + "\n", Join(rest));
      DropTerminatorsAppend(c, "\n");
      assert DropTerminators("\n") == [];
      assert Join(chunks) == c + "\n" + Join(rest);
    }
  }

  /** `#` is not a line terminator, so it is kept exactly where it occurs. */
  lemma {:induction false} HashKept(s: string)
    ensures '#' in DropTerminators(s) <==> '#' in s
  {
    if s != [] {
      HashKept(s[1..]);
      assert s == [s[0]] + s[1..];
    }
  }

  /** Lines that agree up to line terminators join into texts that agree up
      to line terminators. */
  lemma {:induction false} DropTerminatorsJoinEq(xs: seq<string>, ys: seq<string>)
    requires |xs| == |ys|
    requires forall k :: 0 <= k < |xs| ==> DropTerminators(xs[k]) == DropTerminators(ys[k])
    ensures DropTerminators(Join(xs)) == DropTerminators(Join(ys))
  {
    if |xs| == 1 {
      assert DropTerminators(xs[0]) == DropTerminators(ys[0]);
    } else if |xs| > 1 {
      DropTerminatorsJoinEq(xs[1..], ys[1..]);
      assert DropTerminators(xs[0]) == DropTerminators(ys[0]);
      DropTerminatorsAppend(xs[0] + "\n", Join(xs[1..]));
      DropTerminatorsAppend(xs[0], "\n");
      DropTerminatorsAppend(ys[0] + "\n", Join(ys[1..]));
      DropTerminatorsAppend(ys[0], "\n");
    }
  }

  /** A line terminator ends a run: the matches on either side of it are
      found separately, and the terminator itself belongs to no match. */
  lemma {:induction false} MatchAllAtTerminator(a: string, t: char, b: string)
    requires NoTerminators(a) && IsLineTerminator(t)
    ensures MatchAll(a + [t] + b) == MatchAll(a) + MatchAll(b)
    decreases |a|
  {
    if a == [] {
      MatchAllAtTerminatorEmpty(a, t, b);
    } else {
      var front, rest := MatchAllFirstRun(a, t, b);
      MatchAllAtTerminator(rest, t, b);
      AssocCons(front, MatchAll(rest), MatchAll(b));
    }
  }

  lemma {:induction false} MatchAllAtTerminatorEmpty(a: string, t: char, b: string)
    requires a == [] && IsLineTerminator(t)
    ensures MatchAll(a + [t] + b) == MatchAll(a) + MatchAll(b)
  {
    assert a + [t] + b == [t] + b;
    MatchAllSkipsTerminator(t, b);
  }

  lemma {:induction false} AssocCons(x: string, p: seq<string>, q: seq<string>)
    ensures [x] + (p + q) == ([x] + p) + q
  {
  }

  /** A leading line terminator is skipped. */
  lemma {:induction false} MatchAllSkipsTerminator(t: char, b: string)
    requires IsLineTerminator(t)
    ensures MatchAll([t] + b) == MatchAll(b)
  {
    assert ([t] + b)[1..] == b;
  }

  /** The first match of `a + [t] + b` is the first match of `a`, and what
      follows it is the rest of `a`, still without terminators. */
  lemma {:induction false} MatchAllFirstRun(a: string, t: char, b: string) returns (front: string, rest: string)
    requires NoTerminators(a) && IsLineTerminator(t) && a != []
    ensures MatchAll(a + [t] + b) == [front] + MatchAll(rest + [t] + b)
    ensures MatchAll(a) == [front] + MatchAll(rest)
    ensures NoTerminators(rest) && |rest| < |a|
  {
    var s := a + [t] + b;
    LeadingRunUpTo(a, t, b);
    var k := Min(MaxLineLength, |a|);
    front, rest := a[..k], a[k..];
    assert s[..k] == front && s[k..] == rest + [t] + b;
  }

  /** The leading run of `a + [t] + b` is all of `a` when `a` has no
      terminator and `t` is one. */
  lemma {:induction false} LeadingRunUpTo(a: string, t: char, b: string)
    requires NoTerminators(a) && IsLineTerminator(t) && a != []
    ensures LeadingRun(a + [t] + b) == |a| && LeadingRun(a) == |a|
    ensures (a + [t] + b)[0] == a[0] && !IsLineTerminator(a[0])
  {
    var s := a + [t] + b;
    assert s[|a|] == t;
    var n := LeadingRun(s);
    assert n <= |a|;
  }

  /** What the matches keep of a line: all of it except its line terminators,
      which `.` cannot match and which are therefore lost. */
  lemma {:induction false} MatchAllKeepsNonTerminators(s: string)
    ensures Concat(MatchAll(s)) == DropTerminators(s)
    decreases |s|
  {
    if s != [] {
      if IsLineTerminator(s[0]) {
        MatchAllKeepsNonTerminators(s[1..]);
      } else {
        var k := Min(MaxLineLength, LeadingRun(s));
        var rest := MatchAll(s[k..]);
        assert MatchAll(s) == [s[..k]] + rest;
        assert ([s[..k]] + rest)[1..] == rest;
        assert Concat(MatchAll(s)) == s[..k] + Concat(rest);
        MatchAllKeepsNonTerminators(s[k..]);
        assert s == s[..k] + s[k..];
        DropTerminatorsAppend(s[..k], s[k..]);
        DropTerminatorsNone(s[..k]);
      }
    }
  }

  /** `match` returns `null` exactly when every character is a line terminator. */
  lemma {:induction false} MatchAllEmptyIff(s: string)
    ensures MatchAll(s) == [] <==> DropTerminators(s) == []
  {
    MatchAllKeepsNonTerminators(s);
    if MatchAll(s) != [] {
      assert |Concat(MatchAll(s))| >= |MatchAll(s)[0]| >= 1;
    }
  }

  /** On a line without line terminators the matches cut it into
      ceil(L/80) pieces, all of width 80 except a shorter last one. */
  lemma {:induction false} MatchAllCutsEvenly(s: string)
    requires NoTerminators(s)
    ensures var chunks := MatchAll(s);
      && |chunks| == (|s| + MaxLineLength - 1) / MaxLineLength
      && (forall k :: 0 <= k < |chunks| - 1 ==> |chunks[k]| == MaxLineLength)
      && Concat(chunks) == s
    decreases |s|
  {
    MatchAllKeepsNonTerminators(s);
    DropTerminatorsNone(s);
    if s != [] {
      var n := LeadingRun(s);
      assert n == |s|;
      var k := Min(MaxLineLength, n);
      assert NoTerminators(s[k..]);
      MatchAllCutsEvenly(s[k..]);
    }
  }

  /** A line over 80 characters with no line terminator is wrapped into
      ceil(L/80) lines; all but the last are exactly 80 long, and putting
      them back together (without the inserted '\n's) restores the line. */
  lemma {:induction false} LongLineWrapping(line: string)
    requires |line| > MaxLineLength && NoTerminators(line)
    ensures var pieces := Split(WrapLine(line));
      && |pieces| == (|line| + MaxLineLength - 1) / MaxLineLength
      && (forall k :: 0 <= k < |pieces| - 1 ==> |pieces[k]| == MaxLineLength)
      && (forall k :: 0 <= k < |pieces| ==> 1 <= |pieces[k]| <= MaxLineLength)
      && Concat(pieces) == line
  {
    var chunks := MatchAll(line);
    MatchAllCutsEvenly(line);
    assert chunks != [];
    ChunksSplitBack(chunks);
  }

  lemma {:induction false} ChunksSplitBack(chunks: seq<string>)
    requires chunks != []
    requires forall k :: 0 <= k < |chunks| ==> IsChunk(chunks[k])
    ensures Split(Join(chunks)) == chunks
  {
    forall k | 0 <= k < |chunks|
      ensures '\n' !in chunks[k]
    {
      assert IsChunk(chunks[k]);
    }
    SplitJoin(chunks);
  }

  /** A long line that holds some text but also line terminators is wrapped
      into matches only: the terminators other than '\n' (a CRLF line's '\r')
      are silently lost. */
  lemma {:induction false} LongLineDropsTerminators(line: string)
    requires |line| > MaxLineLength && '\n' !in line && DropTerminators(line) != []
    ensures var pieces := Split(WrapLine(line));
      && (forall k :: 0 <= k < |pieces| ==> IsChunk(pieces[k]))
      && Concat(pieces) == DropTerminators(line)
  {
    MatchAllEmptyIff(line);
    MatchAllKeepsNonTerminators(line);
    ChunksSplitBack(MatchAll(line));
  }

  /** The carriage return at the end of a long CRLF line does not survive
      wrapping: the wrapped text is the line's body alone. */
  lemma {:induction false} CrlfLineLosesCarriageReturn(body: string)
    requires |body| >= MaxLineLength && NoTerminators(body)
    ensures '\r' !in WrapLine(body + "\r")
    ensures Concat(Split(WrapLine(body + "\r"))) == body
    ensures MatchAll(body + "\r") == MatchAll(body)
  {
    MatchAllAtTerminator(body, '\r', []);
    assert body + ['\r'] + [] == body + "\r";
    var line := body + "\r";
    DropTerminatorsAppend(body, "\r");
    DropTerminatorsNone(body);
    assert DropTerminators("\r") == [];
    LongLineDropsTerminators(line);
    var pieces := Split(WrapLine(line));
    JoinSplit(WrapLine(line));
    NoTerminatorsJoin(pieces);
  }

  /** Pieces free of terminators join into a string whose only terminators are
      the '\n' separators. */
  lemma {:induction false} NoTerminatorsJoin(pieces: seq<string>)
    requires forall k :: 0 <= k < |pieces| ==> IsChunk(pieces[k])
    ensures '\r' !in Join(pieces)
  {
    if |pieces| > 1 {
      NoTerminatorsJoin(pieces[1..]);
      assert IsChunk(pieces[0]);
      assert Join(pieces) == pieces[0] + "\n" + Join(pieces[1..]);
    } else if |pieces| == 1 {
      assert IsChunk(pieces[0]);
    }
  }

  /** The lines one input line turns into: at most 80 characters each, unless
      the line was kept whole because it is made only of terminators. */
  lemma {:induction false} WrapLinePieces(line: string)
    requires '\n' !in line
    ensures forall k :: 0 <= k < |Split(WrapLine(line))| ==>
      FitsOrKeptWhole(Split(WrapLine(line))[k], [line])
  {
    if |line| > MaxLineLength && MatchAll(line) != [] {
      ChunksSplitBack(MatchAll(line));
    } else {
      SplitSingle(line);
      if |line| > MaxLineLength {
        MatchAllEmptyIff(line);
      }
    }
  }

  /** An output line fits in 80 characters, or is one of the input lines and
      consists only of line terminators. */
  predicate FitsOrKeptWhole(line: string, input: seq<string>)
  {
    |line| <= MaxLineLength || (line in input && DropTerminators(line) == [])
  }

  lemma {:induction false} WrappedLinesBound(lines: seq<string>)
    requires |lines| >= 1
    requires forall k :: 0 <= k < |lines| ==> '\n' !in lines[k]
    ensures forall k :: 0 <= k < |Split(Join(WrapAll(lines)))| ==>
      FitsOrKeptWhole(Split(Join(WrapAll(lines)))[k], lines)
  {
    WrapLinePieces(lines[0]);
    var first := Split(WrapLine(lines[0]));
    if |lines| == 1 {
      assert Join(WrapAll(lines)) == WrapLine(lines[0]);
    } else {
      WrappedLinesBound(lines[1..]);
      var later := Split(Join(WrapAll(lines[1..])));
      assert WrapAll(lines)[1..] == WrapAll(lines[1..]);
      assert Join(WrapAll(lines)) == WrapLine(lines[0]) + "\n" + Join(WrapAll(lines[1..]));
      SplitAround(WrapLine(lines[0]), Join(WrapAll(lines[1..])));
      assert Split(Join(WrapAll(lines))) == first + later;
      FitsOrKeptWholeAppend(first, later, lines);
    }
  }

  /** The bound for the first line's pieces and for the later lines' pieces
      gives the bound for all of them. */
  lemma {:induction false} FitsOrKeptWholeAppend(first: seq<string>, later: seq<string>, lines: seq<string>)
    requires |lines| >= 1
    requires forall k :: 0 <= k < |first| ==> FitsOrKeptWhole(first[k], [lines[0]])
    requires forall k :: 0 <= k < |later| ==> FitsOrKeptWhole(later[k], lines[1..])
    ensures forall k :: 0 <= k < |first + later| ==> FitsOrKeptWhole((first + later)[k], lines)
  {
    forall k | 0 <= k < |first + later|
      ensures FitsOrKeptWhole((first + later)[k], lines)
    {
      if k < |first| {
        assert FitsOrKeptWhole(first[k], [lines[0]]);
      } else {
        var x := later[k - |first|];
        assert FitsOrKeptWhole(x, lines[1..]);
        if x in lines[1..] {
          var j :| 0 <= j < |lines[1..]| && lines[1..][j] == x;
          assert lines[j + 1] == x;
        }
      }
    }
  }

  /** Every line of the output fits in 80 characters, except an input line
      longer than 80 made only of '\r', U+2028 and U+2029: for it `match`
      returns `null`, and it is kept as it was. */
  lemma {:induction false} OutputLineBound(code: string)
    ensures forall k :: 0 <= k < |Split(FormatCodeForMarkdown(code))| ==>
      FitsOrKeptWhole(Split(FormatCodeForMarkdown(code))[k], Split(code))
  {
    var out := Split(FormatCodeForMarkdown(code));
    var wrapped := Split(Join(WrapAll(Split(code))));
    assert out == wrapped;
    SplitPiecesHaveNoNewline(code);
    WrappedLinesBound(Split(code));
    forall k | 0 <= k < |out|
      ensures FitsOrKeptWhole(out[k], Split(code))
    {
      assert FitsOrKeptWhole(wrapped[k], Split(code));
    }
  }

  /** The only line terminators in `s` are '\n' characters. */
  predicate OnlyNewlines(s: string)
  {
    forall i :: 0 <= i < |s| ==> s[i] == '\n' || !IsLineTerminator(s[i])
  }

  /** The lines of a snippet whose only terminators are '\n' hold no terminator. */
  lemma {:induction false} SplitOnlyNewlines(s: string)
    requires OnlyNewlines(s)
    ensures forall k :: 0 <= k < |Split(s)| ==> NoTerminators(Split(s)[k])
  {
    if s != [] {
      SplitOnlyNewlines(s[1..]);
    }
  }

  /** For a snippet whose only terminators are '\n', every output line fits
      in 80 characters. */
  lemma {:induction false} OutputLineBoundPlain(code: string)
    requires OnlyNewlines(code)
    ensures forall line :: line in Split(FormatCodeForMarkdown(code)) ==> |line| <= MaxLineLength
  {
    OutputLineBound(code);
    SplitOnlyNewlines(code);
    var out := Split(FormatCodeForMarkdown(code));
    forall k | 0 <= k < |out| ensures |out[k]| <= MaxLineLength {
      assert FitsOrKeptWhole(out[k], Split(code));
      if out[k] in Split(code) {
        var j :| 0 <= j < |Split(code)| && Split(code)[j] == out[k];
        assert NoTerminators(Split(code)[j]);
        DropTerminatorsNone(out[k]);
      }
    }
  }
}
