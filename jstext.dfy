// The few pieces of JavaScript string semantics that the note command relies
// on: what counts as a line terminator for `.` and for `^` in a multiline
// regular expression, `String.prototype.split('\n')`, `Array.prototype.join('\n')`
// and the decimal rendering of a number inside a template literal.
// A JavaScript string is a sequence of UTF-16 code units; one `char` here
// stands for one code unit.
module JsText {

  /** The line terminators of ECMAScript regular expressions: `.` never
      matches them, and `^` under the `m` flag matches right after them. */
  predicate IsLineTerminator(c: char)
  {
    c == '\n' || c == '\r' || c == '\U{2028}' || c == '\U{2029}'
  }

  /** No character of `s` is a line terminator. */
  predicate NoTerminators(s: string)
  {
    forall i :: 0 <= i < |s| ==> !IsLineTerminator(s[i])
  }

  /** `s.split('\n')`: the pieces between the '\n' characters. JavaScript
      returns `[""]` for the empty string, so there is always one piece. */
  function Split(s: string): (pieces: seq<string>)
    ensures |pieces| >= 1
  {
    if s == [] then [""] else Prepend(s[0], Split(s[1..]))
  }

  /** The pieces of `[c] + t`, given the pieces of `t`: a '\n' opens a new
      empty piece, any other character joins the first piece. */
  function Prepend(c: char, pieces: seq<string>): (r: seq<string>)
    requires |pieces| >= 1
    ensures |r| >= 1
  {
    if c == '\n' then [""] + pieces else [[c] + pieces[0]] + pieces[1..]
  }

  /** `pieces.join('\n')`; the empty array joins to the empty string. The
      result starts with the first piece and holds every character of every
      piece plus one separator between each two pieces. */
  function Join(pieces: seq<string>): (s: string)
    ensures |pieces| >= 1 ==> pieces[0] <= s && |s| == |Concat(pieces)| + |pieces| - 1
  {
    if |pieces| == 0 then ""
    else if |pieces| == 1 then pieces[0]
    else pieces[0] + "\n" + Join(pieces[1..])
  }

  /** The pieces glued together with nothing in between. */
  function Concat(pieces: seq<string>): string
  {
    if pieces == [] then "" else pieces[0] + Concat(pieces[1..])
  }

  /** Splitting on '\n' and joining with '\n' gives back the original string. */
  lemma {:induction false} JoinSplit(s: string)
    ensures Join(Split(s)) == s
  {
    if s != [] {
      JoinSplit(s[1..]);
      JoinPrepend(s[0], Split(s[1..]));
      assert [s[0]] + s[1..] == s;
    }
  }

  /** Joining after one more character is that character before the join. */
  lemma {:induction false} JoinPrepend(c: char, p: seq<string>)
    requires |p| >= 1
    ensures Join(Prepend(c, p)) == [c] + Join(p)
  {
    var q := Prepend(c, p);
    if c == '\n' {
      assert q == [""] + p && |q| >= 2 && q[0] == "" && q[1..] == p;
      assert Join(q) == "" + "\n" + Join(p);
    } else if |p| == 1 {
      assert q == [[c] + p[0]];
    } else {
      assert q[0] == [c] + p[0] && q[1..] == p[1..] && |q| >= 2;
      var tail := "\n" + Join(p[1..]);
      assert Join(p) == p[0] + tail;
      assert Join(q) == ([c] + p[0]) + tail;
    }
  }

  /** A '\n' in the middle splits into the pieces of either side. */
  lemma {:induction false} SplitAround(a: string, b: string)
    ensures Split(a + "\n" + b) == Split(a) + Split(b)
  {
    var s := a + "\n" + b;
    if a == [] {
      assert s[1..] == b;
    } else {
      assert s[0] == a[0] && s[1..] == a[1..] + "\n" + b;
      SplitAround(a[1..], b);
      PrependAppend(a[0], Split(a[1..]), Split(b));
    }
  }

  lemma {:induction false} PrependAppend(c: char, p: seq<string>, q: seq<string>)
    requires |p| >= 1
    ensures Prepend(c, p + q) == Prepend(c, p) + q
  {
    if c != '\n' {
      assert (p + q)[1..] == p[1..] + q;
    }
  }

  /** A string without '\n' is a single piece. */
  lemma {:induction false} SplitSingle(s: string)
    requires '\n' !in s
    ensures Split(s) == [s]
  {
    if s != [] {
      assert '\n' !in s[1..];
      SplitSingle(s[1..]);
      assert [s[0]] + s[1..] == s;
    }
  }

  /** No piece of a split contains '\n'. */
  lemma {:induction false} SplitPiecesHaveNoNewline(s: string)
    ensures forall k :: 0 <= k < |Split(s)| ==> '\n' !in Split(s)[k]
  {
    if s != [] {
      SplitPiecesHaveNoNewline(s[1..]);
      var rest := Split(s[1..]);
      if s[0] != '\n' {
        assert '\n' !in [s[0]] + rest[0];
      }
    }
  }

  /** Joining pieces that hold no '\n' and splitting again gives the pieces back. */
  lemma {:induction false} SplitJoin(pieces: seq<string>)
    requires |pieces| >= 1
    requires forall k :: 0 <= k < |pieces| ==> '\n' !in pieces[k]
    ensures Split(Join(pieces)) == pieces
  {
    SplitSingle(pieces[0]);
    if |pieces| > 1 {
      SplitJoin(pieces[1..]);
      SplitAround(pieces[0], Join(pieces[1..]));
    }
  }

  /** The decimal digit `d` as a character. */
  function DigitChar(d: nat): (c: char)
    requires d < 10
    ensures '0' <= c <= '9' && c as int - '0' as int == d
  {
    ('0' as int + d) as char
  }

  predicate IsDigits(s: string)
  {
    forall i :: 0 <= i < |s| ==> '0' <= s[i] <= '9'
  }

  /** `${n}` for a non-negative integer: its decimal digits, most significant
      first, with no leading zero. */
  function NatToString(n: nat): (s: string)
    ensures |s| >= 1 && IsDigits(s)
    ensures s[0] == '0' ==> n == 0
  {
    if n < 10 then [DigitChar(n)] else NatToString(n / 10) + [DigitChar(n % 10)]
  }

  /** The value of a string of decimal digits. */
  function DecimalValue(s: string): nat
    requires IsDigits(s)
  {
    if s == [] then 0
    else DecimalValue(s[..|s| - 1]) * 10 + (s[|s| - 1] as int - '0' as int)
  }

  /** Reading the rendered digits back gives the number. */
  lemma {:induction false} DecimalValueOfNatToString(n: nat)
    ensures DecimalValue(NatToString(n)) == n
  {
    if n >= 10 {
      DecimalValueOfNatToString(n / 10);
      var s := NatToString(n);
      assert s[..|s| - 1] == NatToString(n / 10);
    }
  }

  /** Distinct numbers render as distinct strings. */
  lemma {:induction false} NatToStringInjective(m: nat, n: nat)
    requires m != n
    ensures NatToString(m) != NatToString(n)
  {
    DecimalValueOfNatToString(m);
    DecimalValueOfNatToString(n);
  }
}
