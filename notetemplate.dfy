// The ordinal of a new note and the Markdown block written for it. The
// ordinal is one more than the number of matches of the global, multiline
// regular expression `/^#/gm` in the notes file: every '#' that starts a line
// is counted, so the `## Code` and `## Explanation` sub-headings of earlier
// notes count as well as their `# N. title` headings.
module NoteTemplate {
  import opened JsText

  /** `^#` under the `m` flag matches at index `i`: the character there is
      '#' and it starts the text or follows a line terminator. */
  predicate IsHeadingMark(s: string, i: nat)
    requires i < |s|
  {
    s[i] == '#' && (i == 0 || IsLineTerminator(s[i - 1]))
  }

  /** Number of matches of `/^#/gm` in `s`, counted from the end. */
  function CountMarks(s: string): (n: nat)
    ensures n <= |s|
  {
    if s == [] then 0
    else CountMarks(s[..|s| - 1]) + (if IsHeadingMark(s, |s| - 1) then 1 else 0)
  }

  /** Reference definition: the set of indices at which `^#` matches. */
  ghost function MarkPositions(s: string): set<nat>
  {
    set i: nat | i < |s| && IsHeadingMark(s, i)
  }

  /** The recursive count is the number of matching indices. */
  lemma {:induction false} CountMarksIsMatchCount(s: string)
    ensures CountMarks(s) == |MarkPositions(s)|
  {
    if s != [] {
      var init := s[..|s| - 1];
      CountMarksIsMatchCount(init);
      var last := |s| - 1;
      forall i: nat | i < last
        ensures IsHeadingMark(s, i) == IsHeadingMark(init, i)
      {
      }
      if IsHeadingMark(s, last) {
        assert MarkPositions(s) == MarkPositions(init) + {last};
      } else {
        assert MarkPositions(s) == MarkPositions(init);
      }
    }
  }

  /** `b` starts with a '#' that `a` leaves in the middle of a line, so the
      '#' is a match in `b` alone but not in `a + b`. */
  predicate Glued(a: string, b: string)
  {
    |a| > 0 && !IsLineTerminator(a[|a| - 1]) && |b| > 0 && b[0] == '#'
  }

  /** How the count of a concatenation follows from the counts of its parts. */
  lemma {:induction false} CountMarksAppend(a: string, b: string)
    ensures CountMarks(a + b) == CountMarks(a) + CountMarks(b) - (if Glued(a, b) then 1 else 0)
    decreases |b|
  {
    if b == [] {
      assert a + b == a;
    } else {
      var b' := b[..|b| - 1];
      assert (a + b)[..|a + b| - 1] == a + b';
      if |b| == 1 {
        assert a + b' == a;
        assert b' == [];
      } else {
        CountMarksAppend(a, b');
        assert Glued(a, b') == Glued(a, b);
        assert (a + b)[|a + b| - 2] == b[|b| - 2];
      }
    }
  }

  /** A text that starts with '#' has a match at index 0. */
  lemma {:induction false} LeadingHashCounts(s: string)
    requires |s| > 0 && s[0] == '#'
    ensures CountMarks(s) >= 1
  {
    if |s| > 1 {
      LeadingHashCounts(s[..|s| - 1]);
    }
  }

  /** A text without '#' has no match. */
  lemma {:induction false} CountMarksNoHash(s: string)
    requires '#' !in s
    ensures CountMarks(s) == 0
  {
    if s != [] {
      assert s[..|s| - 1] + [s[|s| - 1]] == s;
      CountMarksNoHash(s[..|s| - 1]);
    }
  }

  /** `(fileContent.match(/^#/gm) || []).length + 1`: at least 1, and 1 for an
      empty or absent file. */
  function Ordinal(content: string): (n: nat)
    ensures n >= 1
    ensures content == "" ==> n == 1
    ensures n == |MarkPositions(content)| + 1
  {
    CountMarksIsMatchCount(content);
    CountMarks(content) + 1
  }

  // The fixed parts of the note template, between the interpolated values.
  const CodeHeader: string := "\n\n## Code\n\n```javascript\n"
  const ExplanationHeader: string := "\n```\n\n## Explanation\n\n"
  const Trailer: string := "\n\n"

  /** The first line of a note: `# N. ` followed by the title. */
  function Heading(ordinal: nat, title: string): string
  {
    "# " + NatToString(ordinal) + ". " + title
  }

  /** The Markdown block appended for one note. */
  function NoteBlock(ordinal: nat, title: string, code: string, explanation: string): (block: string)
    ensures |block| > 4 && block[..2] == "# " && block[|block| - 2..] == Trailer
  {
    var block := Heading(ordinal, title) + CodeHeader + code + ExplanationHeader + explanation + Trailer;
    assert block[..2] == Heading(ordinal, title)[..2] == "# ";
    block
  }

  /** The block is the template filled in, and its ordinal can be read back
      from the digits after the leading `# `. */
  lemma {:induction false} NoteBlockLayout(ordinal: nat, title: string, code: string, explanation: string)
    ensures var block := NoteBlock(ordinal, title, code, explanation);
      var digits := NatToString(ordinal);
      && block == "# " + digits + ". " + title + "\n\n## Code\n\n```javascript\n" + code
                  + "\n```\n\n## Explanation\n\n" + explanation + "\n\n"
      && block[2..2 + |digits|] == digits
      && block[2 + |digits|..4 + |digits|] == ". "
      && DecimalValue(block[2..2 + |digits|]) == ordinal
  {
    NoteBlockText(ordinal, title, code, explanation);
    NoteBlockDigits(ordinal, title, code, explanation);
    DecimalValueOfNatToString(ordinal);
  }

  lemma {:induction false} NoteBlockText(ordinal: nat, title: string, code: string, explanation: string)
    ensures NoteBlock(ordinal, title, code, explanation) ==
      "# " + NatToString(ordinal) + ". " + title + "\n\n## Code\n\n```javascript\n" + code
      + "\n```\n\n## Explanation\n\n" + explanation + "\n\n"
  {
  }

  /** The digits of the ordinal sit right after `# `, followed by `. `. */
  lemma {:induction false} NoteBlockDigits(ordinal: nat, title: string, code: string, explanation: string)
    ensures var block := NoteBlock(ordinal, title, code, explanation);
      var digits := NatToString(ordinal);
      && |block| >= 4 + |digits|
      && block[2..2 + |digits|] == digits
      && block[2 + |digits|..4 + |digits|] == ". "
  {
    var digits := NatToString(ordinal);
    var h := Heading(ordinal, title);
    HeadingDigits(ordinal, title);
    var rest := BlockAfterHeading(ordinal, title, code, explanation);
    SliceOfPrefix(h, rest, 2, 2 + |digits|);
    SliceOfPrefix(h, rest, 2 + |digits|, 4 + |digits|);
  }

  lemma {:induction false} HeadingDigits(ordinal: nat, title: string)
    ensures var h, digits := Heading(ordinal, title), NatToString(ordinal);
      && |h| >= 4 + |digits|
      && h[2..2 + |digits|] == digits
      && h[2 + |digits|..4 + |digits|] == ". "
  {
    var digits := NatToString(ordinal);
    assert Heading(ordinal, title) == "# " + digits + (". " + title);
    PrefixedDigits(digits, ". " + title);
  }

  /** The block is its heading line followed by the rest of the template. */
  lemma {:induction false} BlockAfterHeading(ordinal: nat, title: string, code: string, explanation: string)
    returns (rest: string)
    ensures NoteBlock(ordinal, title, code, explanation) == Heading(ordinal, title) + rest
  {
    rest := CodeHeader + code + ExplanationHeader + explanation + Trailer;
  }

  lemma {:induction false} SliceOfPrefix(x: string, y: string, i: nat, j: nat)
    requires i <= j <= |x|
    ensures (x + y)[i..j] == x[i..j]
  {
  }

  lemma {:induction false} PrefixedDigits(digits: string, rest: string)
    requires |rest| >= 2 && rest[..2] == ". "
    ensures var s := "# " + digits + rest;
      && |s| >= 4 + |digits|
      && s[2..2 + |digits|] == digits
      && s[2 + |digits|..4 + |digits|] == ". "
  {
    var s := "# " + digits + rest;
    assert s[2..2 + |digits|] == digits;
    assert s[2 + |digits|..4 + |digits|] == rest[..2];
  }

  lemma {:induction false} HeadingMarks(ordinal: nat, title: string)
    ensures CountMarks(Heading(ordinal, title)) ==
            1 + CountMarks(title) - (if |title| > 0 && title[0] == '#' then 1 else 0)
  {
    var head := "# " + NatToString(ordinal) + ". ";
    HeadingPrefixMarks(NatToString(ordinal));
    assert Heading(ordinal, title) == head + title;
    CountMarksAppend(head, title);
  }

  /** `# N. ` holds one match and ends in the middle of a line. */
  lemma {:induction false} HeadingPrefixMarks(digits: string)
    requires IsDigits(digits)
    ensures var head := "# " + digits + ". ";
      CountMarks(head) == 1 && !IsLineTerminator(head[|head| - 1])
  {
    var head := "# " + digits + ". ";
    forall i | 1 <= i < |head| ensures head[i] != '#' {
      if 2 <= i < 2 + |digits| {
        assert head[i] == digits[i - 2];
      }
    }
    SingleLeadingHash(head);
  }

  /** A text whose only '#' is its first character has exactly one match. */
  lemma {:induction false} SingleLeadingHash(s: string)
    requires |s| > 0 && s[0] == '#'
    requires forall i :: 1 <= i < |s| ==> s[i] != '#'
    ensures CountMarks(s) == 1
  {
    if |s| > 1 {
      SingleLeadingHash(s[..|s| - 1]);
    }
  }

  /** Each of the two sub-heading lines holds exactly one match. */
  lemma {:induction false} SubHeaderMarks()
    ensures CountMarks(CodeHeader) == 1 && CountMarks(ExplanationHeader) == 1 && CountMarks(Trailer) == 0
  {
    CodeHeaderMarks();
    ExplanationHeaderMarks();
    CountMarksNoHash(Trailer);
  }

  lemma {:induction false} CodeHeaderMarks()
    ensures CountMarks(CodeHeader) == 1
  {
    var before, after := "\n\n", " Code\n\n```javascript\n";
    assert CodeHeader == before + "##" + after;
    SubHeadingMarks(before, after);
  }

  lemma {:induction false} ExplanationHeaderMarks()
    ensures CountMarks(ExplanationHeader) == 1
  {
    var before, after := "\n```\n\n", " Explanation\n\n";
    assert ExplanationHeader == before + "##" + after;
    SubHeadingMarks(before, after);
  }

  /** A `##` at the start of a line is one match: the second '#' follows the first. */
  lemma {:induction false} SubHeadingMarks(before: string, after: string)
    requires '#' !in before && |before| > 0 && before[|before| - 1] == '\n'
    requires '#' !in after
    ensures CountMarks(before + "##" + after) == 1
  {
    CountMarksNoHash(before);
    CountMarksNoHash(after);
    assert CountMarks("##") == 1 by {
      assert "##"[..1] == "#";
      LeadingHashCounts("#");
    }
    CountMarksAppend(before, "##");
    CountMarksAppend(before + "##", after);
  }

  /** The matches inside a note block: its heading and its two sub-headings,
      plus those contributed by the title, the code and the explanation (a
      title that starts with '#' adds none, since it follows `N. `). */
  lemma {:induction false} NoteBlockMarks(ordinal: nat, title: string, code: string, explanation: string)
    ensures CountMarks(NoteBlock(ordinal, title, code, explanation)) ==
            3 + CountMarks(title) - (if |title| > 0 && title[0] == '#' then 1 else 0)
              + CountMarks(code) + CountMarks(explanation)
  {
    var h := Heading(ordinal, title);
    HeadingMarks(ordinal, title);
    SubHeaderMarks();
    CountMarksAppend(h, CodeHeader);
    CountMarksAppend(h + CodeHeader, code);
    CountMarksAppend(h + CodeHeader + code, ExplanationHeader);
    CountMarksAppend(h + CodeHeader + code + ExplanationHeader, explanation);
    CountMarksAppend(h + CodeHeader + code + ExplanationHeader + explanation, Trailer);
  }

  /** A block holds at least three matches of its own. */
  lemma {:induction false} NoteBlockMarksAtLeastThree(ordinal: nat, title: string, code: string, explanation: string)
    ensures CountMarks(NoteBlock(ordinal, title, code, explanation)) >= 3
  {
    NoteBlockMarks(ordinal, title, code, explanation);
    if |title| > 0 && title[0] == '#' {
      LeadingHashCounts(title);
    }
  }

  /** Appending a block raises the count by at least two, and by at least three
      when the old text is empty or ends with a line terminator; so the next
      ordinal is always larger than the one just used. */
  lemma {:induction false} CountGrowth(prior: string, ordinal: nat, title: string, code: string, explanation: string)
    ensures var grown := CountMarks(prior + NoteBlock(ordinal, title, code, explanation));
      && grown >= CountMarks(prior) + 2
      && (prior == [] || IsLineTerminator(prior[|prior| - 1]) ==> grown >= CountMarks(prior) + 3)
  {
    var block := NoteBlock(ordinal, title, code, explanation);
    NoteBlockMarksAtLeastThree(ordinal, title, code, explanation);
    CountMarksAppend(prior, block);
  }
}
