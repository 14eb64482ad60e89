# SnippetNote: the "add note" command, modelled in Dafny

SnippetNote is an editor extension with one command, `snippetNote.addNote`.
It takes the selected text and asks the user for a title. It then appends a
numbered Markdown note to `SnippetNotes.md` in the first workspace folder. The
note holds the title, the snippet in a fenced `javascript` block and an
explanation. The snippet's long lines are hard-wrapped at 80 characters first.
The explanation is a fixed placeholder string.

The model has four modules, one file each:

- `JsText` (`jstext.dfy`) covers the JavaScript string behaviour the command
  relies on: the regular-expression line terminators (`\n`, `\r`, U+2028,
  U+2029), `split('\n')`, `join('\n')`, and the decimal text of a number in a
  template literal. It also gives the inverse of each (join after split,
  split after join, reading the digits back).
- `Formatter` (`formatter.dfy`) covers `formatCodeForMarkdown`.
  `/(.{1,80})/g` is written as a recursive function `MatchAll`. It skips line
  terminators, which `.` cannot match, and greedily takes runs of at most 80
  other characters. An empty result stands for `null`.
- `NoteTemplate` (`notetemplate.dfy`) covers the ordinal, which is one plus the
  number of matches of `/^#/gm`. It also covers the Markdown block built from
  the template literal.
- `SnippetNote` (`snippetnote.dfy`) covers the command handler. It is a class
  `Workspace` that holds the file system as a `map<string, string>`, plus a
  ghost log of its writes. Its method `AddNote` returns early in the abort cases
  and otherwise writes the file once. The method is proved against the pure
  function `Handle`, which states the handler's decisions. Lemmas about
  `Handle` give the properties of one run and of several runs in a row.

The ordinal is modelled as the code computes it. One would expect the Nth
top-level heading to get ordinal N. The code instead counts every `#` that
starts a line: `^#` with the `m` flag also matches the `## Code` and
`## Explanation` sub-headings of earlier notes, and any line of an earlier
snippet or explanation that starts with `#`. A `#` that starts a title does not
count, since it follows `N. ` (`NoteTemplate.HeadingMarks`). So when the first
note's title and its snippet hold no `#`, the second note added to a fresh file
is numbered 4, whatever the snippet's length or number of lines
(`SnippetNote.FreshFileNumbering`). When the snippet is a line such as
`#include <x>`, the first block holds four matches and the second note is
numbered 5. `NoteTemplate.NoteBlockMarks` gives the exact count in terms of the
title, the formatted snippet and the explanation. The formatted snippet can
hold more matches than the snippet itself: the cut at 80 can put a `#` at the
start of a line. A `#` right after 80 other characters is no match in the
snippet, but one in its formatted form (`SnippetNote.WrapMakesHeadingMark`).

Hard wrapping would be expected to cut every chunk at 80 characters except the
last. The even cut is proved for a line with no line terminators; a terminator
inside the line restarts the cut. `.` does not match `\r`, U+2028 or U+2029.
So on a long line these characters are silently dropped, and the runs between
them are chunked separately (`Formatter.MatchAllAtTerminator`). A terminator at
the very end of a line, such as the `\r` of a CRLF line, leaves the cut of the
rest as it was. The model keeps this behaviour (`Formatter.LongLineDropsTerminators`,
`Formatter.CrlfLineLosesCarriageReturn`). A line longer than 80 made only of such characters
gets `null` from `match`, so it is kept whole. That is the one case in which an
output line can be longer than 80 (`Formatter.OutputLineBound`).

An empty folder list needs its own case. `vscode.workspace.workspaceFolders` is
`undefined` when no workspace is open, and the handler then does nothing. An
empty array is truthy, though, so the handler goes on and
`workspaceFolders[0].uri` throws. The model returns `NoFirstFolder` and writes
nothing in that case.

## Model

| member | source | states |
|---|---|---|
| `JsText.Split` | src/extension.ts:57 | `split('\n')` always yields at least one piece (`[""]` for the empty string) |
| `JsText.SplitPiecesHaveNoNewline` | src/extension.ts:57 | no piece of `split('\n')` contains `'\n'` |
| `JsText.Join` | src/extension.ts:62-66 | `join('\n')`: for at least one piece, the result starts with the first piece and its length is the total length of the pieces plus one separator between each two; `JsText.JoinSplit` and `JsText.SplitJoin` make it the inverse of `Split` |
| `JsText.JoinSplit` | src/extension.ts:57-66 | joining the pieces of a split with `'\n'` gives back the original string exactly |
| `JsText.SplitAround` | src/extension.ts:57-66 | splitting `a + "\n" + b` gives the pieces of `a` followed by the pieces of `b`, which is how the lines of the formatted output come from the wrapped input lines |
| `JsText.SplitJoin` | src/extension.ts:62 | joining pieces free of `'\n'` and splitting again gives the same pieces, so each match of the wrapping regex becomes exactly one output line |
| `JsText.NatToString` | src/extension.ts:37 | `${snippetCount}` is a non-empty string of decimal digits with no leading zero |
| `JsText.DecimalValueOfNatToString` | src/extension.ts:37 | reading the rendered digits back as a decimal number gives the ordinal |
| `JsText.NatToStringInjective` | src/extension.ts:37 | different ordinals are rendered as different strings |
| `Formatter.LeadingRun` | src/extension.ts:60 | `.` matches exactly the leading run of non-terminator characters: that many characters contain no terminator, and the next one (if any) is a terminator |
| `Formatter.MatchAll` | src/extension.ts:60-61 | every match of `/(.{1,80})/g` has 1 to 80 characters and contains no line terminator |
| `Formatter.MatchAllAtTerminator` | src/extension.ts:60-61 | a line terminator ends a match: the matches of `a + t + b`, for a terminator-free `a` and a terminator `t`, are those of `a` followed by those of `b` |
| `Formatter.MatchAllKeepsNonTerminators` | src/extension.ts:60-61 | the matches, put together, are the line with its line terminators removed, in order |
| `Formatter.MatchAllEmptyIff` | src/extension.ts:61-62 | `match` returns `null` (no matches) if and only if every character of the line is a line terminator |
| `Formatter.MatchAllCutsEvenly` | src/extension.ts:60-61 | on a terminator-free line of length L the matches are ceil(L/80) pieces, all of length 80 but the last, and together they give back the line |
| `Formatter.WrapLine` | src/extension.ts:58-65 | the `map` callback keeps a line of at most 80 characters unchanged, and in every case keeps the line's characters other than line terminators, in order |
| `Formatter.WrapAll` | src/extension.ts:58 | `lines.map(...)` has one entry per input line, the wrapped form of that line |
| `Formatter.FormatCodeForMarkdown` | src/extension.ts:54-67 | when every `'\n'`-separated line has at most 80 characters, the formatted code equals the input; in every case it differs from the input only in line terminators. `Formatter.FormatCons` and `Formatter.FormatSingleLine` say where each line's wrap goes, and `Formatter.OutputLineBound` bounds the output lines |
| `Formatter.ShortLinesKept` | src/extension.ts:58-65 | when every line has at most 80 characters, the `map` returns the lines unchanged |
| `Formatter.FormatCons` | src/extension.ts:57-66 | the formatted form of `a + "\n" + b`, for a line `a`, is the wrap of `a`, then `'\n'`, then the formatted form of `b`: each line is replaced in place by its wrap, and a short line passes through unchanged |
| `Formatter.FormatConsLine` | src/extension.ts:57-66 | the output lines of `a + "\n" + b` are the lines of `a`'s wrap followed by the output lines of `b` |
| `Formatter.FormatSingleLine` | src/extension.ts:57-66 | a snippet with no `'\n'` is formatted as its one line's wrap |
| `Formatter.HashKept` | src/extension.ts:60-62 | `#` is not a line terminator: dropping terminators keeps a `#` exactly when the text has one |
| `Formatter.LongLineWrapping` | src/extension.ts:58-63 | a terminator-free line longer than 80 becomes ceil(L/80) output lines, each of 1 to 80 characters, all but the last exactly 80, and their concatenation is the original line |
| `Formatter.LongLineDropsTerminators` | src/extension.ts:59-62 | a long line that has some text is replaced by its matches, and these hold exactly the line's non-terminator characters: `\r`, U+2028 and U+2029 are lost |
| `Formatter.CrlfLineLosesCarriageReturn` | src/extension.ts:57-62 | a long CRLF line (its `\r` left at the end by the split on `'\n'`) comes out without the `\r`, as its body alone; the trailing `\r` does not move the cut: the matches are exactly those of the body |
| `Formatter.WrapLinePieces` | src/extension.ts:58-64 | each line produced from one input line has at most 80 characters, unless it is the input line itself and consists only of line terminators |
| `Formatter.WrappedLinesBound` | src/extension.ts:58-66 | after mapping and joining, every output line has at most 80 characters or is an input line made only of line terminators |
| `Formatter.OutputLineBound` | src/extension.ts:54-67 | every `'\n'`-separated line of `formatCodeForMarkdown(code)` has at most 80 characters, except an input line made only of `\r`/U+2028/U+2029 that was kept whole |
| `Formatter.SplitOnlyNewlines` | src/extension.ts:57 | if `'\n'` is the only line terminator in the code, no line of its split contains a terminator |
| `Formatter.OutputLineBoundPlain` | src/extension.ts:54-67 | for code whose only line terminator is `'\n'`, every output line has at most 80 characters |
| `NoteTemplate.CountMarks` | src/extension.ts:35 | the number of `/^#/gm` matches, counted back to front, is at most the text's length; `NoteTemplate.CountMarksIsMatchCount` ties it to the set of match positions |
| `NoteTemplate.CountMarksIsMatchCount` | src/extension.ts:35 | the recursive count of `/^#/gm` matches equals the number of indices holding a `#` at offset 0 or right after a line terminator |
| `NoteTemplate.CountMarksAppend` | src/extension.ts:35 | the count for `a + b` is the sum of the counts, minus one exactly when `b` starts with `#` and `a` is non-empty and does not end in a line terminator |
| `NoteTemplate.CountMarksNoHash` | src/extension.ts:35 | a text without `#` has no match |
| `NoteTemplate.LeadingHashCounts` | src/extension.ts:35 | a text starting with `#` has at least one match |
| `NoteTemplate.Ordinal` | src/extension.ts:35 | `snippetCount` is 1 plus the number of line-start `#` indices, so it is at least 1, and it is 1 for empty or absent content |
| `NoteTemplate.NoteBlock` | src/extension.ts:37 | the note block starts with `"# "` and ends with `"\n\n"` |
| `NoteTemplate.NoteBlockLayout` | src/extension.ts:37 | the block is exactly the template with ordinal, title, formatted code and explanation filled in, and the digits after `"# "` read back as the ordinal |
| `NoteTemplate.HeadingMarks` | src/extension.ts:37 | the `# N. title` line adds one match plus the title's own, except a leading `#` of the title, which follows `". "` |
| `NoteTemplate.SubHeaderMarks` | src/extension.ts:37 | the `## Code` and `## Explanation` parts of the template hold one match each, and the trailing `"\n\n"` holds none |
| `NoteTemplate.NoteBlockMarks` | src/extension.ts:35-37 | the matches in a block are exactly 3 plus those of the title (without a leading `#`), the code and the explanation |
| `NoteTemplate.NoteBlockMarksAtLeastThree` | src/extension.ts:35-37 | every block holds at least three matches |
| `NoteTemplate.CountGrowth` | src/extension.ts:35-39 | appending a block raises the count by at least 2, and by at least 3 when the old content is empty or ends in a line terminator |
| `SnippetNote.GetCopilotExplanation` | src/extension.ts:48-52 | the placeholder explanation is not empty and holds no match of `/^#/gm`, so it never changes a later ordinal |
| `SnippetNote.JoinPath` | src/extension.ts:28 | the notes path is the root, one `/`, then the file name, with the length of the three |
| `SnippetNote.ExistingContent` | src/extension.ts:29-33 | the content read is the file's when it exists; otherwise it is `''`, whose ordinal is 1 |
| `SnippetNote.WithNote` | src/extension.ts:35-39 | the new file content keeps the old content as a prefix, the new block starts right after it with `# `, and it holds at least two more `/^#/gm` matches than the old content |
| `SnippetNote.Handle` | src/extension.ts:7-39 | a write happens exactly when the outcome is `Added`, and exactly when there is an editor, a non-empty title and a non-empty folder list: no write without an editor, with a cancelled or empty title, or without a workspace folder |
| `SnippetNote.Workspace.AddNote` | src/extension.ts:6-42 | the handler returns the outcome of `Handle`, leaves the files as they were or applies its one write, and logs exactly that write |
| `SnippetNote.SuccessfulAdd` | src/extension.ts:25-39 | on success the file `root/SnippetNotes.md` becomes its old content (or `''`) followed by the block numbered `Ordinal(old)`; the old content is a prefix, the block starts with `# `, and every other file is unchanged |
| `SnippetNote.SequentialAdds` | src/extension.ts:29-39 | two successful runs in a row write the same file; the first run's content is a prefix of the second, the second adds its own block, and its ordinal is at least 2 larger |
| `SnippetNote.AddingTwiceIsNotIdempotent` | src/extension.ts:35-39 | adding the same note twice appends two different blocks |
| `SnippetNote.DistinctOrdinalsDistinctBlocks` | src/extension.ts:37 | blocks that differ only in their ordinal are different strings |
| `SnippetNote.FreshFileNumbering` | src/extension.ts:29-39 | with no notes file and a snippet and title free of `#`, of any length and number of lines, the first note is numbered 1 and is the file's whole content (with the formatted snippet), and the second note is numbered 4 |
| `SnippetNote.WrapMakesHeadingMark` | src/extension.ts:35-62 | a `#` right after 80 other characters is no `/^#/gm` match in the snippet, but after the cut at 80 it starts a line of the formatted code and counts once |
| `SnippetNote.FirstNoteScenario` | src/extension.ts:25-39 | title `Loop` and code `for(i=0;i<10;i++){}` in an empty workspace `/ws`: the file `/ws/SnippetNotes.md` is written with `# 1. Loop`, the code block and the explanation block |

## Left out

- The editor host API (command registration, `activeTextEditor`, `getText`, `showInputBox`, `showInformationMessage`, `context.subscriptions`) is not modelled. The selected text, the input-box value and the folder paths are parameters of `AddNote`. The success message is the `Added` outcome.
- `fs.existsSync`, `readFileSync` and `writeFileSync` are modelled by lookups in and one update of a `map<string, string>`. UTF-8 decoding, I/O errors and changes to the file by others between the read and the write are not modelled.
- `SnippetNote.JoinPath` joins the root and the file name with `/`. It does not model how `path.join` normalises `.`, `..` and repeated separators, or the Windows separator.
- The `await` points are not modelled. The model runs each invocation from start to finish.
- `getCopilotExplanation` is modelled as the constant it returns.
- `deactivate` and `module.exports` are not modelled. They are empty or only wiring.
- A `char` stands for one UTF-16 code unit, which is what `.length` and `.` count. A Dafny `char` is a Unicode scalar value and cannot hold any code unit in U+D800–U+DFFF. So strings holding such a code unit are not covered, and that includes every emoji and every other character above U+FFFF. JavaScript counts such a character as two units, which `.length` and `.` see separately: a line of `a` and 40 emoji is 81 units long and is cut between the two halves of the last emoji, which the model cannot express.
- The other revisions of the extension are not modelled: the target-file picker, the status-bar item and the input form. Neither are their other heading patterns.
