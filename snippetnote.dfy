// The `snippetNote.addNote` command handler: it takes the selected text,
// asks for a title, and appends a numbered note to `SnippetNotes.md` in the
// first workspace folder, reading the file once and writing it back once.
// The editor, the input box and the workspace are inputs here, and the file
// system is a map from paths to contents.
module SnippetNote {
  import opened JsText
  import opened Formatter
  import opened NoteTemplate

  datatype Option<T> = None | Some(value: T)

  /** How an invocation of the command ends. */
  datatype Outcome =
    | NoEditor              // no active text editor: silent return
    | NoTitle               // input box cancelled or left empty: silent return
    | NoWorkspace           // no workspace open: nothing happens
    | NoFirstFolder         // an empty folder list: reading `workspaceFolders[0].uri` throws
    | Added(ordinal: nat)   // the note was written and "Snippet note added!" is shown

  /** One call of `writeFileSync`: the whole new content of one file. */
  datatype FileWrite = FileWrite(path: string, content: string)

  /** What one invocation does: its outcome and the write it performs, if any. */
  datatype Response = Response(outcome: Outcome, write: Option<FileWrite>)

  const NotesFileName: string := "SnippetNotes.md"

  /** The text `getCopilotExplanation` returns for every snippet. */
  const SimulatedExplanation: string := "This is a simulated explanation from Copilot."

  /** `getCopilotExplanation`: a placeholder that ignores the code. It is
      never empty and holds no `#`, so it adds no match of `/^#/gm`. */
  function GetCopilotExplanation(code: string): (explanation: string)
    ensures |explanation| > 0 && CountMarks(explanation) == 0
  {
    SimulatedExplanationHasNoHash();
    SimulatedExplanation
  }

  /** `path.join(root, name)`, without the normalisation of `.`, `..` and
      repeated separators. */
  function JoinPath(root: string, name: string): (path: string)
    ensures |path| == |root| + 1 + |name|
    ensures root <= path && path[|root|] == '/' && path[|root| + 1..] == name
  {
    root + "/" + name
  }

  /** The notes file's content, or `''` when it does not exist. */
  function ExistingContent(files: map<string, string>, path: string): (content: string)
    ensures path in files ==> content == files[path]
    ensures path !in files ==> content == "" && Ordinal(content) == 1
  {
    if path in files then files[path] else ""
  }

  /** `fileContent + noteContent`: the file after one more note. The old
      content is kept as a prefix, the new block starts right after it with
      `# `, and the file holds at least two more matches of `/^#/gm`, so the
      next ordinal is larger. */
  function WithNote(prior: string, title: string, code: string): (content: string)
    ensures |content| > |prior| + 2 && prior <= content && content[|prior|..|prior| + 2] == "# "
    ensures CountMarks(content) >= CountMarks(prior) + 2
  {
    var block := NoteBlock(Ordinal(prior), title, FormatCodeForMarkdown(code), GetCopilotExplanation(code));
    CountGrowth(prior, Ordinal(prior), title, FormatCodeForMarkdown(code), GetCopilotExplanation(code));
    AppendAtSeam(prior, block);
    prior + block
  }

  /** The decisions of the handler, given the selected text (`None` without an
      active editor), the value of the input box (`None` when cancelled) and
      the workspace folders' paths (`None` when no workspace is open). */
  function Handle(files: map<string, string>, selection: Option<string>, title: Option<string>,
                  folders: Option<seq<string>>): (r: Response)
    ensures r.write.Some? <==> r.outcome.Added?
    ensures r.write.Some? <==>
      selection.Some? && title.Some? && title.value != "" && folders.Some? && folders.value != []
  {
    if selection.None? then Response(NoEditor, None)
    else if title.None? || title.value == "" then Response(NoTitle, None)
    else if folders.None? then Response(NoWorkspace, None)
    else if folders.value == [] then Response(NoFirstFolder, None)
    else
      var path := JoinPath(folders.value[0], NotesFileName);
      var prior := ExistingContent(files, path);
      Response(Added(Ordinal(prior)), Some(FileWrite(path, WithNote(prior, title.value, selection.value))))
  }

  /** The file store after a response's write, if it has one. */
  function AfterWrite(files: map<string, string>, r: Response): map<string, string>
  {
    if r.write.Some? then files[r.write.value.path := r.write.value.content] else files
  }

  /** The workspace as the command sees it: the files on disk, and a record
      of every write the command has made. */
  class Workspace {
    var files: map<string, string>
    ghost var writeLog: seq<FileWrite>

    constructor (files: map<string, string>)
      ensures this.files == files && writeLog == []
    {
      this.files := files;
      writeLog := [];
    }

    /** The handler registered for `snippetNote.addNote`. */
    method AddNote(selection: Option<string>, title: Option<string>, folders: Option<seq<string>>)
      returns (outcome: Outcome)
      modifies this
      ensures var r := Handle(old(files), selection, title, folders);
        && outcome == r.outcome
        && files == AfterWrite(old(files), r)
        && writeLog == old(writeLog) + (if r.write.Some? then [r.write.value] else [])
    {
      if selection.None? {
        return NoEditor;
      }
      var text := selection.value;
      var explanation := GetCopilotExplanation(text);
      if title.None? || title.value == "" {
        return NoTitle;
      }
      if folders.None? {
        return NoWorkspace;
      }
      if folders.value == [] {
        return NoFirstFolder;
      }
      var rootPath := folders.value[0];
      var filePath := JoinPath(rootPath, NotesFileName);
      var fileContent := "";
      if filePath in files {
        fileContent := files[filePath];
      }
      var snippetCount := Ordinal(fileContent);
      var formattedCode := FormatCodeForMarkdown(text);
      var noteContent := NoteBlock(snippetCount, title.value, formattedCode, explanation);
      files := files[filePath := fileContent + noteContent];
      writeLog := writeLog + [FileWrite(filePath, fileContent + noteContent)];
      outcome := Added(snippetCount);
    }
  }

  /** On success the notes file in the first folder gets the old content (or
      nothing) followed by the note block, whose heading carries the ordinal;
      the old content is kept as a prefix and no other file changes. */
  lemma {:induction false} SuccessfulAdd(files: map<string, string>, text: string, title: string, folders: seq<string>)
    requires title != "" && folders != []
    ensures var r := Handle(files, Some(text), Some(title), Some(folders));
      var path := JoinPath(folders[0], NotesFileName);
      var prior := ExistingContent(files, path);
      var after := AfterWrite(files, r);
      && r.outcome == Added(Ordinal(prior))
      && r.write == Some(FileWrite(path, after[path]))
      && after[path] == prior + NoteBlock(Ordinal(prior), title, FormatCodeForMarkdown(text), SimulatedExplanation)
      && prior <= after[path]
      && after[path][|prior|..|prior| + 2] == "# "
      && (forall p :: p in files && p != path ==> p in after && after[p] == files[p])
      && after.Keys == files.Keys + {path}
  {
    var path := JoinPath(folders[0], NotesFileName);
    var prior := ExistingContent(files, path);
    var content := WithNote(prior, title, text);
    WithNoteContent(prior, title, text);
    HandleAdds(files, text, title, folders);
    var r := Handle(files, Some(text), Some(title), Some(folders));
    var after := AfterWrite(files, r);
    assert after == files[path := content];
    UpdateKeepsOthers(files, path, content);
  }

  lemma {:induction false} WithNoteContent(prior: string, title: string, text: string)
    ensures WithNote(prior, title, text) ==
            prior + NoteBlock(Ordinal(prior), title, FormatCodeForMarkdown(text), SimulatedExplanation)
  {
  }

  /** With an editor, a title and a folder, the handler adds the note. */
  lemma {:induction false} HandleAdds(files: map<string, string>, text: string, title: string, folders: seq<string>)
    requires title != "" && folders != []
    ensures var path := JoinPath(folders[0], NotesFileName);
      var prior := ExistingContent(files, path);
      Handle(files, Some(text), Some(title), Some(folders))
        == Response(Added(Ordinal(prior)), Some(FileWrite(path, WithNote(prior, title, text))))
  {
  }

  /** `prior + block` keeps `prior` as a prefix, and the block's first two
      characters follow it. */
  lemma {:induction false} AppendAtSeam(prior: string, block: string)
    requires |block| > 4
    ensures |prior + block| > |prior| + 2 && prior <= prior + block
    ensures (prior + block)[|prior|..|prior| + 2] == block[..2]
  {
    assert (prior + block)[..|prior|] == prior;
  }

  /** Writing one file leaves every other file as it was. */
  lemma {:induction false} UpdateKeepsOthers(files: map<string, string>, path: string, content: string)
    ensures var after := files[path := content];
      && (forall p :: p in files && p != path ==> p in after && after[p] == files[p])
      && after.Keys == files.Keys + {path}
  {
  }

  /** Two successful notes in a row go to the same file: the first note's
      block stays in place, before the second, with the ordinal it was given,
      and the second ordinal is at least two larger. */
  lemma {:induction false} SequentialAdds(files: map<string, string>, folders: seq<string>,
                       text1: string, title1: string, text2: string, title2: string)
    requires title1 != "" && title2 != "" && folders != []
    ensures var r1 := Handle(files, Some(text1), Some(title1), Some(folders));
      var r2 := Handle(AfterWrite(files, r1), Some(text2), Some(title2), Some(folders));
      var path := JoinPath(folders[0], NotesFileName);
      && r1.outcome.Added? && r2.outcome.Added?
      && r1.write.value.path == r2.write.value.path == path
      && r1.write.value.content <= r2.write.value.content
      && r2.write.value.content == r1.write.value.content
           + NoteBlock(r2.outcome.ordinal, title2, FormatCodeForMarkdown(text2), SimulatedExplanation)
      && r2.outcome.ordinal >= r1.outcome.ordinal + 2
  {
    var path := JoinPath(folders[0], NotesFileName);
    var prior := ExistingContent(files, path);
    var r1 := Handle(files, Some(text1), Some(title1), Some(folders));
    SuccessfulAdd(files, text1, title1, folders);
    var c1 := r1.write.value.content;
    assert ExistingContent(AfterWrite(files, r1), path) == c1;
    SuccessfulAdd(AfterWrite(files, r1), text2, title2, folders);
    CountGrowth(prior, Ordinal(prior), title1, FormatCodeForMarkdown(text1), SimulatedExplanation);
  }

  /** Adding the same note twice appends two different blocks: the operation
      is not idempotent. */
  lemma {:induction false} AddingTwiceIsNotIdempotent(files: map<string, string>, text: string, title: string, folders: seq<string>)
    requires title != "" && folders != []
    ensures var r1 := Handle(files, Some(text), Some(title), Some(folders));
      var r2 := Handle(AfterWrite(files, r1), Some(text), Some(title), Some(folders));
      var prior := ExistingContent(files, JoinPath(folders[0], NotesFileName));
      && r1.write.Some? && r2.write.Some?
      && var c1, c2 := r1.write.value.content, r2.write.value.content;
         prior <= c1 <= c2 && c2[|c1|..] != c1[|prior|..]
  {
    var path := JoinPath(folders[0], NotesFileName);
    var prior := ExistingContent(files, path);
    var code := FormatCodeForMarkdown(text);
    SequentialAdds(files, folders, text, title, text, title);
    SuccessfulAdd(files, text, title, folders);
    var r1 := Handle(files, Some(text), Some(title), Some(folders));
    var r2 := Handle(AfterWrite(files, r1), Some(text), Some(title), Some(folders));
    var o1, o2 := r1.outcome.ordinal, r2.outcome.ordinal;
    var b1 := NoteBlock(o1, title, code, SimulatedExplanation);
    var b2 := NoteBlock(o2, title, code, SimulatedExplanation);
    assert (prior + b1 + b2)[|prior + b1|..] == b2;
    assert (prior + b1)[|prior|..] == b1;
    DistinctOrdinalsDistinctBlocks(o1, o2, title, code, SimulatedExplanation);
  }

  /** Blocks that differ only in their ordinal differ. */
  lemma {:induction false} DistinctOrdinalsDistinctBlocks(o1: nat, o2: nat, title: string, code: string, explanation: string)
    requires o1 != o2
    ensures NoteBlock(o1, title, code, explanation) != NoteBlock(o2, title, code, explanation)
  {
    NatToStringInjective(o1, o2);
    var tail := ". " + title + CodeHeader + code + ExplanationHeader + explanation + Trailer;
    BlockAroundOrdinal(o1, title, code, explanation);
    BlockAroundOrdinal(o2, title, code, explanation);
    MiddleDiffers("# ", NatToString(o1), NatToString(o2), tail);
  }

  lemma {:induction false} BlockAroundOrdinal(o: nat, title: string, code: string, explanation: string)
    ensures NoteBlock(o, title, code, explanation) ==
            "# " + NatToString(o) + (". " + title + CodeHeader + code + ExplanationHeader + explanation + Trailer)
  {
  }

  lemma {:induction false} MiddleDiffers(front: string, m1: string, m2: string, back: string)
    requires m1 != m2
    ensures front + m1 + back != front + m2 + back
  {
    if |m1| == |m2| {
      assert (front + m1 + back)[|front|..|front| + |m1|] == m1;
      assert (front + m2 + back)[|front|..|front| + |m2|] == m2;
    }
  }

  /** The first two notes added to a workspace without a notes file, for a
      snippet and a title free of '#': numbers 1 and 4, because the first
      note's two sub-headings are counted as well as its heading. */
  lemma {:induction false} FreshFileNumbering(code: string, title: string, root: string)
    requires title != "" && '#' !in title && '#' !in code
    ensures var r1 := Handle(map[], Some(code), Some(title), Some([root]));
      var r2 := Handle(AfterWrite(map[], r1), Some(code), Some(title), Some([root]));
      && r1.outcome == Added(1)
      && r1.write == Some(FileWrite(JoinPath(root, NotesFileName),
                                    NoteBlock(1, title, FormatCodeForMarkdown(code), SimulatedExplanation)))
      && r2.outcome == Added(4)
  {
    var path := JoinPath(root, NotesFileName);
    var formatted := FormatCodeForMarkdown(code);
    HashKept(code);
    HashKept(formatted);
    var block := NoteBlock(1, title, formatted, SimulatedExplanation);
    SuccessfulAdd(map[], code, title, [root]);
    var after := AfterWrite(map[], Handle(map[], Some(code), Some(title), Some([root])));
    assert after[path] == "" + block == block;
    SuccessfulAdd(after, code, title, [root]);
    NoteBlockMarks(1, title, formatted, SimulatedExplanation);
    CountMarksNoHash(title);
    CountMarksNoHash(formatted);
    SimulatedExplanationHasNoHash();
  }

  /** Wrapping can start a line with `#`: a `#` right after 80 other
      characters is no match in the snippet, but after the cut at 80 it
      starts a line of the formatted code, which the ordinal then counts. */
  lemma {:induction false} WrapMakesHeadingMark(body: string)
    requires |body| == MaxLineLength && NoTerminators(body) && '#' !in body
    ensures CountMarks(body + "#") == 0
    ensures CountMarks(FormatCodeForMarkdown(body + "#")) == 1
  {
    var line := body + "#";
    assert '#' !in body + "\n";
    CountMarksNoHash(body);
    CountMarksAppend(body, "#");
    assert NoTerminators(line);
    assert '\n' !in line;
    FormatSingleLine(line);
    MatchAllCutsEvenly(line);
    var chunks := MatchAll(line);
    assert |chunks| == 2;
    assert Concat(chunks) == chunks[0] + (chunks[1] + Concat([]));
    assert chunks[0] == body && chunks[1] == "#";
    assert WrapLine(line) == body + "\n" + "#";
    CountMarksNoHash(body + "\n");
    CountMarksAppend(body + "\n", "#");
    assert CountMarks("#") == 1 by {
      LeadingHashCounts("#");
    }
  }

  lemma {:induction false} SimulatedExplanationHasNoHash()
    ensures CountMarks(SimulatedExplanation) == 0
  {
    var p1, p2, p3, p4 := "This is ", "a simulated ", "explanation ", "from Copilot.";
    assert SimulatedExplanation == p1 + p2 + p3 + p4;
    assert '#' !in p1 && '#' !in p2;
    assert '#' !in p3 && '#' !in p4;
    CountMarksNoHash(SimulatedExplanation);
  }

  /** A first note in a workspace without a notes file: the file is created
      with the single heading `# 1. Loop`, the code block and the explanation. */
  lemma {:induction false} FirstNoteScenario(code: string, title: string, root: string)
    requires code == "for(i=0;i<10;i++){}" && title == "Loop" && root == "/ws"
    ensures var r := Handle(map[], Some(code), Some(title), Some([root]));
      && r.outcome == Added(1)
      && r.write.Some? && r.write.value.path == "/ws/SnippetNotes.md"
      && r.write.value.content ==
        "# " + "1" + ". " + "Loop" + "\n\n## Code\n\n```javascript\n" + "for(i=0;i<10;i++){}"
        + "\n```\n\n## Explanation\n\n" + "This is a simulated explanation from Copilot." + "\n\n"
  {
    FreshFileNumbering(code, title, root);
    ScenarioCode(code);
    ScenarioPath(root);
    ScenarioBlock(code, title);
  }

  lemma {:induction false} ScenarioCode(code: string)
    requires code == "for(i=0;i<10;i++){}"
    ensures FormatCodeForMarkdown(code) == code
  {
    assert '\n' !in code;
    SplitSingle(code);
    assert AllLinesShort(code);
  }

  lemma {:induction false} ScenarioPath(root: string)
    requires root == "/ws"
    ensures JoinPath(root, NotesFileName) == "/ws/SnippetNotes.md"
  {
  }

  lemma {:induction false} ScenarioBlock(code: string, title: string)
    requires code == "for(i=0;i<10;i++){}" && title == "Loop"
    ensures NoteBlock(1, title, code, SimulatedExplanation) ==
      "# " + "1" + ". " + "Loop" + "\n\n## Code\n\n```javascript\n" + "for(i=0;i<10;i++){}"
        + "\n```\n\n## Explanation\n\n" + "This is a simulated explanation from Copilot." + "\n\n"
  {
    assert NatToString(1) == "1";
  }
}
