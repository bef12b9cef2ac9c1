/**
 * The C++ completion provider (`app/utils/editorConfig.ts`): the list of
 * suggestions offered at a cursor position, built from the snippet table
 * and the header list, and the registrations `setupEditor` performs. The
 * editor library itself is left abstract: its registration calls are
 * recorded as effects.
 */
module EditorConfig {
  import CppSnippets

  datatype Position = Position(lineNumber: int, column: int)

  /** The word under the cursor, as the editor reports its columns. */
  datatype WordSpan = WordSpan(startColumn: int, endColumn: int)

  datatype Range = Range(startLineNumber: int, endLineNumber: int, startColumn: int, endColumn: int)

  datatype SuggestionKind = SnippetKind | ModuleKind

  /** A completion item; every item is inserted as a snippet. */
  datatype Suggestion = Suggestion(labelText: string, insertText: string, documentation: string,
                                   kind: SuggestionKind, range: Range)

  /** The range every suggestion replaces: the word under the cursor, on the cursor's line. */
  function WordRange(position: Position, word: WordSpan): (r: Range)
    ensures r.startLineNumber == r.endLineNumber == position.lineNumber
    ensures r.startColumn == word.startColumn && r.endColumn == word.endColumn
  {
    Range(position.lineNumber, position.lineNumber, word.startColumn, word.endColumn)
  }

  /** One snippet suggestion per table entry: the key, its body and its description. */
  function SnippetSuggestions(entries: seq<(string, CppSnippets.Snippet)>, range: Range): (r: seq<Suggestion>)
    ensures |r| == |entries|
    ensures forall i :: 0 <= i < |entries| ==>
      r[i] == Suggestion(entries[i].0, entries[i].1.body, entries[i].1.description, SnippetKind, range)
  {
    seq(|entries|, i requires 0 <= i < |entries| =>
      Suggestion(entries[i].0, entries[i].1.body, entries[i].1.description, SnippetKind, range))
  }

  /** The label, text and documentation offered for including `lib`. */
  function LibrarySuggestion(lib: string, range: Range): (s: Suggestion)
    ensures |s.labelText| == 8 + |lib| && s.labelText[..8] == "include " && s.labelText[8..] == lib
    ensures s.insertText == CppSnippets.IncludeLine(lib)
    ensures s.kind == ModuleKind && s.range == range
  {
    Suggestion("include " + lib, "#include " + lib, "Include " + lib + " library", ModuleKind, range)
  }

  /** One library suggestion per header, in order. */
  function LibrarySuggestions(libs: seq<string>, range: Range): (r: seq<Suggestion>)
    ensures |r| == |libs|
    ensures forall i :: 0 <= i < |libs| ==> r[i] == LibrarySuggestion(libs[i], range)
  {
    seq(|libs|, i requires 0 <= i < |libs| => LibrarySuggestion(libs[i], range))
  }

  /** `provideCompletionItems`: the snippet suggestions, then the library suggestions. */
  function ProvideCompletionItems(position: Position, word: WordSpan): seq<Suggestion> {
    var range := WordRange(position, word);
    SnippetSuggestions(CppSnippets.Snippets, range) + LibrarySuggestions(CppSnippets.Libraries, range)
  }

  /**
   * There is one suggestion per snippet followed by one per library, all
   * on the same single-line range at the cursor; each library suggestion
   * inserts that library's line of the header block.
   */
  lemma CompletionItemsLayout(position: Position, word: WordSpan)
    ensures var items := ProvideCompletionItems(position, word);
      && |items| == |CppSnippets.Snippets| + |CppSnippets.Libraries| == 17
      && (forall i :: 0 <= i < |items| ==> items[i].range == WordRange(position, word))
      && (forall i :: 0 <= i < |items| ==> items[i].range.startLineNumber == items[i].range.endLineNumber)
      && (forall i :: 0 <= i < |CppSnippets.Snippets| ==>
            items[i].kind == SnippetKind && items[i].labelText == CppSnippets.Snippets[i].1.prefix)
      && (forall i :: 0 <= i < |CppSnippets.Libraries| ==>
            items[|CppSnippets.Snippets| + i].insertText == CppSnippets.IncludeLines(CppSnippets.Libraries)[i])
  {
    CppSnippets.SnippetPrefixIsKey();
    CppSnippets.LibrariesWellFormed();
    var range := WordRange(position, word);
    var snippets := SnippetSuggestions(CppSnippets.Snippets, range);
    var libs := LibrarySuggestions(CppSnippets.Libraries, range);
    var items := snippets + libs;
    forall i | 0 <= i < |items|
      ensures items[i].range == range
    {
      if i < |snippets| {
        assert items[i] == snippets[i];
      } else {
        assert items[i] == libs[i - |snippets|];
      }
    }
    forall i | 0 <= i < |CppSnippets.Libraries|
      ensures items[|snippets| + i].insertText == CppSnippets.IncludeLines(CppSnippets.Libraries)[i]
    {
      assert items[|snippets| + i] == libs[i];
    }
  }

  /** What `setupEditor` asks of the editor library. */
  datatype EditorEffect =
    | RegisterLanguage(id: string)
    | RegisterCompletionProvider(languageId: string)
    | SetLanguageConfiguration(languageId: string)

  /** `setupEditor`: nothing without both the editor and the library; otherwise the three registrations for `cpp`, in order. */
  function SetupEditor(hasEditor: bool, hasMonaco: bool): (effects: seq<EditorEffect>)
    ensures !hasEditor || !hasMonaco ==> effects == []
    ensures hasEditor && hasMonaco ==>
      effects == [RegisterLanguage("cpp"), RegisterCompletionProvider("cpp"), SetLanguageConfiguration("cpp")]
    ensures forall i :: 0 <= i < |effects| ==>
      (effects[i].RegisterLanguage? && effects[i].id == "cpp") || (!effects[i].RegisterLanguage? && effects[i].languageId == "cpp")
  {
    if !hasEditor || !hasMonaco then []
    else [RegisterLanguage("cpp"), RegisterCompletionProvider("cpp"), SetLanguageConfiguration("cpp")]
  }
}
