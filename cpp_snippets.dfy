/**
 * The C++ editor tables (`app/utils/cppSnippets.ts`): the snippet table
 * keyed by trigger word, the list of headers offered for inclusion, and
 * the block of `#include` lines built from that list.
 */
module CppSnippets {

  datatype Snippet = Snippet(prefix: string, body: string, description: string)

  /** `cppSnippets`, as its entries in declaration order (the key first). */
  const Snippets: seq<(string, Snippet)> := [
    ("cout", Snippet("cout", "cout << ${1:message} << endl;", "Print to console")),
    ("cin", Snippet("cin", "cin >> ${1:variable};", "Read from console")),
    ("for", Snippet("for", "for(int ${1:i} = 0; ${1:i} < ${2:n}; "
                           + "${1:i}++) {\n\t${3}\n}", "For loop")),
    ("while", Snippet("while", "while(${1:condition}) {\n\t${2}\n}", "While loop")),
    ("class", Snippet("class", "class ${1:ClassName} {\nprivate:\n\t"
                               + "${2}\npublic:\n\t${3}\n};", "Class definition")),
    ("vector", Snippet("vector", "vector<${1:int}> ${2:vec};", "Vector declaration")),
    ("stack", Snippet("stack", "stack<${1:int}> ${2:st};", "Stack declaration"))
  ]

  /** `cppLibraries`. */
  const Libraries: seq<string> := [
    "<iostream>", "<vector>", "<string>", "<stack>", "<queue>",
    "<map>", "<set>", "<algorithm>", "<cmath>", "<fstream>"
  ]

  /** Each snippet is triggered by its own key. */
  lemma SnippetPrefixIsKey()
    ensures |Snippets| == 7
    ensures forall i :: 0 <= i < |Snippets| ==> Snippets[i].1.prefix == Snippets[i].0
  {
  }

  /** A header name in angle brackets. */
  predicate AngleBracketed(lib: string) {
    |lib| >= 3 && lib[0] == '<' && lib[|lib| - 1] == '>'
    && forall k :: 0 < k < |lib| - 1 ==> lib[k] != '<' && lib[k] != '>' && lib[k] != '\n'
  }

  predicate Distinct(xs: seq<string>) {
    forall i, j :: 0 <= i < j < |xs| ==> xs[i] != xs[j]
  }

  /** The ten headers are distinct names in angle brackets. */
  lemma LibrariesWellFormed()
    ensures |Libraries| == 10
    ensures forall i :: 0 <= i < |Libraries| ==> AngleBracketed(Libraries[i])
    ensures Distinct(Libraries)
  {
  }

  /** The line that includes `lib`. */
  function IncludeLine(lib: string): (r: string)
    ensures |r| == |"#include "| + |lib|
    ensures r[..9] == "#include " && r[9..] == lib
  {
    "#include " + lib
  }

  /** One `#include` line per library, in order. */
  function IncludeLines(libs: seq<string>): (r: seq<string>)
    ensures |r| == |libs|
    ensures forall i :: 0 <= i < |libs| ==> r[i] == IncludeLine(libs[i])
  {
    seq(|libs|, i requires 0 <= i < |libs| => IncludeLine(libs[i]))
  }

  /** `join('\n')`: the lines with one newline between neighbours and none after the last. */
  function Join(lines: seq<string>): string
    decreases |lines|
  {
    if lines == [] then ""
    else if |lines| == 1 then lines[0]
    else lines[0] + "\n" + Join(lines[1..])
  }

  /** Cutting a text at each newline, the inverse of `Join`. */
  function SplitLines(s: string): (r: seq<string>)
    ensures |r| >= 1
    decreases |s|
  {
    if s == [] then [""]
    else
      var rest := SplitLines(s[1..]);
      if s[0] == '\n' then [""] + rest
      else [[s[0]] + rest[0]] + rest[1..]
  }

  predicate NoNewline(s: string) {
    forall k :: 0 <= k < |s| ==> s[k] != '\n'
  }

  /** A newline-free text in front of another joins the first line of what follows. */
  lemma {:induction false} SplitLinesPrefix(a: string, t: string)
    requires NoNewline(a)
    ensures SplitLines(a + t) == [a + SplitLines(t)[0]] + SplitLines(t)[1..]
    decreases |a|
  {
    if a != [] {
      assert (a + t)[1..] == a[1..] + t;
      SplitLinesPrefix(a[1..], t);
      assert [a[0]] + (a[1..] + SplitLines(t)[0]) == a + SplitLines(t)[0];
    } else {
      var r := SplitLines(t);
      assert a + t == t && a + r[0] == r[0];
      assert r == [r[0]] + r[1..];
    }
  }

  /** Joining newline-free lines and cutting the result again gives the lines back. */
  lemma {:induction false} SplitJoin(lines: seq<string>)
    requires |lines| >= 1
    requires forall i :: 0 <= i < |lines| ==> NoNewline(lines[i])
    ensures SplitLines(Join(lines)) == lines
    decreases |lines|
  {
    if |lines| == 1 {
      SplitLinesPrefix(lines[0], "");
      assert lines[0] + "" == lines[0];
    } else {
      var rest := Join(lines[1..]);
      SplitJoin(lines[1..]);
      assert lines[0] + "\n" + rest == lines[0] + ("\n" + rest);
      SplitLinesPrefix(lines[0], "\n" + rest);
      assert ("\n" + rest)[1..] == rest;
      assert SplitLines("\n" + rest) == [""] + lines[1..];
      assert lines[0] + "" == lines[0];
      assert lines == [lines[0]] + lines[1..];
    }
  }

  /** `commonHeaders`. */
  function CommonHeaders(): string {
    Join(IncludeLines(Libraries))
  }

  lemma IncludeLinesNoNewline(libs: seq<string>)
    requires forall i :: 0 <= i < |libs| ==> AngleBracketed(libs[i])
    ensures forall i :: 0 <= i < |libs| ==> NoNewline(IncludeLine(libs[i]))
  {
    forall i | 0 <= i < |libs|
      ensures NoNewline(IncludeLine(libs[i]))
    {
      var line := IncludeLine(libs[i]);
      forall k | 0 <= k < |line|
        ensures line[k] != '\n'
      {
        if k < 9 {
          assert line[k] == line[..9][k];
        } else {
          assert line[k] == libs[i][k - 9];
        }
      }
    }
  }

  /**
   * The header block has exactly one line per library, in order, each the
   * `#include` line of that library: nothing before the first, nothing
   * after the last.
   */
  lemma CommonHeadersLines()
    ensures SplitLines(CommonHeaders()) == IncludeLines(Libraries)
    ensures |SplitLines(CommonHeaders())| == 10
  {
    LibrariesWellFormed();
    IncludeLinesNoNewline(Libraries);
    SplitJoin(IncludeLines(Libraries));
  }
}
