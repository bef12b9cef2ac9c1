/**
 * The code-execution proxy (`POST /api/compile`): it looks the language up
 * in a fixed table, builds the request for the execution service, and
 * passes back that service's `run` report. The service is a parameter
 * (`execute`) mapping the request sent to what came back.
 */
module CompileRoute {
  import opened Common

  /** The execution service's name and version for a language. */
  datatype Runtime = Runtime(language: string, version: string)

  datatype SourceFile = SourceFile(name: string, content: string)

  /** The body sent to the execution service. */
  datatype Payload = Payload(language: string, version: string, files: seq<SourceFile>, stdin: string)

  /** The fields of the incoming body; a field that is absent or not a string is `None`. */
  datatype CompileRequest = CompileRequest(code: string, language: Option<string>, input: string)

  /** What the execution service gave back: its reply's `run` field, or a thrown error. */
  datatype Upstream<R> = Replied(run: R) | ServiceThrew

  datatype Reply<R> = RunReport(run: R) | ErrorReply(status: nat, error: string)

  const Unsupported := "Unsupported language"
  const SomethingWrong := "Something went wrong"

  /** `languageMap`: the four supported keys. */
  function LanguageMap(key: string): (r: Option<Runtime>)
    ensures r.Some? <==> key in {"c", "cpp", "python", "java"}
  {
    if key == "c" then Some(Runtime("c", "10.2.0"))
    else if key == "cpp" then Some(Runtime("c++", "10.2.0"))
    else if key == "python" then Some(Runtime("python", "3.10.0"))
    else if key == "java" then Some(Runtime("java", "15.0.2"))
    else None
  }

  /** The table's entries, key by key. */
  lemma LanguageMapEntries()
    ensures LanguageMap("c") == Some(Runtime("c", "10.2.0"))
    ensures LanguageMap("cpp") == Some(Runtime("c++", "10.2.0"))
    ensures LanguageMap("python") == Some(Runtime("python", "3.10.0"))
    ensures LanguageMap("java") == Some(Runtime("java", "15.0.2"))
    ensures forall k :: LanguageMap(k).Some? ==> LanguageMap(k).value.version in {"10.2.0", "3.10.0", "15.0.2"}
  {
  }

  /** The runtime of a request, if its language is in the table. */
  function RuntimeOf(req: CompileRequest): Option<Runtime> {
    if req.language.Some? then LanguageMap(req.language.value) else None
  }

  /** The request for the execution service: one file named `main` holding the code, and the input. */
  function BuildPayload(rt: Runtime, code: string, input: string): (p: Payload)
    ensures p.language == rt.language && p.version == rt.version
    ensures |p.files| == 1 && p.files[0].name == "main" && p.files[0].content == code
    ensures p.stdin == input
  {
    Payload(rt.language, rt.version, [SourceFile("main", code)], input)
  }

  /**
   * `POST`: the answer and the request sent to the service, if any. A body
   * that could not be read (`None`) ends in the catch-all 500.
   */
  function Compile<R>(body: Option<CompileRequest>, execute: Payload -> Upstream<R>): (r: (Reply<R>, Option<Payload>))
    ensures body.None? ==> r == (ErrorReply(500, SomethingWrong), None)
    ensures body.Some? && RuntimeOf(body.value).None? ==> r == (ErrorReply(400, Unsupported), None)
    ensures body.Some? && RuntimeOf(body.value).Some? ==>
      && r.1 == Some(BuildPayload(RuntimeOf(body.value).value, body.value.code, body.value.input))
      && (execute(r.1.value).Replied? ==> r.0 == RunReport(execute(r.1.value).run))
      && (execute(r.1.value).ServiceThrew? ==> r.0 == ErrorReply(500, SomethingWrong))
  {
    if body.None? then (ErrorReply(500, SomethingWrong), None)
    else
      var rt := RuntimeOf(body.value);
      if rt.None? then (ErrorReply(400, Unsupported), None)
      else
        var payload := BuildPayload(rt.value, body.value.code, body.value.input);
        match execute(payload)
        case Replied(run) => (RunReport(run), Some(payload))
        case ServiceThrew => (ErrorReply(500, SomethingWrong), Some(payload))
  }

  /**
   * A request goes out exactly when the language is one of the four keys,
   * and a run report comes back only from a request that went out and was
   * answered.
   */
  lemma RequestOnlyForSupportedLanguage<R>(body: Option<CompileRequest>, execute: Payload -> Upstream<R>)
    ensures Compile(body, execute).1.Some? <==>
      body.Some? && body.value.language.Some? && body.value.language.value in {"c", "cpp", "python", "java"}
    ensures Compile(body, execute).0.RunReport? ==>
      Compile(body, execute).1.Some? && execute(Compile(body, execute).1.value) == Replied(Compile(body, execute).0.run)
  {
  }
}
