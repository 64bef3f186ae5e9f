/** The code-review agent: `analyze_code` sends a Python source text to the
    model and returns the decoded JSON of its answer, or an error dict when
    anything in between raises. */
module DevSecOpsAgent {
  import opened Json
  import opened PyText
  import opened Fences

  /** The prompt text before and after the submitted code. */
  const PromptHead: string :=
    "\n" + RoleLine + TaskLine + "\n" + FormatLine + Schema + "\n" + CodeLabel
  const PromptTail: string := "\n    "

  /** The introduction, line by line. */
  const RoleLine: string := "    Atue como um Engenheiro de DevSecOps.\n"
  const TaskLine: string := "    Analise o código Python abaixo em busca de vulnerabilidades (OWASP, senhas expostas, etc).\n"
  const FormatLine: string := "    Retorne APENAS um JSON válido (sem markdown) com este formato exato:\n"
  const CodeLabel: string := "    Código: "

  /** The response schema: a list of findings and the corrected code. */
  const Schema: string :=
    "    {\n" + FindingsOpen + FindingOpen + KindField + LineField + SeverityField + DetailField
    + FindingClose + FindingsClose + SecureCodeField + "    }\n"
  const FindingsOpen: string := "        \"vulnerabilidades\": [\n"
  const FindingOpen: string := "            {\n"
  const KindField: string := "                \"tipo\": \"Nome do erro\",\n"
  const LineField: string := "                \"linha\": \"Trecho/Linha\",\n"
  const SeverityField: string := "                \"severidade\": \"ALTA/MEDIA/BAIXA\",\n"
  const DetailField: string := "                \"detalhe\": \"Explicação do risco\"\n"
  const FindingClose: string := "            }\n"
  const FindingsClose: string := "        ],\n"
  const SecureCodeField: string := "        \"codigo_seguro\": \"Código completo corrigido e seguro\"\n"

  /** The review request for one source text: the code framed by a fixed
      head and tail, so `FrameLayout` and `FrameInjective` apply to it. */
  function BuildPrompt(code: string): (p: string)
    ensures OccursAt(p, PromptHead, 0) && OccursAt(p, code, |PromptHead|)
    ensures |p| == |PromptHead| + |code| + |PromptTail|
  {
    FrameLayout(PromptHead, code, PromptTail);
    PromptHead + code + PromptTail
  }

  /** The review request carries the code verbatim right after the fixed
      introduction and schema, and no other code gives the same request. */
  lemma PromptCarriesCode(code: string)
    ensures OccursAt(BuildPrompt(code), code, |PromptHead|)
    ensures forall other :: BuildPrompt(other) == BuildPrompt(code) ==> other == code
  {
    FrameLayout(PromptHead, code, PromptTail);
    forall other | BuildPrompt(other) == BuildPrompt(code) ensures other == code {
      FrameInjective(PromptHead, other, code, PromptTail);
    }
  }

  /** The dict returned from the `except` branch; `message` is `str(e)`. */
  function ErrorDict(message: string): Json
  {
    JObject(map["error" := JBool(true), "message" := JString(message)])
  }

  /** The `try` block after the request: the model's answer, cleaned and
      decoded, or the error dict for whatever was raised on the way. */
  function DecodeAnswer(reply: GenAiReply, parse: Parser): (r: Json)
    ensures reply.Raised? ==> r == ErrorDict(reply.message)
    ensures reply.Replied? ==>
      match parse(CleanReply(reply.text))
      case Parsed(v) => r == v
      case ParseError(why) => r == ErrorDict(why)
      case ParserRaised(why) => r == ErrorDict(why)
  {
    match reply
    case Raised(why) => ErrorDict(why)
    case Replied(text) =>
      match parse(CleanReply(text))
      case Parsed(v) => v
      case ParseError(why) => ErrorDict(why)
      case ParserRaised(why) => ErrorDict(why)
  }

  /** `analyze_code(code_content)`. `model(prompt)` is what
      `model.generate_content(prompt).text` gives: the text, or the message
      of the exception it raised. */
  function AnalyzeCode(code: string, model: string -> GenAiReply, parse: Parser): (r: Json)
    ensures model(BuildPrompt(code)).Raised? ==> r == ErrorDict(model(BuildPrompt(code)).message)
    ensures model(BuildPrompt(code)).Replied? ==>
      match parse(CleanReply(model(BuildPrompt(code)).text))
      case Parsed(v) => r == v
      case ParseError(why) => r == ErrorDict(why)
      case ParserRaised(why) => r == ErrorDict(why)
    ensures || (exists m :: r == ErrorDict(m))
            || (exists t :: !Contains(t, Fence) && IsTrimmed(t) && parse(t) == Parsed(r))
  {
    AnswerIsErrorOrCleanDecoding(model(BuildPrompt(code)), parse);
    DecodeAnswer(model(BuildPrompt(code)), parse)
  }

  /** Whatever the model answers, the result is an error dict or the decoding
      of a text with no code fence and no surrounding whitespace. */
  lemma AnswerIsErrorOrCleanDecoding(reply: GenAiReply, parse: Parser)
    ensures || (exists m :: DecodeAnswer(reply, parse) == ErrorDict(m))
            || (exists t :: !Contains(t, Fence) && IsTrimmed(t) && parse(t) == Parsed(DecodeAnswer(reply, parse)))
  {
    var r := DecodeAnswer(reply, parse);
    match reply
    case Raised(why) =>
      assert r == ErrorDict(why);
    case Replied(text) =>
      var t := CleanReply(text);
      match parse(t)
      case Parsed(v) =>
        assert parse(t) == Parsed(r);
      case ParseError(why) =>
        assert r == ErrorDict(why);
      case ParserRaised(why) =>
        assert r == ErrorDict(why);
  }

  /** An answer given as a JSON code block is decoded from the block's
      contents. */
  lemma CodeBlockAnswerDecoded(body: string, parse: Parser)
    requires !Contains(body, Fence)
    ensures DecodeAnswer(Replied(JsonFence + body + Fence), parse)
         == match parse(Strip(body))
            case Parsed(v) => v
            case ParseError(why) => ErrorDict(why)
            case ParserRaised(why) => ErrorDict(why)
  {
    CleanUnwrapsCodeBlock(body);
  }
}
