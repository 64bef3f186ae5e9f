/** The IaC gate scanner run in CI: `analyze_iac` turns one infrastructure
    file into a verdict dict, and the main loop folds the verdicts of all
    candidate files into the process exit code (0 lets the deploy go on, 1
    stops it). */
module SentinelScan {
  import opened Json
  import opened PyText
  import opened Fences
  import opened Counting

  /** What `requests.post` to the generateContent endpoint gives: an exception
      (no connection, timeout, ...) or a response with its status code and
      body text. */
  datatype HttpReply = ConnectionFailed(reason: string) | Response(status: int, body: string)

  /** Everything the scan reads from outside the program: the decoded contents
      of each file, the backend's reply to each file's request, as a function of the prompt, the
      JSON decoder and `json.dumps(..., default=str)`. */
  datatype Environment = Environment(
    read: string -> ReadOutcome,
    backend: string -> string -> HttpReply,
    parse: Parser,
    dumps: Serializer)

  const Approved: string := "APROVADO"
  const Rejected: string := "REPROVADO"
  const ReadErrorToken: string := "ERRO_LEITURA"
  const ApiErrorToken: string := "ERRO_API"
  const GeneralErrorToken: string := "ERRO_GERAL"

  /** The prompt text before and after the serialised IaC. */
  const PromptHead: string :=
    "\n" + RoleLine + "    \n" + CriteriaLine + OpenPortRule + PublicBucketRule + AdminRoleRule + "\n" + FileLabel
  const PromptTail: string := SchemaIntro + StatusLine + RiskLine + DetailLine + FixLine

  /** The introduction and the three blocking criteria, line by line. */
  const RoleLine: string := "    Atue como Auditor DevSecOps. Analise este arquivo de Infraestrutura (Terraform/CloudFormation/JSON).\n"
  const CriteriaLine: string := "    Identifique riscos CRÍTICOS que impediriam o deploy:\n"
  const OpenPortRule: string := "    1. Security Groups com 'cidr_blocks': ['0.0.0.0/0'] em portas 22 (SSH) ou 3389 (RDP).\n"
  const PublicBucketRule: string := "    2. Buckets S3 com 'acl': 'public-read' ou policies abertas para o mundo.\n"
  const AdminRoleRule: string := "    3. IAM Roles com 'Action': '*' e 'Resource': '*' (Admin total).\n"
  const FileLabel: string := "    ARQUIVO IAC: "

  /** The response schema, line by line. */
  const SchemaIntro: string := "\n\n    Responda APENAS neste JSON:\n    {\n        "
  const StatusLine: string := StatusKey + ": " + Quoted(Approved) + " ou " + Quoted(Rejected) + ",\n        "
  const RiskLine: string := RiskKey + ": \"Titulo curto (ou null se seguro)\",\n        "
  const DetailLine: string := DetailKey + ": \"Explicação curta\",\n        "
  const FixLine: string := FixKey + ": \"O que mudar no código\"\n    }\n    "

  /** The field names of the response schema, as they appear in the prompt. */
  const StatusKey: string := "\"status\""
  const RiskKey: string := "\"risco\""
  const DetailKey: string := "\"detalhe\""
  const FixKey: string := "\"correcao\""

  function Quoted(token: string): string
  {
    "\"" + token + "\""
  }

  /** The analysis request for one file: the serialised IaC framed by a
      fixed head and tail, so `FrameLayout` and `FrameInjective` apply to it. */
  function BuildPrompt(serialisedIac: string): (p: string)
    ensures OccursAt(p, PromptHead, 0) && OccursAt(p, serialisedIac, |PromptHead|)
    ensures OccursAt(p, PromptTail, |PromptHead| + |serialisedIac|)
  {
    FrameLayout(PromptHead, serialisedIac, PromptTail);
    PromptHead + serialisedIac + PromptTail
  }

  /** Every request names the four response fields and both verdict tokens. */
  lemma PromptNamesSchema(serialisedIac: string)
    ensures Contains(BuildPrompt(serialisedIac), StatusKey)
    ensures Contains(BuildPrompt(serialisedIac), RiskKey)
    ensures Contains(BuildPrompt(serialisedIac), DetailKey)
    ensures Contains(BuildPrompt(serialisedIac), FixKey)
    ensures Contains(BuildPrompt(serialisedIac), Quoted(Approved))
    ensures Contains(BuildPrompt(serialisedIac), Quoted(Rejected))
  {
    var x := serialisedIac;
    var afterKey := ": " + Quoted(Approved) + " ou " + Quoted(Rejected) + ",\n        ";
    ContainsItself(StatusKey);
    ContainsLeft(StatusKey, ": ", StatusKey);
    ContainsLeft(StatusKey + ": ", Quoted(Approved), StatusKey);
    ContainsLeft(StatusKey + ": " + Quoted(Approved), " ou ", StatusKey);
    ContainsLeft(StatusKey + ": " + Quoted(Approved) + " ou ", Quoted(Rejected), StatusKey);
    ContainsLeft(StatusKey + ": " + Quoted(Approved) + " ou " + Quoted(Rejected), ",\n        ", StatusKey);
    LineInPrompt(x, StatusKey);

    ContainsItself(Quoted(Approved));
    ContainsRight(StatusKey + ": ", Quoted(Approved), Quoted(Approved));
    ContainsLeft(StatusKey + ": " + Quoted(Approved), " ou ", Quoted(Approved));
    ContainsLeft(StatusKey + ": " + Quoted(Approved) + " ou ", Quoted(Rejected), Quoted(Approved));
    ContainsLeft(StatusKey + ": " + Quoted(Approved) + " ou " + Quoted(Rejected), ",\n        ", Quoted(Approved));
    LineInPrompt(x, Quoted(Approved));

    ContainsItself(Quoted(Rejected));
    ContainsRight(StatusKey + ": " + Quoted(Approved) + " ou ", Quoted(Rejected), Quoted(Rejected));
    ContainsLeft(StatusKey + ": " + Quoted(Approved) + " ou " + Quoted(Rejected), ",\n        ", Quoted(Rejected));
    LineInPrompt(x, Quoted(Rejected));

    ContainsItself(RiskKey);
    ContainsLeft(RiskKey, ": \"Titulo curto (ou null se seguro)\",\n        ", RiskKey);
    LineInPrompt(x, RiskKey);

    ContainsItself(DetailKey);
    ContainsLeft(DetailKey, ": \"Explicação curta\",\n        ", DetailKey);
    LineInPrompt(x, DetailKey);

    ContainsItself(FixKey);
    ContainsLeft(FixKey, ": \"O que mudar no código\"\n    }\n    ", FixKey);
    LineInPrompt(x, FixKey);
  }

  /** What one line of the schema contains, every prompt contains. */
  lemma LineInPrompt(serialisedIac: string, key: string)
    requires Contains(StatusLine, key) || Contains(RiskLine, key) || Contains(DetailLine, key) || Contains(FixLine, key)
    ensures Contains(BuildPrompt(serialisedIac), key)
  {
    if Contains(StatusLine, key) {
      ContainsRight(SchemaIntro, StatusLine, key);
      ContainsLeft(SchemaIntro + StatusLine, RiskLine, key);
      ContainsLeft(SchemaIntro + StatusLine + RiskLine, DetailLine, key);
      ContainsLeft(SchemaIntro + StatusLine + RiskLine + DetailLine, FixLine, key);
    } else if Contains(RiskLine, key) {
      ContainsRight(SchemaIntro + StatusLine, RiskLine, key);
      ContainsLeft(SchemaIntro + StatusLine + RiskLine, DetailLine, key);
      ContainsLeft(SchemaIntro + StatusLine + RiskLine + DetailLine, FixLine, key);
    } else if Contains(DetailLine, key) {
      ContainsRight(SchemaIntro + StatusLine + RiskLine, DetailLine, key);
      ContainsLeft(SchemaIntro + StatusLine + RiskLine + DetailLine, FixLine, key);
    } else {
      ContainsRight(SchemaIntro + StatusLine + RiskLine + DetailLine, FixLine, key);
    }
    ContainsRight(PromptHead + serialisedIac, PromptTail, key);
  }

  /** The dict `analyze_iac` returns when it gives up: a status token and a
      short risk title. */
  function ErrorResult(status: string, risk: string): Json
  {
    JObject(map["status" := JString(status), "risco" := JString(risk)])
  }

  const SyntaxErrorResult: Json := ErrorResult(ReadErrorToken, "JSON Malformado (Syntax Error)")
  const CorruptFileResult: Json := ErrorResult(ReadErrorToken, "Arquivo Corrompido")
  const ApiErrorResult: Json := ErrorResult(ApiErrorToken, "Falha na Verificação IA")
  const GeneralErrorResult: Json := ErrorResult(GeneralErrorToken, "Erro Interno do Scanner")

  /** `result['candidates'][0]['content']['parts'][0]['text']`, followed by a
      string method: any step that meets a missing key, an empty list or a
      value of the wrong type raises, which is None here. (Indexing a string
      with 0 succeeds in Python, but the next step indexes it with a string
      key and raises.) */
  function ReplyText(envelope: Json): (r: Option<string>)
    ensures r.Some? ==> HasReplyText(envelope, r.value)
    ensures r.None? ==> forall t :: !HasReplyText(envelope, t)
  {
    match Member(envelope, "candidates")
    case None => None
    case Some(candidates) =>
      match Head(candidates)
      case None => None
      case Some(candidate) =>
        match Member(candidate, "content")
        case None => None
        case Some(content) =>
          match Member(content, "parts")
          case None => None
          case Some(parts) =>
            match Head(parts)
            case None => None
            case Some(part) =>
              match Member(part, "text")
              case Some(JString(text)) => Some(text)
              case _ => None
  }

  /** `text` sits at `candidates[0].content.parts[0].text`, every step a dict
      with that key or a non-empty list. */
  predicate HasReplyText(envelope: Json, text: string)
  {
    envelope.JObject? && "candidates" in envelope.fields &&
    var candidates := envelope.fields["candidates"];
    candidates.JArray? && |candidates.items| > 0 &&
    var candidate := candidates.items[0];
    candidate.JObject? && "content" in candidate.fields &&
    var content := candidate.fields["content"];
    content.JObject? && "parts" in content.fields &&
    var parts := content.fields["parts"];
    parts.JArray? && |parts.items| > 0 &&
    var part := parts.items[0];
    part.JObject? && "text" in part.fields && part.fields["text"] == JString(text)
  }

  function Member(v: Json, key: string): Option<Json>
  {
    if v.JObject? && key in v.fields then Some(v.fields[key]) else None
  }

  function Head(v: Json): Option<Json>
  {
    if v.JArray? && v.items != [] then Some(v.items[0]) else None
  }

  /** The second `try` of `analyze_iac`: what the scanner makes of the
      backend's answer. A non-200 status is an API error; a failed request, an
      undecodable envelope, a missing text path or an undecodable cleaned
      text are general errors; otherwise the decoded cleaned text is the
      verdict. */
  function InterpretReply(reply: HttpReply, parse: Parser): (r: Json)
    ensures reply.ConnectionFailed? ==> r == GeneralErrorResult
    ensures reply.Response? && reply.status != 200 ==> r == ApiErrorResult
    ensures reply.Response? && reply.status == 200 ==>
      match parse(reply.body)
      case ParseError(_) => r == GeneralErrorResult
      case ParserRaised(_) => r == GeneralErrorResult
      case Parsed(envelope) =>
        match ReplyText(envelope)
        case None => r == GeneralErrorResult
        case Some(text) =>
          match parse(CleanReply(text))
          case ParseError(_) => r == GeneralErrorResult
          case ParserRaised(_) => r == GeneralErrorResult
          case Parsed(v) => r == v
    ensures r == GeneralErrorResult || r == ApiErrorResult
      || exists text :: !Contains(text, Fence) && IsTrimmed(text) && parse(text) == Parsed(r)
  {
    match reply
    case ConnectionFailed(_) => GeneralErrorResult
    case Response(status, body) =>
      if status != 200 then ApiErrorResult
      else
        match parse(body)
        case ParseError(_) => GeneralErrorResult
        case ParserRaised(_) => GeneralErrorResult
        case Parsed(envelope) =>
          match ReplyText(envelope)
          case None => GeneralErrorResult
          case Some(text) =>
            var cleaned := CleanReply(text);
            match parse(cleaned)
            case ParseError(_) => GeneralErrorResult
            case ParserRaised(_) => GeneralErrorResult
            case Parsed(v) => v
  }

  /** `analyze_iac(file_path)`: a file that is not JSON is a syntax error; a
      file that cannot be opened, or whose decoding raises anything else, is
      a corrupt file; in both cases the backend is not asked. Otherwise the request for the
      file's serialised contents goes to the backend and its reply decides the
      verdict. No exception leaves it. */
  function AnalyzeIac(read: ReadOutcome, backend: string -> HttpReply, parse: Parser, dumps: Serializer): (r: Json)
    ensures read.Unreadable? ==> r == CorruptFileResult
    ensures read.Contents? && parse(read.text).ParseError? ==> r == SyntaxErrorResult
    ensures read.Contents? && parse(read.text).ParserRaised? ==> r == CorruptFileResult
    ensures read.Contents? && parse(read.text).Parsed? ==>
      r == InterpretReply(backend(BuildPrompt(dumps(parse(read.text).value))), parse)
  {
    match read
    case Unreadable(_) => CorruptFileResult
    case Contents(text) =>
      match parse(text)
      case ParseError(_) => SyntaxErrorResult
      case ParserRaised(_) => CorruptFileResult
      case Parsed(data) => InterpretReply(backend(BuildPrompt(dumps(data))), parse)
  }

  /** The two read errors are told apart by their risk title. */
  lemma ReadErrorsDistinguished()
    ensures SyntaxErrorResult != CorruptFileResult
    ensures Get(SyntaxErrorResult.fields, "status") == Get(CorruptFileResult.fields, "status") == JString(ReadErrorToken)
  {
    assert Get(SyntaxErrorResult.fields, "risco") != Get(CorruptFileResult.fields, "risco");
  }

  /** A file that cannot be read or decoded never reaches the backend: its
      verdict is the same whatever the backend would answer. */
  lemma UnreadableSkipsBackend(read: ReadOutcome, b1: string -> HttpReply, b2: string -> HttpReply, parse: Parser, dumps: Serializer)
    requires read.Unreadable? || !parse(read.text).Parsed?
    ensures AnalyzeIac(read, b1, parse, dumps) == AnalyzeIac(read, b2, parse, dumps)
    ensures AnalyzeIac(read, b1, parse, dumps) in {CorruptFileResult, SyntaxErrorResult}
  {
  }

  /** The one request a readable file sends is the prompt built from its
      serialised contents: backends that agree on that prompt give the same
      verdict. */
  lemma OnlyThePromptIsSent(data: string, b1: string -> HttpReply, b2: string -> HttpReply, parse: Parser, dumps: Serializer)
    requires parse(data).Parsed?
    requires b1(BuildPrompt(dumps(parse(data).value))) == b2(BuildPrompt(dumps(parse(data).value)))
    ensures AnalyzeIac(Contents(data), b1, parse, dumps) == AnalyzeIac(Contents(data), b2, parse, dumps)
  {
  }

  /** The verdict `analyze_iac(file_name)` gives for one file name. */
  function FileVerdict(env: Environment, file: string): Json
  {
    AnalyzeIac(env.read(file), env.backend(file), env.parse, env.dumps)
  }

  /** `analyze_iac` in a given environment, as the main loop calls it. */
  function AnalyzerFor(env: Environment): string -> Json
  {
    file => FileVerdict(env, file)
  }

  /** The four branches of the main loop. */
  datatype Disposition = Vulnerable | CriticalError | Safe | UnknownStatus

  /** How the main loop reads `resultado.get('status')`. Only the exact string
      APROVADO is safe. */
  function Classify(status: Json): (d: Disposition)
    ensures d == Safe <==> status == JString(Approved)
  {
    if status == JString(Rejected) then Vulnerable
    else if status in [JString(ReadErrorToken), JString(ApiErrorToken), JString(GeneralErrorToken)] then CriticalError
    else if status == JString(Approved) then Safe
    else UnknownStatus
  }

  /** A verdict that stops the deploy: every dict whose status is not exactly
      APROVADO (rejected, one of the error tokens, unknown, missing or not a
      string), and every non-dict, on which `resultado.get` raises. */
  function Blocks(verdict: Json): (b: bool)
    ensures !verdict.JObject? ==> b
    ensures verdict.JObject? ==> (b <==> Classify(Get(verdict.fields, "status")) != Safe)
  {
    !verdict.JObject? || Get(verdict.fields, "status") != JString(Approved)
  }

  function BlockedBy(analyze: string -> Json): string -> bool
  {
    file => Blocks(analyze(file))
  }

  /** The project's own configuration files, which are never scanned. */
  predicate Excluded(file: string)
  {
    file in ["package.json", "tsconfig.json"]
  }

  /** `[f for f in files_to_scan if f not in ["package.json", "tsconfig.json"]]`. */
  function ScanTargets(found: seq<string>): (r: seq<string>)
    ensures forall f :: f in r <==> f in found && !Excluded(f)
    ensures forall f :: multiset(r)[f] == if Excluded(f) then 0 else multiset(found)[f]
  {
    if found == [] then []
    else
      assert found == [found[0]] + found[1..];
      if Excluded(found[0]) then ScanTargets(found[1..])
      else [found[0]] + ScanTargets(found[1..])
  }

  /** How the main loop ended: no candidate file, every file tallied, or an
      exception raised by the verdict of the file at `at` (a non-dict has no
      `get`), which Python turns into exit status 1. */
  datatype GateEnd = NothingToScan | Tallied(failures: nat) | Crashed(at: nat)

  /** The `__main__` block, started on the names `glob.glob("*.json")`
      returned; `analyze` is `analyze_iac` (`AnalyzerFor(env)` for the
      environment of the run). `scanned` lists the files analysed, in order. */
  method RunGate(found: seq<string>, analyze: string -> Json) returns (scanned: seq<string>, end: GateEnd, code: int)
    ensures ScanTargets(found) == [] <==> end == NothingToScan
    ensures end == NothingToScan ==> scanned == []
    ensures end.Tallied? ==> TalliedAll(ScanTargets(found), analyze, scanned, end.failures)
    ensures end.Crashed? ==> CrashedAt(ScanTargets(found), analyze, scanned, end.at)
    ensures code == (if Count(ScanTargets(found), BlockedBy(analyze)) > 0 then 1 else 0)
    ensures code == 1 <==> exists k :: 0 <= k < |ScanTargets(found)| && Blocks(analyze(ScanTargets(found)[k]))
    ensures forall f :: f in scanned ==> f in found && !Excluded(f)
  {
    var targets := ScanTargets(found);
    if targets == [] {
      return [], NothingToScan, 0;
    }
    scanned, end, code := ScanAll(targets, analyze);
  }

  /** The `for` loop over the candidate files and the exit code after it. */
  method ScanAll(targets: seq<string>, analyze: string -> Json) returns (scanned: seq<string>, end: GateEnd, code: int)
    requires targets != []
    ensures end.Tallied? || end.Crashed?
    ensures end.Tallied? ==> TalliedAll(targets, analyze, scanned, end.failures)
    ensures end.Crashed? ==> CrashedAt(targets, analyze, scanned, end.at)
    ensures code == (if Count(targets, BlockedBy(analyze)) > 0 then 1 else 0)
    ensures code == 1 <==> exists k :: 0 <= k < |targets| && Blocks(analyze(targets[k]))
    ensures forall f :: f in scanned ==> f in targets
  {
    var failures: nat := 0;
    scanned := [];
    var i := 0;
    while i < |targets|
      invariant 0 <= i <= |targets|
      invariant scanned == targets[..i]
      invariant forall k :: 0 <= k < i ==> analyze(targets[k]).JObject?
      invariant failures == Count(targets[..i], BlockedBy(analyze))
    {
      var file := targets[i];
      var verdict := analyze(file);
      scanned := scanned + [file];
      TallyStep(targets, i, BlockedBy(analyze));
      if !verdict.JObject? {
        CrashBlocks(targets, analyze, i);
        assert forall f :: f in scanned ==> f in targets;
        return scanned, Crashed(i), 1;
      }
      var status := Get(verdict.fields, "status");
      match Classify(status) {
        case Vulnerable => failures := failures + 1;
        case CriticalError => failures := failures + 1;
        case Safe =>
        case UnknownStatus => failures := failures + 1;
      }
      i := i + 1;
    }
    assert targets[..i] == targets;
    CountZero(targets, BlockedBy(analyze));
    end := Tallied(failures);
    code := if failures > 0 then 1 else 0;
  }

  /** The counter after one more file. */
  lemma TallyStep(targets: seq<string>, i: nat, p: string -> bool)
    requires i < |targets|
    ensures targets[..i + 1] == targets[..i] + [targets[i]]
    ensures Count(targets[..i + 1], p) == Count(targets[..i], p) + (if p(targets[i]) then 1 else 0)
  {
    assert targets[..i + 1] == targets[..i] + [targets[i]];
    CountAppend(targets[..i], [targets[i]], p);
  }

  /** The run went through every target: each verdict was a dict, and the
      counter holds the number of blocking verdicts. */
  ghost predicate TalliedAll(targets: seq<string>, analyze: string -> Json, scanned: seq<string>, failures: nat)
  {
    && scanned == targets
    && (forall k :: 0 <= k < |targets| ==> analyze(targets[k]).JObject?)
    && failures == Count(targets, BlockedBy(analyze))
  }

  /** The run stopped at target `at`, the first whose verdict is not a dict. */
  ghost predicate CrashedAt(targets: seq<string>, analyze: string -> Json, scanned: seq<string>, at: nat)
  {
    && at < |targets|
    && scanned == targets[..at + 1]
    && !analyze(targets[at]).JObject?
    && (forall k :: 0 <= k < at ==> analyze(targets[k]).JObject?)
  }

  /** A verdict on which the loop raises is itself a blocking one, so the
      count of blocking verdicts is positive. */
  lemma CrashBlocks(targets: seq<string>, analyze: string -> Json, i: nat)
    requires i < |targets| && !analyze(targets[i]).JObject?
    ensures Count(targets, BlockedBy(analyze)) > 0
    ensures exists k :: 0 <= k < |targets| && Blocks(analyze(targets[k]))
  {
    assert Blocks(analyze(targets[i]));
    CountZero(targets, BlockedBy(analyze));
  }

  /** The failure tally, and so the exit code, does not depend on the order in
      which `glob` lists the files. */
  lemma GateOrderInsensitive(found1: seq<string>, found2: seq<string>, analyze: string -> Json)
    requires multiset(found1) == multiset(found2)
    ensures Count(ScanTargets(found1), BlockedBy(analyze)) == Count(ScanTargets(found2), BlockedBy(analyze))
  {
    assert multiset(ScanTargets(found1)) == multiset(ScanTargets(found2)) by {
      forall f ensures multiset(ScanTargets(found1))[f] == multiset(ScanTargets(found2))[f] {
      }
    }
    CountPermutation(ScanTargets(found1), ScanTargets(found2), BlockedBy(analyze));
  }

  /** Every verdict `analyze_iac` gives up with lands in the loop's critical
      error branch, and so blocks the deploy. */
  lemma ErrorVerdictsBlock(verdict: Json)
    requires verdict in {SyntaxErrorResult, CorruptFileResult, ApiErrorResult, GeneralErrorResult}
    ensures Classify(Get(verdict.fields, "status")) == CriticalError
    ensures Blocks(verdict)
  {
  }

  /** One scanned file that cannot be read or decoded is enough to make the
      gate exit with 1, whatever the other files and the backend hold. */
  lemma BrokenFileStopsDeploy(found: seq<string>, env: Environment, k: nat)
    requires k < |ScanTargets(found)|
    requires env.read(ScanTargets(found)[k]).Unreadable?
          || !env.parse(env.read(ScanTargets(found)[k]).text).Parsed?
    ensures Count(ScanTargets(found), BlockedBy(AnalyzerFor(env))) > 0
  {
    var targets := ScanTargets(found);
    var verdict := FileVerdict(env, targets[k]);
    assert verdict in {SyntaxErrorResult, CorruptFileResult};
    ErrorVerdictsBlock(verdict);
    assert BlockedBy(AnalyzerFor(env))(targets[k]);
    CountZero(targets, BlockedBy(AnalyzerFor(env)));
  }
}
