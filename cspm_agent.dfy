/** The per-resource cloud posture agent: `analyze_infra` asks the model about
    every entry of the document's `resources` list and collects one record
    per entry, in order. The JSON candidate in a reply is found with the
    greedy search `re.search(r'\{.*\}', text, re.DOTALL)`. */
module CspmAgent {
  import opened Json

  /** Index of the first `{`, or `|s|` when there is none. */
  function FirstOpen(s: string): (i: nat)
    ensures i <= |s|
    ensures i < |s| ==> s[i] == '{'
    ensures forall k :: 0 <= k < i ==> s[k] != '{'
  {
    if s == [] then 0
    else if s[0] == '{' then 0
    else 1 + FirstOpen(s[1..])
  }

  /** Index of the last `}`, or -1 when there is none. */
  function LastClose(s: string): (j: int)
    ensures -1 <= j < |s|
    ensures j >= 0 ==> s[j] == '}'
    ensures forall k :: j < k < |s| ==> s[k] != '}'
  {
    if s == [] then -1
    else if s[|s| - 1] == '}' then |s| - 1
    else LastClose(s[..|s| - 1])
  }

  /** `match.group(0)` of `re.search(r'\{.*\}', s, re.DOTALL)`, or None when
      there is no match: the text from the first `{` to the last `}`. */
  function BraceSpan(s: string): (r: Option<string>)
    ensures r.Some? <==> exists i, j :: 0 <= i < j < |s| && s[i] == '{' && s[j] == '}'
    ensures r.Some? ==> |r.value| >= 2 && r.value[0] == '{' && r.value[|r.value| - 1] == '}'
    ensures |s| >= 2 && s[0] == '{' && s[|s| - 1] == '}' ==> r == Some(s)
  {
    var i := FirstOpen(s);
    var j := LastClose(s);
    assert |s| >= 2 && s[0] == '{' && s[|s| - 1] == '}' ==> i == 0 && j == |s| - 1 && s[i..j + 1] == s;
    if i < j then Some(s[i..j + 1]) else None
  }

  /** The texts the pattern `\{.*\}` matches when `.` matches every character. */
  predicate BraceMatch(t: string)
  {
    |t| >= 2 && t[0] == '{' && t[|t| - 1] == '}'
  }

  /** `BraceSpan` is what the regular-expression search returns: the match
      that starts leftmost and, from there, is longest (greedy `.*`), and no
      match at all when no infix matches. */
  lemma BraceSpanIsRegexSearch(s: string)
    ensures BraceSpan(s).None? <==> forall i, e :: 0 <= i <= e <= |s| ==> !BraceMatch(s[i..e])
    ensures BraceSpan(s).Some? ==> exists i, e ::
      && 0 <= i <= e <= |s|
      && BraceSpan(s).value == s[i..e]
      && BraceMatch(s[i..e])
      && (forall i', e' :: 0 <= i' < i && i' <= e' <= |s| ==> !BraceMatch(s[i'..e']))
      && (forall e' :: e < e' <= |s| ==> !BraceMatch(s[i..e']))
  {
    var i := FirstOpen(s);
    var j := LastClose(s);
    forall i', e' | 0 <= i' <= e' <= |s| && BraceMatch(s[i'..e'])
      ensures i <= i' && e' <= j + 1 && i' < e' - 1
    {
      assert s[i'..e'][0] == s[i'];
      assert s[i'..e'][e' - i' - 1] == s[e' - 1];
    }
    if i < j {
      assert BraceMatch(s[i..j + 1]);
    }
  }

  /** The message of the `ValueError` raised when the reply holds no `{...}`. */
  const NoJsonMessage: string := "IA não retornou um JSON válido"

  /** `resource.get('id', 'unknown')`. */
  function ResourceId(resource: map<string, Json>): Json
  {
    GetOr(resource, "id", JString("unknown"))
  }

  /** The record appended for a resource whose reply could not be used; `why`
      is `str(e)` of the exception. */
  function FailureRecord(resource: map<string, Json>, why: string): (r: Json)
    ensures r.JObject? && r.fields.Keys == {"resource_id", "risco", "gravidade", "descricao", "correcao_cli"}
    ensures "id" in resource ==> r.fields["resource_id"] == resource["id"]
    ensures "id" !in resource ==> r.fields["resource_id"] == JString("unknown")
    ensures r.fields["risco"] == JString("Falha na Resposta") && r.fields["gravidade"] == JString("ERRO")
    ensures r.fields["correcao_cli"] == JString("N/A")
    ensures r.fields["descricao"] == JString("Erro de processamento: " + why)
  {
    JObject(map[
      "resource_id" := ResourceId(resource),
      "risco" := JString("Falha na Resposta"),
      "gravidade" := JString("ERRO"),
      "descricao" := JString("Erro de processamento: " + why),
      "correcao_cli" := JString("N/A")])
  }

  /** The body of the `try` for one resource, with its `except`: the decoded
      brace span of the reply, or a failure record naming the resource. */
  function AnalyzeResource(resource: map<string, Json>, reply: GenAiReply, parse: Parser): (r: Json)
    ensures reply.Raised? ==> r == FailureRecord(resource, reply.message)
    ensures reply.Replied? && BraceSpan(reply.text).None? ==> r == FailureRecord(resource, NoJsonMessage)
    ensures reply.Replied? && BraceSpan(reply.text).Some? ==>
      match parse(BraceSpan(reply.text).value)
      case Parsed(v) => r == v
      case ParseError(why) => r == FailureRecord(resource, why)
      case ParserRaised(why) => r == FailureRecord(resource, why)
  {
    match reply
    case Raised(why) => FailureRecord(resource, why)
    case Replied(text) =>
      match BraceSpan(text)
      case None => FailureRecord(resource, NoJsonMessage)
      case Some(candidate) =>
        match parse(candidate)
        case Parsed(v) => v
        case ParseError(why) => FailureRecord(resource, why)
        case ParserRaised(why) => FailureRecord(resource, why)
  }

  /** Every record comes from one of two places: it is a failure record
      naming the resource, or it is the decoding of a brace-delimited infix
      of the model's text. */
  lemma RecordOrigin(resource: map<string, Json>, reply: GenAiReply, parse: Parser)
    ensures || (exists why :: AnalyzeResource(resource, reply, parse) == FailureRecord(resource, why))
            || (&& reply.Replied?
                && exists i, e :: && 0 <= i <= e <= |reply.text|
                                  && BraceMatch(reply.text[i..e])
                                  && parse(reply.text[i..e]) == Parsed(AnalyzeResource(resource, reply, parse)))
  {
    var r := AnalyzeResource(resource, reply, parse);
    match reply
    case Raised(why) =>
      assert r == FailureRecord(resource, why);
    case Replied(text) =>
      match BraceSpan(text)
      case None =>
        assert r == FailureRecord(resource, NoJsonMessage);
      case Some(candidate) =>
        match parse(candidate)
        case Parsed(v) =>
          var i, e := FirstOpen(text), LastClose(text) + 1;
          assert candidate == text[i..e] && BraceMatch(text[i..e]);
          assert parse(text[i..e]) == Parsed(r);
        case ParseError(why) =>
          assert r == FailureRecord(resource, why);
        case ParserRaised(why) =>
          assert r == FailureRecord(resource, why);
  }

  /** Text around the object, such as a sentence before it or a code fence
      around it, is ignored as long as it holds no brace. */
  lemma SurroundingTextIgnored(resource: map<string, Json>, before: string, json: string, after: string, parse: Parser)
    requires |json| >= 2 && json[0] == '{' && json[|json| - 1] == '}'
    requires forall k :: 0 <= k < |before| ==> before[k] != '{'
    requires forall k :: 0 <= k < |after| ==> after[k] != '}'
    ensures BraceSpan(before + json + after) == Some(json)
    ensures AnalyzeResource(resource, Replied(before + json + after), parse)
         == AnalyzeResource(resource, Replied(json), parse)
  {
    SpanOfFramed(before, json, after);
    assert BraceSpan(json) == Some(json);
  }

  /** The brace span of a braced text between brace-free prose. */
  lemma SpanOfFramed(before: string, json: string, after: string)
    requires |json| >= 2 && json[0] == '{' && json[|json| - 1] == '}'
    requires forall k :: 0 <= k < |before| ==> before[k] != '{'
    requires forall k :: 0 <= k < |after| ==> after[k] != '}'
    ensures BraceSpan(before + json + after) == Some(json)
  {
    var s := before + json + after;
    var e := |before| + |json|;
    assert forall k :: 0 <= k < |before| ==> s[k] == before[k];
    assert forall k :: e <= k < |s| ==> s[k] == after[k - e];
    FirstOpenAt(s, |before|);
    LastCloseAt(s, e - 1);
    assert s[|before|..e] == json;
  }

  /** The first `{` is the one with no `{` before it. */
  lemma FirstOpenAt(s: string, n: nat)
    requires n < |s| && s[n] == '{'
    requires forall k :: 0 <= k < n ==> s[k] != '{'
    ensures FirstOpen(s) == n
  {
  }

  /** The last `}` is the one with no `}` after it. */
  lemma LastCloseAt(s: string, n: nat)
    requires n < |s| && s[n] == '}'
    requires forall k :: n < k < |s| ==> s[k] != '}'
    ensures LastClose(s) == n
  {
  }

  /** The single entry returned when the input file cannot be read or decoded. */
  function ReadErrorRecord(why: string): Json
  {
    JObject(map["error" := JString("Erro ao ler arquivo: " + why)])
  }

  /** `open` plus `json.load` of the input file. */
  datatype Loaded = Document(doc: Json) | LoadFailed(why: string)

  function Load(file: ReadOutcome, parse: Parser): (r: Loaded)
    ensures r.Document? <==> file.Contents? && parse(file.text).Parsed?
    ensures r.Document? ==> parse(file.text) == Parsed(r.doc)
    ensures r.LoadFailed? && file.Unreadable? ==> r.why == file.reason
    ensures r.LoadFailed? && file.Contents? ==> !parse(file.text).Parsed? && parse(file.text).message == r.why
  {
    match file
    case Unreadable(why) => LoadFailed(why)
    case Contents(text) =>
      match parse(text)
      case Parsed(doc) => Document(doc)
      case ParseError(why) => LoadFailed(why)
      case ParserRaised(why) => LoadFailed(why)
  }

  /** What `analyze_infra` does: it returns its list, or an exception escapes
      it. The exceptions that escape are raised outside the per-resource
      `try`: `data.get` on a document that is not a dict, iterating a
      `resources` value that is not iterable, and `resource.get` (in the
      prompt) on an entry that is not a dict. */
  datatype InfraOutcome = Completed(results: seq<Json>) | Uncaught

  /** Every entry is a dict. */
  ghost predicate AllDicts(items: seq<Json>)
  {
    forall k :: 0 <= k < |items| ==> items[k].JObject?
  }

  /** One record per resource, in resource order. */
  ghost predicate OneRecordEach(results: seq<Json>, items: seq<Json>, reply: (nat, map<string, Json>) -> GenAiReply, parse: Parser)
    requires AllDicts(items)
  {
    && |results| == |items|
    && forall k :: 0 <= k < |items| ==> results[k] == AnalyzeResource(items[k].fields, reply(k, items[k].fields), parse)
  }

  /** `analyze_infra(file_path)`. `reply(k, resource)` is the model's answer to
      the k-th request, the one about `resource`. */
  method AnalyzeInfra(file: ReadOutcome, parse: Parser, reply: (nat, map<string, Json>) -> GenAiReply)
    returns (out: InfraOutcome)
    ensures Load(file, parse).LoadFailed? ==> out == Completed([ReadErrorRecord(Load(file, parse).why)])
    ensures Load(file, parse).Document? && !Load(file, parse).doc.JObject? ==> out == Uncaught
    ensures Load(file, parse).Document? && Load(file, parse).doc.JObject? ==>
      var data := Load(file, parse).doc.fields;
      && ("resources" !in data ==> out == Completed([]))
      && ("resources" in data ==>
            match data["resources"]
            case JArray(items) =>
              && (out.Completed? <==> AllDicts(items))
              && (out.Completed? ==> OneRecordEach(out.results, items, reply, parse))
            case JString(chars) => out == (if chars == [] then Completed([]) else Uncaught)
            case JObject(keys) => out == (if keys == map[] then Completed([]) else Uncaught)
            case _ => out == Uncaught)
  {
    var data: map<string, Json>;
    match Load(file, parse) {
      case LoadFailed(why) =>
        return Completed([ReadErrorRecord(why)]);
      case Document(doc) =>
        if !doc.JObject? {
          return Uncaught;
        }
        data := doc.fields;
    }
    var items: seq<Json>;
    match GetOr(data, "resources", JArray([])) {
      case JArray(xs) =>
        items := xs;
      case JString(chars) =>
        // Iterating a string yields one-character strings, which have no `get`.
        if chars != [] {
          return Uncaught;
        }
        items := [];
      case JObject(keys) =>
        // Iterating a dict yields its keys, which are strings.
        if keys != map[] {
          return Uncaught;
        }
        items := [];
      case _ =>
        // None, a bool or a number is not iterable.
        return Uncaught;
    }
    var results: seq<Json> := [];
    var i := 0;
    while i < |items|
      invariant 0 <= i <= |items|
      invariant AllDicts(items[..i]) && OneRecordEach(results, items[..i], reply, parse)
    {
      if !items[i].JObject? {
        return Uncaught;
      }
      var resource := items[i].fields;
      var record := AnalyzeResource(resource, reply(i, resource), parse);
      RecordStep(results, items, i, reply, parse);
      results := results + [record];
      i := i + 1;
    }
    assert items[..i] == items;
    return Completed(results);
  }

  /** Appending the record of the next resource keeps one record per
      resource. */
  lemma RecordStep(results: seq<Json>, items: seq<Json>, i: nat, reply: (nat, map<string, Json>) -> GenAiReply, parse: Parser)
    requires i < |items| && items[i].JObject?
    requires AllDicts(items[..i]) && OneRecordEach(results, items[..i], reply, parse)
    ensures AllDicts(items[..i + 1])
    ensures OneRecordEach(results + [AnalyzeResource(items[i].fields, reply(i, items[i].fields), parse)], items[..i + 1], reply, parse)
  {
    assert items[..i + 1] == items[..i] + [items[i]];
  }
}
