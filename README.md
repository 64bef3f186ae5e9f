# Sentinel verdict engine, modelled in Dafny

This project models the three pieces of sequential logic in the `sentinel-demo`
repository that turn a generative model's free-text answer into a verdict or
a record, and that fold verdicts into the CI exit code.

- **The IaC gate scanner** (`sentinel_scan.py`). Module `SentinelScan`.
  - `analyze_iac` reads one JSON infrastructure file and builds the audit prompt around `json.dumps` of its contents. It posts the prompt to the backend and follows `candidates[0].content.parts[0].text` in the reply envelope.
  - It cleans that text with `replace("```json", "")`, `replace("```", "")` and `strip()`, then decodes it.
  - Every failure becomes a dict with a fixed status token: `ERRO_LEITURA` (two risk titles), `ERRO_API` or `ERRO_GERAL`.
  - The `__main__` loop drops `package.json` and `tsconfig.json` and exits 0 when nothing is left. Otherwise it counts the verdicts whose status is not exactly `APROVADO` and exits 1 when that count is positive.
  - A verdict that is not a dict makes `resultado.get` raise. The loop stops there and Python exits with status 1. The model records this as `GateEnd.Crashed`.
- **The CSPM agent** (`Dashboard/agents/cspm_agent.py`). Module `CspmAgent`.
  - `analyze_infra` loads a document and asks the model about each entry of `resources`.
  - It keeps the part of each answer that `re.search(r'\{.*\}', text, re.DOTALL)` matches, which runs from the first `{` to the last `}`. It appends either the decoded span or a fixed-shape failure record, one per resource, in order.
  - An unreadable document gives a one-element list holding an `error` entry.
  - The method `AnalyzeInfra` builds the list with a loop, as the source does.
- **The code-review agent** (`Dashboard/agents/devsecops_agent.py`). Module `DevSecOpsAgent`.
  - `analyze_code` sends the review prompt with the code embedded. It cleans the answer with the same chain as the gate scanner and decodes it.
  - Anything raised on the way becomes `{"error": True, "message": str(e)}`.
  - `AnalyzeCode` is `DecodeAnswer` applied to the model's answer to `BuildPrompt(code)`.

Shared modules:
- `Json`: JSON values, with a dict as a `map`; `dict.get` returns `JNull` for a missing key, as Python's `None`.
- `PyText`: Python's `isspace`, `replace` with a non-empty pattern, `lstrip`, `rstrip`, `strip` and substring occurrence.
- `Fences`: the fence cleanup chain.
- `Counting`: the counting fold behind the failure counter.

The outside world is passed in as functions:
- decoding: a `Parser`, which returns a value, a `JSONDecodeError` or another exception raised while decoding, each exception with its message;
- serialising: a `Serializer`;
- file contents: a `ReadOutcome`;
- the HTTP backend: `string -> HttpReply`, a function of the prompt;
- the generative model: a `GenAiReply`, a text or the message of what was raised.

So every contract holds for every decoder, backend and model answer.

Some behaviour of the code is kept as written:
- both fence markers are removed wherever they occur in the reply, not only at its ends;
- the gate scanner has no first-`{`-to-last-`}` fallback: prose around the JSON makes the decode fail, which is `ERRO_GERAL`;
- the CSPM agent scans for braces but strips no fences;
- no normaliser checks the decoded verdict: a `REPROVADO` verdict without `risco` simply blocks, and any dict is accepted as a verdict;
- in the CSPM agent, an entry of `resources` that is not a dict aborts the whole call (`InfraOutcome.Uncaught`), because `resource.get` in the prompt is outside the `try`. The same holds for a document that is not a dict and for a non-iterable `resources`.

## Model

| member | source | states |
|---|---|---|
| PyText.IsSpaceAscii | sentinel_scan.py:57 | `IsSpace`, the whitespace `strip()` removes is Python's `str.isspace` set: on ASCII exactly space, tab, line feed, carriage return, vertical tab, form feed and the four separators U+001C to U+001F, and nothing above U+3000 |
| PyText.Strip | sentinel_scan.py:57 | the result has no whitespace at either end, and it is the infix of the input left between two all-whitespace runs |
| PyText.StripUnique | sentinel_scan.py:57 | whenever a text is a trimmed core between two whitespace runs, `strip()` returns exactly that core |
| PyText.ReplaceAll | sentinel_scan.py:57 | `replace` with an empty replacement never makes a text longer |
| PyText.ReplaceAbsent | sentinel_scan.py:57 | `replace` leaves a text in which the pattern does not occur unchanged |
| PyText.ReplaceAtFirst | sentinel_scan.py:57 | `replace` replaces the leftmost occurrence and resumes the search right after it; with ReplaceAbsent this determines `replace` on every text |
| PyText.FrameLayout | sentinel_scan.py:26-43 | a prompt is its fixed head at offset 0, then the payload verbatim right after the head, then the fixed tail; both modules build their prompt as `PromptHead + payload + PromptTail` |
| PyText.FrameInjective | sentinel_scan.py:26-43 | two payloads framed by the same head and tail give the same prompt only if they are equal, so different serialised files give different prompts |
| Fences.CleanReply | sentinel_scan.py:57 | the cleaned reply contains neither ```` ```json ```` nor ```` ``` ```` anywhere, and has no leading or trailing whitespace |
| Fences.DeleteFencesLeavesNone | sentinel_scan.py:57 | one left-to-right pass deleting ```` ``` ```` never leaves a ```` ``` ````, even where deletions bring backticks together |
| Fences.CleanKeepsPlainReply | Dashboard/agents/devsecops_agent.py:30 | a reply that is fence-free and already trimmed passes through the cleanup unchanged |
| Fences.CleanIdempotent | Dashboard/agents/devsecops_agent.py:30 | cleaning twice gives the same text as cleaning once |
| Fences.CleanUnwrapsCodeBlock | sentinel_scan.py:57 | a reply of the form ```` ```json ```` + body + ```` ``` ```` with a fence-free body is cleaned to the stripped body, even when the body ends in backticks |
| Counting.Count | sentinel_scan.py:79-103 | the failure counter is at most the number of files scanned |
| Counting.CountZero | sentinel_scan.py:106-111 | the count is zero exactly when no element satisfies the condition |
| Counting.CountPermutation | sentinel_scan.py:81-103 | two lists with the same elements, in any order, have the same count |
| SentinelScan.BuildPrompt | sentinel_scan.py:26-43 | the audit prompt is the fixed introduction with the three blocking criteria, then the serialised IaC verbatim, then the response schema |
| SentinelScan.PromptNamesSchema | sentinel_scan.py:36-42 | every prompt names the keys `status`, `risco`, `detalhe`, `correcao` and the quoted tokens `APROVADO` and `REPROVADO` |
| SentinelScan.ReplyText | sentinel_scan.py:56 | a text is found exactly when `candidates[0].content.parts[0].text` leads through dicts holding each key and non-empty lists to a string, and it is that string; otherwise there is no text, which the caller turns into `ERRO_GERAL` |
| SentinelScan.InterpretReply | sentinel_scan.py:49-63 | a failed request or any later failure (envelope not decodable, text path missing, cleaned text not decodable) gives `ERRO_GERAL`; a non-200 status gives `ERRO_API`; otherwise the result is the decoding of the cleaned text, a text with no fence and no surrounding whitespace |
| SentinelScan.AnalyzeIac | sentinel_scan.py:10-63 | a file whose decoding raises `JSONDecodeError` gives `ERRO_LEITURA`/"JSON Malformado (Syntax Error)"; a file that cannot be opened, or whose decoding raises any other exception, gives `ERRO_LEITURA`/"Arquivo Corrompido"; a decoded one gives the interpretation of the backend's reply to the prompt for its serialisation; every input has a result, so no exception escapes |
| SentinelScan.ReadErrorsDistinguished | sentinel_scan.py:17-23 | the two read failures share the `ERRO_LEITURA` status and differ in their risk title |
| SentinelScan.UnreadableSkipsBackend | sentinel_scan.py:13-23 | a file that cannot be read or decoded gets a read error whatever the backend would answer |
| SentinelScan.OnlyThePromptIsSent | sentinel_scan.py:47-59 | the verdict for a decoded file depends on the backend only through its reply to that file's prompt |
| SentinelScan.Classify | sentinel_scan.py:83-103 | a status lands in the uncounted branch exactly when it is the string `APROVADO` |
| SentinelScan.Blocks | sentinel_scan.py:83-103 | a verdict is counted against the deploy exactly when it is not a dict (the loop raises on it) or its status falls in any branch but the `APROVADO` one |
| SentinelScan.ErrorVerdictsBlock | sentinel_scan.py:92-96 | each of the four error dicts of `analyze_iac` lands in the critical-error branch and blocks |
| SentinelScan.ScanTargets | sentinel_scan.py:71 | a file is scanned exactly when it was found and is not `package.json` or `tsconfig.json`; each kept name keeps its number of occurrences |
| SentinelScan.RunGate | sentinel_scan.py:66-111 | no file left after the filter means nothing scanned and exit 0; otherwise the exit code is 1 exactly when some target's verdict blocks, and 0 when every verdict is a dict with status `APROVADO`; a full run tallies every target, a crash stops at the first non-dict; only found, non-excluded files are scanned |
| SentinelScan.ScanAll | sentinel_scan.py:79-111 | the loop either tallies all targets in order with the counter equal to the number of blocking verdicts, or stops at the first non-dict verdict; either way the exit code is 1 exactly when the number of blocking verdicts is positive |
| SentinelScan.CrashBlocks | sentinel_scan.py:82-83 | a target on which `resultado.get` raises is itself a blocking verdict, so exiting 1 there agrees with the count |
| SentinelScan.GateOrderInsensitive | sentinel_scan.py:68-103 | the failure count, and with RunGate the exit code, is the same for any order in which `glob` lists the same files |
| SentinelScan.BrokenFileStopsDeploy | sentinel_scan.py:13-23 | one scanned file that cannot be read or decoded makes the failure count positive, so the gate exits 1 |
| CspmAgent.FirstOpen | Dashboard/agents/cspm_agent.py:40 | the index of the first `{`, or the length when there is none |
| CspmAgent.LastClose | Dashboard/agents/cspm_agent.py:40 | the index of the last `}`, or -1 when there is none |
| CspmAgent.BraceSpan | Dashboard/agents/cspm_agent.py:40-42 | a span exists exactly when some `{` precedes some `}`; the span starts with `{` and ends with `}`; a text that starts with `{` and ends with `}` is returned whole, nested braces included |
| CspmAgent.BraceSpanIsRegexSearch | Dashboard/agents/cspm_agent.py:40-42 | there is no span exactly when no infix matches `\{.*\}`; otherwise the span is the match that starts leftmost and, from there, is longest, as the greedy search returns |
| CspmAgent.FailureRecord | Dashboard/agents/cspm_agent.py:48-55 | the record has exactly the five keys, `resource_id` the resource's `id` or `"unknown"`, `risco` "Falha na Resposta", `gravidade` "ERRO", `correcao_cli` "N/A" and the exception text in `descricao` |
| CspmAgent.AnalyzeResource | Dashboard/agents/cspm_agent.py:34-55 | a raised call gives the failure record with its message; no span gives the failure record "IA não retornou um JSON válido"; a span gives its decoding, or the failure record with the decoder's message |
| CspmAgent.RecordOrigin | Dashboard/agents/cspm_agent.py:38-55 | every record is either a failure record naming the resource or the decoding of a `{`…`}` infix of the model's text |
| CspmAgent.SpanOfFramed | Dashboard/agents/cspm_agent.py:40-42 | the brace span of a braced text between prose without `{` before it and without `}` after it is that braced text |
| CspmAgent.SurroundingTextIgnored | Dashboard/agents/cspm_agent.py:38-43 | prose before the object without `{` and prose after it without `}` do not change the extracted span or the record |
| CspmAgent.Load | Dashboard/agents/cspm_agent.py:8-12 | the document is loaded exactly when the file opens and decodes, and it is the decoded value; otherwise the failure carries the message of the exception from opening or from decoding |
| CspmAgent.AnalyzeInfra | Dashboard/agents/cspm_agent.py:7-56 | an unreadable or undecodable file gives one `error` entry and no analysis; no `resources` key gives an empty list; for a list, the call completes exactly when every entry is a dict, and then holds exactly one record per resource, in order, each the analysis of that resource's answer; a non-dict document always aborts; a `resources` value that is not a list aborts unless it is an empty string or an empty dict |
| DevSecOpsAgent.BuildPrompt | Dashboard/agents/devsecops_agent.py:9-27 | the review prompt starts with the fixed introduction and schema, holds the code verbatim right after it, and is longer than the code by exactly the fixed text |
| DevSecOpsAgent.PromptCarriesCode | Dashboard/agents/devsecops_agent.py:9-27 | the review prompt holds the code verbatim right after the fixed introduction and schema, and different code texts give different prompts |
| DevSecOpsAgent.AnalyzeCode | Dashboard/agents/devsecops_agent.py:5-33 | if the model raises on the prompt built from the code, the result is the error dict with its message; if it answers, the result is the decoding of the cleaned answer, or the error dict with the decoder's message; every result is an error dict or the decoding of a text with no fence and no surrounding whitespace |
| DevSecOpsAgent.DecodeAnswer | Dashboard/agents/devsecops_agent.py:28-33 | a raised call gives `{"error": True, "message": …}` with its message; otherwise the cleaned answer's decoding, or the error dict with the decoder's message |
| DevSecOpsAgent.AnswerIsErrorOrCleanDecoding | Dashboard/agents/devsecops_agent.py:28-33 | the result is always an error dict or the decoding of a text with no fence and no surrounding whitespace |
| DevSecOpsAgent.CodeBlockAnswerDecoded | Dashboard/agents/devsecops_agent.py:30-31 | an answer wrapped in a JSON code block is decoded from the stripped contents of the block |

## Left out

- Network, model and environment: `requests.post`, `genai.configure`, `genai.GenerativeModel`, `generate_content`, `os.environ` and the API key, the URL, the headers and the request body wrapping the prompt. The backend and the model are function parameters. Creating the model client is assumed not to raise. Every backend and model call is assumed to return: `requests.post` at sentinel_scan.py:50 passes no timeout, so a request that hangs, leaving the gate without an exit code, is not modelled.
- Reading files and `glob.glob`: file contents and the list of names found are inputs.
- Console output: every `print`, with its emoji and texts, and the traceback printed on a crash. Only the status, record or exit code each path produces is kept.
- `time.sleep(2)` in the CSPM loop: it has no effect on the results.
- JSON decoding and serialisation (`json.load`, `json.loads`, `response.json`, `json.dumps`) are abstract parameters. No property of a particular decoder is assumed, not even that it decodes what the serialiser writes.
- Exception messages (`str(e)`) are whatever the parameter functions report. Python's own message texts are not modelled.
- Dict key order is lost, because a dict is a `map`. It matters only inside `json.dumps`, which is abstract.
- JSON numbers are reals. Python's `int`/`float` distinction is not modelled; no branch of the core depends on it.
- The CSPM prompt text (Dashboard/agents/cspm_agent.py:19-33) is not modelled. The model's answer is a parameter `reply(k, resource)` of the resource's position and value, which covers every prompt built from the resource.
- The gate loop takes the per-file verdict function as a parameter. `SentinelScan.AnalyzerFor(env)` is `analyze_iac` in a given environment, and `BrokenFileStopsDeploy` is stated for it; the loop's contract holds for any verdict function.
