/** The decision logic of `app/ocr_client.py`: the option payload, the
    URL-missing and status checks of the submit calls, the `poll_job` state
    machine and `parse_jsonl_results`. Every HTTP exchange is an abstract
    response handed in by the caller; the exception a call raises is an
    `OcrError` value. */
module OcrClient {
  import opened Utils
  import opened Wrappers

  // ------------------------------------------------------------------
  // OcrOptions.to_payload

  datatype OcrOptions = OcrOptions(useDocOrientationClassify: bool, useDocUnwarping: bool, useChartRecognition: bool)

  const OrientationKey := "useDocOrientationClassify"
  const UnwarpingKey := "useDocUnwarping"
  const ChartKey := "useChartRecognition"

  /** `to_payload`: the three options under their camel-case API keys, and nothing else. */
  function ToPayload(o: OcrOptions): (m: map<string, bool>)
    ensures m.Keys == {OrientationKey, UnwarpingKey, ChartKey}
  {
    map[OrientationKey := o.useDocOrientationClassify,
        UnwarpingKey := o.useDocUnwarping,
        ChartKey := o.useChartRecognition]
  }

  /** Reads the options back from a payload; None when a key is missing. */
  function FromPayload(m: map<string, bool>): Option<OcrOptions> {
    if OrientationKey in m && UnwarpingKey in m && ChartKey in m
    then Some(OcrOptions(m[OrientationKey], m[UnwarpingKey], m[ChartKey]))
    else None
  }

  /** Each option travels under its own key: the payload determines the options. */
  lemma PayloadRoundTrip(o: OcrOptions)
    ensures FromPayload(ToPayload(o)) == Some(o)
  {
    var m := ToPayload(o);
    assert m[OrientationKey] == o.useDocOrientationClassify;
    assert m[UnwarpingKey] == o.useDocUnwarping;
    assert m[ChartKey] == o.useChartRecognition;
  }

  lemma PayloadInjective(a: OcrOptions, b: OcrOptions)
    requires ToPayload(a) == ToPayload(b)
    ensures a == b
  {
    PayloadRoundTrip(a);
    PayloadRoundTrip(b);
  }

  // ------------------------------------------------------------------
  // HTTP exchanges and errors

  /** A response: its status, its text, and the JSON member the caller reads
      (`["result"]`, `["data"]["jobId"]`, `["data"]`), None when that member
      is absent. */
  datatype HttpResponse<T> = HttpResponse(status: int, text: string, body: Option<T>)

  /** Which call an HTTP failure came from. */
  datatype Call = SyncOcr | JobSubmit | JobPoll

  datatype OcrError =
    | MissingApiUrl
    | MissingJobUrl
    | HttpFailure(call: Call, status: int, detail: string)
    | MalformedResponse(call: Call)
    | JobFailed(message: string)
    | JobTimeout(last: Option<JobData>)
    | DownloadFailed(status: int)
    | MalformedJsonLine(line: string)

  /** The most response text an error message quotes (`resp.text[:1000]`). */
  const DetailLimit := 1000

  /** Python's `text[:n]`. */
  function Prefix(text: string, n: nat): (r: string)
    ensures |r| <= n && r <= text
    ensures |text| <= n ==> r == text
  {
    if |text| <= n then text else text[..n]
  }

  /** The request `submit_sync_base64` posts: the file (its base64 text is
      not modelled), its type, and the option payload. */
  datatype SyncRequest = SyncRequest(url: string, file: seq<bv8>, fileType: int, options: map<string, bool>)

  /** The multipart request `submit_job` posts. */
  datatype JobRequest = JobRequest(url: string, model: string, optionalPayload: map<string, bool>, file: seq<bv8>)

  const DefaultModel := "PaddleOCR-VL-1.5"

  /** `submit_sync_base64`: nothing is sent without an API URL; any status
      but 200 fails, quoting at most 1000 characters of the text. */
  function SubmitSync<R>(apiUrl: string, file: seq<bv8>, fileType: int, options: OcrOptions,
                         post: SyncRequest -> HttpResponse<R>): (r: Result<R, OcrError>)
    ensures apiUrl == "" ==> r == Err(MissingApiUrl)
    ensures var resp := post(SyncRequest(apiUrl, file, fileType, ToPayload(options)));
      apiUrl != "" ==>
        (r.Ok? <==> resp.status == 200 && resp.body.Some?)
        && (r.Ok? ==> r.value == resp.body.value)
        && (resp.status != 200 ==> r == Err(HttpFailure(SyncOcr, resp.status, Prefix(resp.text, DetailLimit))))
  {
    if apiUrl == "" then Err(MissingApiUrl)
    else
      var resp := post(SyncRequest(apiUrl, file, fileType, ToPayload(options)));
      if resp.status != 200 then Err(HttpFailure(SyncOcr, resp.status, Prefix(resp.text, DetailLimit)))
      else if resp.body.None? then Err(MalformedResponse(SyncOcr))
      else Ok(resp.body.value)
  }

  /** Without an API URL the outcome does not depend on the server at all: no request is made. */
  lemma SubmitSyncNoRequest<R>(file: seq<bv8>, fileType: int, options: OcrOptions,
                               post1: SyncRequest -> HttpResponse<R>, post2: SyncRequest -> HttpResponse<R>)
    ensures SubmitSync("", file, fileType, options, post1) == SubmitSync("", file, fileType, options, post2)
  {
  }

  /** `submit_job`: nothing is sent without a job URL; any status but 200
      fails; on 200 the job id is returned. */
  function SubmitJob(jobUrl: string, file: seq<bv8>, options: OcrOptions,
                     post: JobRequest -> HttpResponse<string>): (r: Result<string, OcrError>)
    ensures jobUrl == "" ==> r == Err(MissingJobUrl)
    ensures var resp := post(JobRequest(jobUrl, DefaultModel, ToPayload(options), file));
      jobUrl != "" ==>
        (r.Ok? <==> resp.status == 200 && resp.body.Some?)
        && (r.Ok? ==> r.value == resp.body.value)
        && (resp.status != 200 ==> r == Err(HttpFailure(JobSubmit, resp.status, Prefix(resp.text, DetailLimit))))
  {
    if jobUrl == "" then Err(MissingJobUrl)
    else
      var resp := post(JobRequest(jobUrl, DefaultModel, ToPayload(options), file));
      if resp.status != 200 then Err(HttpFailure(JobSubmit, resp.status, Prefix(resp.text, DetailLimit)))
      else if resp.body.None? then Err(MalformedResponse(JobSubmit))
      else Ok(resp.body.value)
  }

  lemma SubmitJobNoRequest(file: seq<bv8>, options: OcrOptions,
                           post1: JobRequest -> HttpResponse<string>, post2: JobRequest -> HttpResponse<string>)
    ensures SubmitJob("", file, options, post1) == SubmitJob("", file, options, post2)
  {
  }

  /** `download_jsonl`: `raise_for_status` rejects every 4xx and 5xx status. */
  function DownloadJsonl(resp: HttpResponse<()>): (r: Result<string, OcrError>)
    ensures r.Ok? <==> !(400 <= resp.status < 600)
    ensures r.Ok? ==> r.value == resp.text
  {
    if 400 <= resp.status < 600 then Err(DownloadFailed(resp.status)) else Ok(resp.text)
  }

  // ------------------------------------------------------------------
  // poll_job

  /** The `resultUrl` object of a finished job. */
  datatype ResultUrl = ResultUrl(jsonUrl: Option<string>)

  /** The `data` object of a poll response; absent keys are None. */
  datatype JobData = JobData(state: Option<string>, errorMsg: Option<string>, resultUrl: Option<ResultUrl>)

  /** A poll response after which `poll_job` sleeps and asks again. */
  predicate KeepsPolling(resp: HttpResponse<JobData>) {
    resp.status == 200 && resp.body.Some?
    && resp.body.value.state != Some("done") && resp.body.value.state != Some("failed")
  }

  /** What `poll_job` does with a response that ends the polling. */
  function Verdict(resp: HttpResponse<JobData>): Result<JobData, OcrError>
    requires !KeepsPolling(resp)
  {
    if resp.status != 200 then Err(HttpFailure(JobPoll, resp.status, Prefix(resp.text, DetailLimit)))
    else if resp.body.None? then Err(MalformedResponse(JobPoll))
    else if resp.body.value.state == Some("done") then Ok(resp.body.value)
    else Err(JobFailed(resp.body.value.errorMsg.GetOr("unknown error")))
  }

  /** Polling over the responses obtained before the deadline, `last` being
      the data of the previous response. */
  function PollFrom(responses: seq<HttpResponse<JobData>>, last: Option<JobData>): Result<JobData, OcrError> {
    if responses == [] then Err(JobTimeout(last))
    else if KeepsPolling(responses[0]) then PollFrom(responses[1..], responses[0].body)
    else Verdict(responses[0])
  }

  /** `poll_job(job_id)`: `responses` are the answers to the GETs issued
      while `time.time() < deadline` held, in order. */
  function Poll(jobUrl: string, responses: seq<HttpResponse<JobData>>): Result<JobData, OcrError> {
    if jobUrl == "" then Err(MissingJobUrl) else PollFrom(responses, None)
  }

  /** The `while time.time() < deadline` loop. */
  method PollJob(jobUrl: string, jobId: string, responses: seq<HttpResponse<JobData>>)
    returns (r: Result<JobData, OcrError>)
    ensures r == Poll(jobUrl, responses)
  {
    if jobUrl == "" {
      return Err(MissingJobUrl);
    }
    var last: Option<JobData> := None;
    var i := 0;
    while i < |responses|
      invariant 0 <= i <= |responses|
      invariant PollFrom(responses[i..], last) == PollFrom(responses, None)
    {
      var resp := responses[i];
      assert responses[i..][0] == resp;
      assert responses[i..][1..] == responses[i + 1..];
      if resp.status != 200 {
        return Err(HttpFailure(JobPoll, resp.status, Prefix(resp.text, DetailLimit)));
      }
      if resp.body.None? {
        return Err(MalformedResponse(JobPoll));
      }
      last := resp.body;
      var state := last.value.state;
      if state == Some("done") {
        return Ok(last.value);
      }
      if state == Some("failed") {
        return Err(JobFailed(last.value.errorMsg.GetOr("unknown error")));
      }
      i := i + 1;
    }
    r := Err(JobTimeout(last));
  }

  /** The first response that is not an in-progress 200 decides the outcome. */
  lemma {:induction false} PollFirstVerdict(responses: seq<HttpResponse<JobData>>, last: Option<JobData>, k: nat)
    requires k < |responses| && !KeepsPolling(responses[k])
    requires forall j :: 0 <= j < k ==> KeepsPolling(responses[j])
    ensures PollFrom(responses, last) == Verdict(responses[k])
  {
    if k > 0 {
      PollFirstVerdict(responses[1..], responses[0].body, k - 1);
    }
  }

  /** Timeout exactly when every response before the deadline was an
      in-progress 200, reporting the data of the last one. */
  lemma {:induction false} PollTimeout(responses: seq<HttpResponse<JobData>>, last: Option<JobData>)
    ensures PollFrom(responses, last).Err? && PollFrom(responses, last).error.JobTimeout? <==>
      forall j :: 0 <= j < |responses| ==> KeepsPolling(responses[j])
    ensures (forall j :: 0 <= j < |responses| ==> KeepsPolling(responses[j])) ==>
      PollFrom(responses, last) == Err(JobTimeout(if responses == [] then last else Last(responses).body))
  {
    if responses != [] {
      PollTimeout(responses[1..], responses[0].body);
      if KeepsPolling(responses[0]) {
        assert forall j :: 1 <= j < |responses| ==> responses[j] == responses[1..][j - 1];
        if responses[1..] != [] {
          assert Last(responses[1..]) == Last(responses);
        }
      }
    }
  }

  /** The first `done` answer is returned, provided nothing stopped the polling before it. */
  lemma PollReturnsDone(jobUrl: string, responses: seq<HttpResponse<JobData>>, k: nat)
    requires jobUrl != "" && k < |responses|
    requires forall j :: 0 <= j < k ==> KeepsPolling(responses[j])
    requires responses[k].status == 200 && responses[k].body.Some? && responses[k].body.value.state == Some("done")
    ensures Poll(jobUrl, responses) == Ok(responses[k].body.value)
  {
    PollFirstVerdict(responses, None, k);
  }

  /** The first `failed` answer raises with its `errorMsg`, or "unknown error" when it has none. */
  lemma PollRaisesFailed(jobUrl: string, responses: seq<HttpResponse<JobData>>, k: nat)
    requires jobUrl != "" && k < |responses|
    requires forall j :: 0 <= j < k ==> KeepsPolling(responses[j])
    requires responses[k].status == 200 && responses[k].body.Some? && responses[k].body.value.state == Some("failed")
    ensures Poll(jobUrl, responses) == Err(JobFailed(responses[k].body.value.errorMsg.GetOr("unknown error")))
  {
    PollFirstVerdict(responses, None, k);
  }

  /** A non-200 answer raises at once, whatever follows it. */
  lemma PollRaisesHttp(jobUrl: string, responses: seq<HttpResponse<JobData>>, k: nat)
    requires jobUrl != "" && k < |responses|
    requires forall j :: 0 <= j < k ==> KeepsPolling(responses[j])
    requires responses[k].status != 200
    ensures Poll(jobUrl, responses) == Err(HttpFailure(JobPoll, responses[k].status, Prefix(responses[k].text, DetailLimit)))
  {
    PollFirstVerdict(responses, None, k);
  }

  // ------------------------------------------------------------------
  // parse_jsonl_results

  /** The line boundaries of `str.splitlines`. */
  predicate IsLineBreak(c: char) {
    c == '\n' || c == '\r' || c == '\U{0b}' || c == '\U{0c}' || c == '\U{1c}' || c == '\U{1d}' || c == '\U{1e}'
    || c == '\U{85}' || c == '\U{2028}' || c == '\U{2029}'
  }

  function NormalizeBreaks(s: string): string {
    seq(|s|, i requires 0 <= i < |s| => if IsLineBreak(s[i]) then '\n' else s[i])
  }

  /** The text cut at every line-boundary character. This differs from
      `splitlines` only by extra empty lines (inside "\r\n" and after a final
      boundary), which the blank-line filter drops. */
  function Lines(s: string): seq<string> {
    Split(NormalizeBreaks(s), '\n')
  }

  /** The stripped non-blank lines, in order. */
  function NonBlank(lines: seq<string>): seq<string> {
    if lines == [] then []
    else
      var line := Strip(Last(lines), IsSpace);
      NonBlank(lines[..|lines| - 1]) + (if line == "" then [] else [line])
  }

  /** The pages of the first lines; `decode` is `json.loads(line)["result"]`,
      None when the line is not JSON or has no "result". */
  function ParseLines<R>(lines: seq<string>, decode: string -> Option<R>): Result<seq<R>, OcrError> {
    if lines == [] then Ok([])
    else
      var pages := ParseLines(lines[..|lines| - 1], decode);
      var line := Strip(Last(lines), IsSpace);
      if pages.Err? || line == "" then pages
      else if decode(line).None? then Err(MalformedJsonLine(line))
      else Ok(pages.value + [decode(line).value])
  }

  function ParseJsonl<R>(text: string, decode: string -> Option<R>): Result<seq<R>, OcrError> {
    ParseLines(Lines(text), decode)
  }

  method ParseJsonlResults<R>(jsonlText: string, decode: string -> Option<R>) returns (r: Result<seq<R>, OcrError>)
    ensures r == ParseJsonl(jsonlText, decode)
  {
    var lines := Lines(jsonlText);
    var pages: seq<R> := [];
    for i := 0 to |lines|
      invariant ParseLines(lines[..i], decode) == Ok(pages)
    {
      assert lines[..i + 1][..i] == lines[..i];
      var line := Strip(lines[i], IsSpace);
      if line == "" {
        continue;
      }
      var obj := decode(line);
      if obj.None? {
        ParseLinesErrSticky(lines, i + 1, decode);
        return Err(MalformedJsonLine(line));
      }
      pages := pages + [obj.value];
    }
    assert lines[..|lines|] == lines;
    r := Ok(pages);
  }

  /** One page per non-blank line, in line order; parsing fails exactly when
      some non-blank line does not decode. */
  lemma {:induction false} ParseLinesPages<R>(lines: seq<string>, decode: string -> Option<R>)
    ensures ParseLines(lines, decode).Ok? <==>
      forall k :: 0 <= k < |NonBlank(lines)| ==> decode(NonBlank(lines)[k]).Some?
    ensures ParseLines(lines, decode).Ok? ==>
      |ParseLines(lines, decode).value| == |NonBlank(lines)|
      && forall k :: 0 <= k < |NonBlank(lines)| ==> ParseLines(lines, decode).value[k] == decode(NonBlank(lines)[k]).value
  {
    if lines != [] {
      var init := lines[..|lines| - 1];
      ParseLinesPages(init, decode);
      var line := Strip(Last(lines), IsSpace);
      var nb0 := NonBlank(init);
      if line != "" {
        var nb := NonBlank(lines);
        assert nb == nb0 + [line];
        assert forall k :: 0 <= k < |nb0| ==> nb[k] == nb0[k];
        assert nb[|nb0|] == line;
        if ParseLines(init, decode).Err? {
          var k :| 0 <= k < |nb0| && decode(nb0[k]).None?;
          assert decode(nb[k]).None?;
        } else if decode(line).None? {
          assert decode(nb[|nb0|]).None?;
        } else {
        }
      } else {
        assert NonBlank(lines) == nb0;
      }
    }
  }

  /** A line that fails to decode ends the parsing: later lines do not matter. */
  lemma {:induction false} ParseLinesErrSticky<R>(lines: seq<string>, i: nat, decode: string -> Option<R>)
    requires i <= |lines| && ParseLines(lines[..i], decode).Err?
    ensures ParseLines(lines, decode) == ParseLines(lines[..i], decode)
  {
    if i < |lines| {
      var init := lines[..|lines| - 1];
      assert init[..i] == lines[..i];
      ParseLinesErrSticky(init, i, decode);
    } else {
      assert lines[..i] == lines;
    }
  }

  lemma NormalizeBreaksPlain(s: string)
    requires forall i :: 0 <= i < |s| ==> s[i] == '\n' || !IsLineBreak(s[i])
    ensures NormalizeBreaks(s) == s
  {
  }

  /** Lines written one per "\n" come back as they were. */
  lemma LinesJoin(lines: seq<string>)
    requires |lines| >= 1
    requires forall k, i :: 0 <= k < |lines| && 0 <= i < |lines[k]| ==> !IsLineBreak(lines[k][i])
    ensures Lines(Join(lines, "\n")) == lines
  {
    var text := Join(lines, "\n");
    JoinChars(lines, "\n", c => c == '\n' || !IsLineBreak(c));
    NormalizeBreaksPlain(text);
    SplitJoin(lines, '\n');
  }

  /** Hence a document of one JSON object per line gives one page per line, in order. */
  lemma ParseJsonlOnePerLine<R>(lines: seq<string>, decode: string -> Option<R>)
    requires |lines| >= 1
    requires forall k, i :: 0 <= k < |lines| && 0 <= i < |lines[k]| ==> !IsLineBreak(lines[k][i])
    requires forall k :: 0 <= k < |lines| ==> Strip(lines[k], IsSpace) == lines[k] && lines[k] != ""
    requires forall k :: 0 <= k < |lines| ==> decode(lines[k]).Some?
    ensures ParseJsonl(Join(lines, "\n"), decode).Ok?
    ensures |ParseJsonl(Join(lines, "\n"), decode).value| == |lines|
    ensures forall k :: 0 <= k < |lines| ==> ParseJsonl(Join(lines, "\n"), decode).value[k] == decode(lines[k]).value
  {
    LinesJoin(lines);
    NonBlankKeeps(lines);
    ParseLinesPages(lines, decode);
  }

  lemma {:induction false} NonBlankKeeps(lines: seq<string>)
    requires forall k :: 0 <= k < |lines| ==> Strip(lines[k], IsSpace) == lines[k] && lines[k] != ""
    ensures NonBlank(lines) == lines
  {
    if lines != [] {
      var init := lines[..|lines| - 1];
      NonBlankKeeps(init);
      assert init + [Last(lines)] == lines;
    }
  }
}
