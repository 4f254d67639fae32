/**
 * The HTTP client of the reservation site (`YokohamaFacilityAPI`): request
 * spacing, retries with exponential backoff, request-body shaping (multipart
 * form data for token dictionaries), session initialisation with the
 * anti-forgery token, and the facility search with its follow-up detail page.
 *
 * The network, the clock and the random generator are not modelled as such:
 * the server's answer to each attempt of each call is given, time advances
 * only by the program's own sleeps, and random text is passed in.
 */
module ApiClient {
  import opened Text
  import opened Dict
  import Parsers

  // ----- configuration -----

  datatype ApiConfig = ApiConfig(
    baseUrl: string,
    retryTimes: int,
    retryDelay: real,
    requestInterval: real,
    sessionExpire: real)

  const DefaultConfig := ApiConfig("https://www.shisetsu.city.yokohama.lg.jp/user", 3, 5.0, 3.0, 1800.0)
  const DefaultAreas: seq<int> := [5, 14, 15]
  const DefaultWeekdays: seq<int> := [1, 2, 3, 4, 5, 6, 7, 8]
  const DefaultTimeFrom := "0900"
  const DefaultTimeTo := "2100"
  const DefaultPurposeCategory := 1
  const DefaultPlaceClassCategory := 1

  const TokenField := "__RequestVerificationToken"

  // ----- request spacing -----

  /**
   * The sleep before a request: none for the first request (no earlier request
   * time) or when the interval has already passed, otherwise the rest of it.
   */
  function WaitTime(last: real, now: real, interval: real): (w: real)
    ensures w >= 0.0
    ensures last > 0.0 ==> now + w >= last + interval
    ensures last > 0.0 && now - last < interval ==> now + w == last + interval
    ensures w > 0.0 <==> last > 0.0 && now - last < interval
  {
    if last > 0.0 && now - last < interval then interval - (now - last) else 0.0
  }

  // ----- retries -----

  /** The server's reply to one attempt: a transport failure, or a response. */
  datatype Attempt<B> = TransportError | Answer(status: int, body: B)

  /** What `_make_request` ends with: a response, a re-raised error, or nothing (no attempt allowed). */
  datatype Outcome<B> = Returned(status: int, body: B) | Raised | NoAttempt

  /** `raise_for_status` raises for the 4xx and 5xx status codes. */
  predicate IsHttpError(status: int) {
    400 <= status < 600
  }

  /** An attempt fails when the transport fails, or when the status is checked and is an error. */
  predicate Fails<B>(a: Attempt<B>, raiseForStatus: bool) {
    a.TransportError? || (raiseForStatus && IsHttpError(a.status))
  }

  /** The reply to attempt `i` (0-based); attempts the given replies do not cover fail in transport. */
  function AnswerAt<B>(answers: seq<Attempt<B>>, i: nat): Attempt<B> {
    if i < |answers| then answers[i] else TransportError
  }

  function Pow2(k: nat): (p: nat)
    ensures p >= 1
  {
    if k == 0 then 1 else 2 * Pow2(k - 1)
  }

  /** The first attempt below `max` that does not fail, searching from `from`. */
  function FirstSuccess<B>(answers: seq<Attempt<B>>, raiseForStatus: bool, from: nat, max: nat): (r: Option<nat>)
    ensures r.Some? ==> from <= r.value < max && !Fails(AnswerAt(answers, r.value), raiseForStatus)
    ensures r.Some? ==> forall j :: from <= j < r.value ==> Fails(AnswerAt(answers, j), raiseForStatus)
    ensures r.None? ==> forall j :: from <= j < max ==> Fails(AnswerAt(answers, j), raiseForStatus)
    decreases max - from
  {
    if from >= max then None
    else if !Fails(AnswerAt(answers, from), raiseForStatus) then Some(from)
    else FirstSuccess(answers, raiseForStatus, from + 1, max)
  }

  /** The outcome of `_make_request`'s retry loop with at most `max` attempts. */
  function RetryOutcome<B>(answers: seq<Attempt<B>>, raiseForStatus: bool, max: int): Outcome<B> {
    if max <= 0 then NoAttempt
    else
      var s := FirstSuccess(answers, raiseForStatus, 0, max);
      if s.Some? then Returned(AnswerAt(answers, s.value).status, AnswerAt(answers, s.value).body) else Raised
  }

  /** The number of attempts the retry loop makes. */
  function RetryAttempts<B>(answers: seq<Attempt<B>>, raiseForStatus: bool, max: int): nat {
    if max <= 0 then 0
    else
      var s := FirstSuccess(answers, raiseForStatus, 0, max);
      if s.Some? then s.value + 1 else max
  }

  /** The sleep after failure `k + 1`: the retry delay doubled `k` times. */
  function BackoffDelay(delay: real, k: nat): real {
    delay * Pow2(k) as real
  }

  /** The backoff sleeps after the first `n` failures. */
  function Backoff(delay: real, n: nat): (r: seq<real>)
    ensures |r| == n && forall k :: 0 <= k < n ==> r[k] == BackoffDelay(delay, k)
  {
    if n == 0 then [] else Backoff(delay, n - 1) + [BackoffDelay(delay, n - 1)]
  }

  function Sum(s: seq<real>): real {
    if s == [] then 0.0 else Sum(s[..|s| - 1]) + s[|s| - 1]
  }

  /**
   * `_make_request`'s retry loop: returns the first response that does not fail,
   * sleeping with exponential backoff between attempts, and re-raises after the
   * last allowed attempt fails.
   */
  method SendWithRetries<B>(answers: seq<Attempt<B>>, raiseForStatus: bool, max: int, delay: real)
    returns (outcome: Outcome<B>, attempts: nat, sleeps: seq<real>)
    ensures outcome == RetryOutcome(answers, raiseForStatus, max)
    ensures attempts == RetryAttempts(answers, raiseForStatus, max)
    ensures sleeps == Backoff(delay, if attempts == 0 then 0 else attempts - 1)
  {
    var count: nat := 0;
    sleeps := [];
    while count < max
      invariant count == 0 || count < max
      invariant max > 0 ==> FirstSuccess(answers, raiseForStatus, 0, max) == FirstSuccess(answers, raiseForStatus, count, max)
      invariant sleeps == Backoff(delay, count)
      decreases max - count
    {
      count := count + 1;
      var a := AnswerAt(answers, count - 1);
      if !Fails(a, raiseForStatus) {
        assert FirstSuccess(answers, raiseForStatus, count - 1, max) == Some(count - 1);
        return Returned(a.status, a.body), count, sleeps;
      }
      if count < max {
        sleeps := sleeps + [BackoffDelay(delay, count - 1)];
      } else {
        return Raised, count, sleeps;
      }
    }
    return NoAttempt, 0, [];
  }

  /** The retry loop returns a response exactly when some allowed attempt does not fail, and it is the first such. */
  lemma RetrySucceedsIff<B>(answers: seq<Attempt<B>>, raiseForStatus: bool, max: int)
    ensures RetryOutcome(answers, raiseForStatus, max).Returned? <==>
      exists i :: 0 <= i < max && !Fails(AnswerAt(answers, i), raiseForStatus)
    ensures RetryOutcome(answers, raiseForStatus, max).Returned? ==>
      var n := RetryAttempts(answers, raiseForStatus, max);
      1 <= n <= max && !Fails(AnswerAt(answers, n - 1), raiseForStatus)
      && RetryOutcome(answers, raiseForStatus, max)
         == Returned(AnswerAt(answers, n - 1).status, AnswerAt(answers, n - 1).body)
      && forall j :: 0 <= j < n - 1 ==> Fails(AnswerAt(answers, j), raiseForStatus)
    ensures RetryOutcome(answers, raiseForStatus, max).Raised? <==>
      max >= 1 && forall j :: 0 <= j < max ==> Fails(AnswerAt(answers, j), raiseForStatus)
  {
    if max > 0 && exists i :: 0 <= i < max && !Fails(AnswerAt(answers, i), raiseForStatus) {
      var i :| 0 <= i < max && !Fails(AnswerAt(answers, i), raiseForStatus);
      assert FirstSuccess(answers, raiseForStatus, 0, max).Some?;
    }
  }

  /** With `raise_for_status`, a returned response never has a 4xx or 5xx status. */
  lemma ReturnedStatusChecked<B>(answers: seq<Attempt<B>>, max: int)
    requires RetryOutcome(answers, true, max).Returned?
    ensures !IsHttpError(RetryOutcome(answers, true, max).status)
  {
    var s := FirstSuccess(answers, true, 0, max);
    assert s.Some? && !Fails(AnswerAt(answers, s.value), true);
  }

  /** Under the default configuration a call makes at most 3 attempts and sleeps 5 s then 10 s at most. */
  lemma DefaultRetrySchedule<B>(answers: seq<Attempt<B>>, raiseForStatus: bool)
    ensures RetryAttempts(answers, raiseForStatus, DefaultConfig.retryTimes) <= 3
    ensures RetryOutcome(answers, raiseForStatus, DefaultConfig.retryTimes) != NoAttempt
    ensures var n := RetryAttempts(answers, raiseForStatus, DefaultConfig.retryTimes);
      Backoff(DefaultConfig.retryDelay, n - 1) == [5.0, 10.0][..n - 1]
      && Sum(Backoff(DefaultConfig.retryDelay, n - 1)) <= 15.0
  {
    DefaultAttempts(answers, raiseForStatus);
    DefaultBackoff(RetryAttempts(answers, raiseForStatus, DefaultConfig.retryTimes));
  }

  lemma DefaultAttempts<B>(answers: seq<Attempt<B>>, raiseForStatus: bool)
    ensures 1 <= RetryAttempts(answers, raiseForStatus, DefaultConfig.retryTimes) <= 3
    ensures RetryOutcome(answers, raiseForStatus, DefaultConfig.retryTimes) != NoAttempt
  {
  }

  /** The backoff sleeps of the default delay of 5 s before the second and the third attempt. */
  lemma DefaultBackoff(n: nat)
    requires 1 <= n <= 3
    ensures Backoff(5.0, n - 1) == [5.0, 10.0][..n - 1] && Sum(Backoff(5.0, n - 1)) <= 15.0
  {
    if n == 1 {
      assert [5.0, 10.0][..0] == [];
    } else if n == 2 {
      FirstBackoff();
      assert [5.0, 10.0][..1] == [5.0];
    } else {
      SecondBackoff();
      assert [5.0, 10.0][..2] == [5.0, 10.0];
    }
  }

  lemma FirstBackoff()
    ensures Backoff(5.0, 1) == [5.0] && Sum([5.0]) == 5.0
  {
    assert BackoffDelay(5.0, 0) == 5.0;
    assert Backoff(5.0, 1) == Backoff(5.0, 0) + [5.0];
    assert [5.0][..0] == [];
  }

  lemma SecondBackoff()
    ensures Backoff(5.0, 2) == [5.0, 10.0] && Sum([5.0, 10.0]) == 15.0
  {
    FirstBackoff();
    assert Pow2(1) == 2;
    assert BackoffDelay(5.0, 1) == 10.0;
    assert Backoff(5.0, 2) == [5.0] + [10.0];
    assert [5.0, 10.0][..1] == [5.0];
  }

  // ----- request bodies -----

  /** The `data` of a request: none, a dictionary of form fields, or a ready string. */
  datatype Payload = NoData | FormFields(fields: Dict<string>) | FormText(text: string)

  /** The multipart boundary `_make_request` draws: the WebKit prefix and 16 random letters or digits. */
  function Boundary(suffix: string): string {
    "----WebKitFormBoundary" + suffix
  }

  lemma BoundaryNoNewline(suffix: string)
    requires NoNewline(suffix)
    ensures NoNewline(Boundary(suffix))
  {
    assert NoNewline("----WebKitFormBoundary");
  }

  function Disposition(key: string): string {
    "Content-Disposition: form-data; name=\"" + key + "\""
  }

  /** One field of a multipart body. */
  function MultipartPart(boundary: string, key: string, value: string): string {
    "--" + boundary + "\r\n" + Disposition(key) + "\r\n\r\n" + value + "\r\n"
  }

  /** The parts of all fields, in dictionary order. */
  function MultipartParts(boundary: string, fields: Dict<string>): string {
    if fields == [] then ""
    else
      var last := fields[|fields| - 1];
      MultipartParts(boundary, fields[..|fields| - 1]) + MultipartPart(boundary, last.0, last.1)
  }

  /** The multipart body as `_make_request` builds it: every field's part, then the closing delimiter. */
  function MultipartBody(boundary: string, fields: Dict<string>): string {
    MultipartParts(boundary, fields) + "--" + boundary + "--\r\n"
  }

  /** One more field's part, written piece by piece as the encoder does. */
  lemma PartsStep(boundary: string, fields: Dict<string>, i: nat)
    requires i < |fields|
    ensures MultipartParts(boundary, fields[..i + 1])
      == MultipartParts(boundary, fields[..i]) + "--" + boundary + "\r\n" + Disposition(fields[i].0) + "\r\n\r\n" + fields[i].1 + "\r\n"
  {
    assert fields[..i + 1][..i] == fields[..i];
    var m := MultipartParts(boundary, fields[..i]);
    var (k, v) := fields[i];
    assert MultipartParts(boundary, fields[..i + 1]) == m + MultipartPart(boundary, k, v);
  }

  method EncodeMultipart(boundary: string, fields: Dict<string>) returns (body: string)
    ensures body == MultipartBody(boundary, fields)
  {
    body := "";
    for i := 0 to |fields|
      invariant body == MultipartParts(boundary, fields[..i])
    {
      PartsStep(boundary, fields, i);
      var (key, value) := fields[i];
      body := body + "--" + boundary + "\r\n";
      body := body + Disposition(key) + "\r\n\r\n";
      body := body + value + "\r\n";
    }
    assert fields[..|fields|] == fields;
    body := body + "--" + boundary + "--\r\n";
  }

  /** The lines of a multipart body, each still ending in `\r`. */
  function PartLines(boundary: string, key: string, value: string): seq<string> {
    ["--" + boundary + "\r", Disposition(key) + "\r", "\r", value + "\r"]
  }

  function AllPartLines(boundary: string, fields: Dict<string>): seq<string> {
    if fields == [] then []
    else
      var last := fields[|fields| - 1];
      AllPartLines(boundary, fields[..|fields| - 1]) + PartLines(boundary, last.0, last.1)
  }

  function MultipartLines(boundary: string, fields: Dict<string>): seq<string> {
    AllPartLines(boundary, fields) + ["--" + boundary + "--\r"]
  }

  /** Reads the fields back from the `\n`-separated lines of a multipart body with the given boundary. */
  function DecodeLines(boundary: string, lines: seq<string>): Option<Dict<string>>
    decreases |lines|
  {
    if lines == ["--" + boundary + "--\r", ""] then Some([])
    else if |lines| >= 4 && lines[0] == "--" + boundary + "\r" && lines[2] == "\r"
      && StartsWith(lines[1], "Content-Disposition: form-data; name=\"") && EndsWith(lines[1], "\"\r")
      && |lines[1]| >= 40 && EndsWith(lines[3], "\r")
    then
      var key := lines[1][38..|lines[1]| - 2];
      var value := lines[3][..|lines[3]| - 1];
      var rest := DecodeLines(boundary, lines[4..]);
      if rest.Some? then Some([(key, value)] + rest.value) else None
    else None
  }

  function DecodeMultipart(boundary: string, body: string): Option<Dict<string>> {
    DecodeLines(boundary, Split(body, '\n'))
  }

  predicate NoNewline(s: string) {
    '\n' !in s
  }

  lemma ConcatFour(a: string, b: string, c: string, d: string)
    ensures Concat([a, b, c, d]) == a + b + c + d
  {
    calc {
      Concat([a, b, c, d]);
    == { assert [a, b, c, d][1..] == [b, c, d]; }
      a + Concat([b, c, d]);
    == { assert [b, c, d][1..] == [c, d]; }
      a + (b + Concat([c, d]));
    == { assert [c, d][1..] == [d]; }
      a + (b + (c + Concat([d])));
    == { assert [d][1..] == []; }
      a + b + c + d;
    }
  }

  lemma {:induction false} ConcatAppendAll(a: seq<string>, b: seq<string>)
    ensures Concat(a + b) == Concat(a) + Concat(b)
  {
    if a == [] {
      assert a + b == b;
    } else {
      assert (a + b)[0] == a[0];
      assert (a + b)[1..] == a[1..] + b;
      ConcatAppendAll(a[1..], b);
    }
  }

  lemma PartAsLines(boundary: string, key: string, value: string)
    ensures Concat(Terminated(PartLines(boundary, key, value))) == MultipartPart(boundary, key, value)
  {
    var p := PartLines(boundary, key, value);
    assert Terminated(p) == [p[0] + "\n", p[1] + "\n", p[2] + "\n", p[3] + "\n"];
    ConcatFour(p[0] + "\n", p[1] + "\n", p[2] + "\n", p[3] + "\n");
  }

  lemma {:induction false} PartsAsLines(boundary: string, fields: Dict<string>)
    ensures MultipartParts(boundary, fields) == Concat(Terminated(AllPartLines(boundary, fields)))
  {
    if fields != [] {
      var init, last := fields[..|fields| - 1], fields[|fields| - 1];
      PartsAsLines(boundary, init);
      var a, p := AllPartLines(boundary, init), PartLines(boundary, last.0, last.1);
      TerminatedAppend(a, p);
      ConcatAppendAll(Terminated(a), Terminated(p));
      PartAsLines(boundary, last.0, last.1);
    }
  }

  lemma MultipartAsLines(boundary: string, fields: Dict<string>)
    ensures MultipartBody(boundary, fields) == Concat(Terminated(MultipartLines(boundary, fields)))
  {
    var a, c := AllPartLines(boundary, fields), ["--" + boundary + "--\r"];
    PartsAsLines(boundary, fields);
    TerminatedAppend(a, c);
    ConcatAppendAll(Terminated(a), Terminated(c));
    assert Terminated(c) == [c[0] + "\n"];
    assert Concat([c[0] + "\n"]) == c[0] + "\n" + Concat([]);
  }

  /** The part lines, read from the front. */
  lemma {:induction false} AllPartLinesFront(boundary: string, fields: Dict<string>)
    requires fields != []
    ensures AllPartLines(boundary, fields) == PartLines(boundary, fields[0].0, fields[0].1) + AllPartLines(boundary, fields[1..])
  {
    var init, last := fields[..|fields| - 1], fields[|fields| - 1];
    if init != [] {
      AllPartLinesFront(boundary, init);
      assert init[1..] == fields[1..][..|fields[1..]| - 1];
    }
  }

  lemma {:induction false} PartLinesNoNewline(boundary: string, fields: Dict<string>)
    requires NoNewline(boundary) && forall i :: 0 <= i < |fields| ==> NoNewline(fields[i].0) && NoNewline(fields[i].1)
    ensures forall l :: l in AllPartLines(boundary, fields) ==> '\n' !in l
  {
    if fields != [] {
      var last := fields[|fields| - 1];
      PartLinesNoNewline(boundary, fields[..|fields| - 1]);
      PartNoNewline(boundary, last.0, last.1);
    }
  }

  lemma PartNoNewline(boundary: string, key: string, value: string)
    requires NoNewline(boundary) && NoNewline(key) && NoNewline(value)
    ensures forall l :: l in PartLines(boundary, key, value) ==> '\n' !in l
  {
    DispositionNoNewline(key);
    assert NoNewline("--" + boundary + "\r");
    assert NoNewline(value + "\r");
  }

  lemma DispositionNoNewline(key: string)
    requires NoNewline(key)
    ensures NoNewline(Disposition(key) + "\r")
  {
    var prefix := "Content-Disposition: form-data; name=\"";
    assert NoNewline(prefix);
    assert Disposition(key) + "\r" == prefix + key + "\"\r";
  }

  lemma {:induction false} DecodePartLines(boundary: string, fields: Dict<string>)
    ensures DecodeLines(boundary, AllPartLines(boundary, fields) + ["--" + boundary + "--\r", ""]) == Some(fields)
  {
    if fields != [] {
      var k, v := fields[0].0, fields[0].1;
      var trailer := ["--" + boundary + "--\r", ""];
      var rest := AllPartLines(boundary, fields[1..]) + trailer;
      AllPartLinesFront(boundary, fields);
      AppendAssoc(PartLines(boundary, k, v), AllPartLines(boundary, fields[1..]), trailer);
      DecodePartLines(boundary, fields[1..]);
      DecodePartStep(boundary, k, v, rest);
      assert fields == [(k, v)] + fields[1..];
    }
  }

  /** A part in front of further lines reads back as its field in front of theirs. */
  lemma DecodePartStep(boundary: string, k: string, v: string, rest: seq<string>)
    ensures var r := DecodeLines(boundary, rest);
      DecodeLines(boundary, PartLines(boundary, k, v) + rest) == if r.Some? then Some([(k, v)] + r.value) else None
  {
    var lines := PartLines(boundary, k, v) + rest;
    assert lines[0] == "--" + boundary + "\r" && lines[2] == "\r" && lines[3] == v + "\r";
    assert lines[1] == Disposition(k) + "\r";
    DispositionParse(k);
    assert lines[3][..|lines[3]| - 1] == v;
    assert lines[4..] == rest;
    assert |lines| != 2;
  }

  lemma DispositionParse(k: string)
    ensures var line := Disposition(k) + "\r";
      StartsWith(line, "Content-Disposition: form-data; name=\"") && EndsWith(line, "\"\r")
      && |line| >= 40 && line[38..|line| - 2] == k
  {
    var prefix := "Content-Disposition: form-data; name=\"";
    var line := Disposition(k) + "\r";
    assert |prefix| == 38;
    assert line == prefix + k + "\"\r";
    assert line[..38] == prefix;
  }

  /**
   * The multipart body decodes back to the fields it was built from, when no
   * key, value or the boundary holds a line break.
   */
  lemma MultipartRoundTrip(boundary: string, fields: Dict<string>)
    requires NoNewline(boundary) && forall i :: 0 <= i < |fields| ==> NoNewline(fields[i].0) && NoNewline(fields[i].1)
    ensures DecodeMultipart(boundary, MultipartBody(boundary, fields)) == Some(fields)
  {
    MultipartAsLines(boundary, fields);
    PartLinesNoNewline(boundary, fields);
    SplitTerminatedLines(MultipartLines(boundary, fields));
    DecodePartLines(boundary, fields);
    assert MultipartLines(boundary, fields) + [""] == AllPartLines(boundary, fields) + ["--" + boundary + "--\r", ""];
  }

  // ----- request shaping -----

  datatype Verb = Get | Post

  /** A request as it leaves the client: verb, URL, headers and body. */
  datatype Request = Request(verb: Verb, url: string, headers: Dict<string>, data: Payload)

  /** One call of `_make_request`: what the caller passes, and the random trace id and boundary suffix it draws. */
  datatype Call = Call(verb: Verb, url: string, headers: Dict<string>, data: Payload, traceparent: string, boundarySuffix: string)

  const UserAgent := "Mozilla/5.0 (Windows NT 10.0; Win64; x64) AppleWebKit/537.36 (KHTML, like Gecko) Chrome/136.0.0.0 Safari/537.36"
  const RequestContext := "appId=cid-v1:70e4af49-efc9-4f8c-a767-3b815b116b3a"
  const UrlEncodedType := "application/x-www-form-urlencoded; charset=UTF-8"

  /** The names of the headers `_make_request` adds to every request, in its order. */
  const CommonHeaderNames: seq<string> :=
    ["origin", "sec-fetch-dest", "sec-fetch-mode", "sec-fetch-site", "user-agent", "request-context", "traceparent"]

  /** Their values; the trace id is random and so is a parameter. */
  function CommonHeaderValues(traceparent: string): seq<string> {
    ["https://www.shisetsu.city.yokohama.lg.jp", "empty", "cors", "same-origin", UserAgent, RequestContext, traceparent]
  }

  function CommonHeaders(traceparent: string): (r: Dict<string>)
    ensures Keys(r) == CommonHeaderNames
    ensures forall i :: 0 <= i < |r| ==> r[i] == (CommonHeaderNames[i], CommonHeaderValues(traceparent)[i])
  {
    var r := seq(7, i requires 0 <= i < 7 => (CommonHeaderNames[i], CommonHeaderValues(traceparent)[i]));
    assert Keys(r) == CommonHeaderNames;
    r
  }

  lemma CommonHeaderNamesDistinct()
    ensures forall i, j :: 0 <= i < j < |CommonHeaderNames| ==> CommonHeaderNames[i] != CommonHeaderNames[j]
    ensures "content-type" !in CommonHeaderNames
  {
    assert CommonHeaderNames[1][10] == 'd' && CommonHeaderNames[2][10] == 'm' && CommonHeaderNames[3][10] == 's';
  }

  /** A dictionary body carrying the anti-forgery token, sent as multipart form data. */
  predicate IsTokenForm(verb: Verb, data: Payload, headers: Dict<string>) {
    verb == Post && data.FormFields? && TokenField in Keys(data.fields) && "content-type" !in Keys(headers)
  }

  /** A string body mentioning the token, sent URL-encoded. */
  predicate IsTokenText(verb: Verb, data: Payload, headers: Dict<string>) {
    verb == Post && data.FormText? && Contains(data.text, "RequestVerificationToken") && "content-type" !in Keys(headers)
  }

  /**
   * The request `_make_request` sends: the caller's headers updated with the
   * common ones, then the body and content type chosen by the kind of data.
   */
  function ShapeRequest(verb: Verb, url: string, headers: Dict<string>, data: Payload, traceparent: string, boundarySuffix: string): Request {
    var h := PutAll(headers, CommonHeaders(traceparent));
    if IsTokenForm(verb, data, h) then
      var b := Boundary(boundarySuffix);
      Request(verb, url, Put(h, "content-type", "multipart/form-data; boundary=" + b), FormText(MultipartBody(b, data.fields)))
    else if IsTokenText(verb, data, h) then
      Request(verb, url, Put(h, "content-type", UrlEncodedType), data)
    else
      Request(verb, url, h, data)
  }

  /** The caller's headers under the common ones: the common values win, the rest pass through. */
  lemma MergedHeaders(headers: Dict<string>, traceparent: string, k: string)
    ensures var h := PutAll(headers, CommonHeaders(traceparent));
      (forall i :: 0 <= i < |CommonHeaderNames| && k == CommonHeaderNames[i] ==> Lookup(h, k) == Some(CommonHeaderValues(traceparent)[i]))
      && (k !in CommonHeaderNames ==> Lookup(h, k) == Lookup(headers, k))
  {
    var w := CommonHeaders(traceparent);
    LookupPutAll(headers, w, k);
    LastWriteSome(w, k);
    CommonHeaderNamesDistinct();
    forall i | 0 <= i < |CommonHeaderNames| && k == CommonHeaderNames[i]
      ensures LastWrite(w, k) == Some(CommonHeaderValues(traceparent)[i])
    {
      LastWriteDistinct(w, i);
    }
  }

  /** The headers of a shaped request: the merged ones, plus at most a content type. */
  lemma ShapedHeadersMerged(verb: Verb, url: string, headers: Dict<string>, data: Payload, traceparent: string, boundarySuffix: string)
    ensures var h := PutAll(headers, CommonHeaders(traceparent));
      var r := ShapeRequest(verb, url, headers, data, traceparent, boundarySuffix);
      (forall k :: k != "content-type" ==> Lookup(r.headers, k) == Lookup(h, k))
      && ("content-type" in Keys(h) ==> r.headers == h && r.data == data)
  {
  }

  /**
   * Every request carries the common headers; the caller's other headers pass
   * through, and a caller-given content type is kept along with the body.
   */
  lemma ShapedHeaders(verb: Verb, url: string, headers: Dict<string>, data: Payload, traceparent: string, boundarySuffix: string, k: string)
    ensures var r := ShapeRequest(verb, url, headers, data, traceparent, boundarySuffix);
      (forall i :: 0 <= i < |CommonHeaderNames| && k == CommonHeaderNames[i] ==> Lookup(r.headers, k) == Some(CommonHeaderValues(traceparent)[i]))
      && (k !in CommonHeaderNames && k != "content-type" ==> Lookup(r.headers, k) == Lookup(headers, k))
      && ("content-type" in Keys(headers) ==> r.data == data && Lookup(r.headers, "content-type") == Lookup(headers, "content-type"))
  {
    CommonHeaderNamesDistinct();
    ShapedHeadersMerged(verb, url, headers, data, traceparent, boundarySuffix);
    MergedHeaders(headers, traceparent, k);
    MergedHeaders(headers, traceparent, "content-type");
    KeysPutAll(headers, CommonHeaders(traceparent), "content-type");
  }

  /**
   * A token dictionary becomes a multipart body under a fresh boundary, and the
   * body decodes back to the dictionary.
   */
  lemma ShapedMultipart(verb: Verb, url: string, headers: Dict<string>, data: Payload, traceparent: string, boundarySuffix: string)
    requires IsTokenForm(verb, data, headers)
    requires NoNewline(boundarySuffix)
    requires forall i :: 0 <= i < |data.fields| ==> NoNewline(data.fields[i].0) && NoNewline(data.fields[i].1)
    ensures var r := ShapeRequest(verb, url, headers, data, traceparent, boundarySuffix);
      Lookup(r.headers, "content-type") == Some("multipart/form-data; boundary=" + Boundary(boundarySuffix))
      && r.data.FormText? && DecodeMultipart(Boundary(boundarySuffix), r.data.text) == Some(data.fields)
  {
    MergedNoContentType(headers, traceparent);
    BoundaryNoNewline(boundarySuffix);
    MultipartRoundTrip(Boundary(boundarySuffix), data.fields);
  }

  /** The common headers hold no content type, so merging them adds none. */
  lemma MergedNoContentType(headers: Dict<string>, traceparent: string)
    requires "content-type" !in Keys(headers)
    ensures "content-type" !in Keys(PutAll(headers, CommonHeaders(traceparent)))
  {
    CommonHeaderNamesDistinct();
    MergedHeaders(headers, traceparent, "content-type");
  }

  // ----- the search form -----

  /** The search the program asks the site for; `areas` None means the default areas. */
  datatype SearchCriteria = SearchCriteria(
    dateFrom: string,
    dateTo: string,
    timeFrom: string,
    timeTo: string,
    areas: Option<seq<int>>,
    purposeCategory: int,
    placeClassCategory: int)

  /** `search_facilities(date_from, date_to)` with every other argument defaulted. */
  function DefaultCriteria(dateFrom: string, dateTo: string): SearchCriteria {
    SearchCriteria(dateFrom, dateTo, DefaultTimeFrom, DefaultTimeTo, None, DefaultPurposeCategory, DefaultPlaceClassCategory)
  }

  function SearchAreas(c: SearchCriteria): seq<int> {
    if c.areas.Some? then c.areas.value else DefaultAreas
  }

  const HomePrefix := "HomeModel."
  const ByDatePrefix := HomePrefix + "SearchByDateTimeModel."
  const AreaKey := ByDatePrefix + "SelectedArea"
  const WeekdayKey := HomePrefix + "SelectedWeekDays"

  /** The keys of the single-valued fields of the search form, in the program's order. */
  const BasicKeys: seq<string> :=
    [ByDatePrefix + "SelectedPurposeCategory",
     ByDatePrefix + "SelectedPurpose",
     HomePrefix + "DateFrom",
     HomePrefix + "DateTo",
     HomePrefix + "TimeFrom",
     HomePrefix + "TimeTo",
     HomePrefix + "SelectedSearchTarget",
     HomePrefix + "SelectedPlaceClassCategory",
     HomePrefix + "SelectedPurposeCategory",
     "SelectedLanguageCode",
     TokenField]

  function BasicValues(c: SearchCriteria, token: string): seq<string> {
    [IntToString(c.purposeCategory), "1", c.dateFrom, c.dateTo, c.timeFrom, c.timeTo,
     "1", IntToString(c.placeClassCategory), IntToString(c.purposeCategory), "0", token]
  }

  /** The single-valued fields of the search form. */
  function BasicFields(c: SearchCriteria, token: string): (r: Dict<string>)
    ensures |r| == 11 && Keys(r) == BasicKeys
    ensures forall i :: 0 <= i < 11 ==> r[i] == (BasicKeys[i], BasicValues(c, token)[i])
  {
    var r := seq(11, i requires 0 <= i < 11 => (BasicKeys[i], BasicValues(c, token)[i]));
    assert Keys(r) == BasicKeys;
    r
  }

  /** One field per value, all under the same key. */
  function Repeated(key: string, values: seq<int>): (r: seq<(string, string)>)
    ensures |r| == |values| && forall i :: 0 <= i < |values| ==> r[i] == (key, IntToString(values[i]))
  {
    seq(|values|, i requires 0 <= i < |values| => (key, IntToString(values[i])))
  }

  /** All fields of the search form: the basic ones, one per area, one per weekday. */
  function SearchFields(c: SearchCriteria, token: string): seq<(string, string)> {
    BasicFields(c, token) + Repeated(AreaKey, SearchAreas(c)) + Repeated(WeekdayKey, DefaultWeekdays)
  }

  function EncodeField(f: (string, string)): string {
    f.0 + "=" + f.1
  }

  function EncodeFields(fs: seq<(string, string)>): (r: seq<string>)
    ensures |r| == |fs| && forall i :: 0 <= i < |fs| ==> r[i] == EncodeField(fs[i])
  {
    seq(|fs|, i requires 0 <= i < |fs| => EncodeField(fs[i]))
  }

  /** The unescaped form `key=value&key=value...` of a run of fields. */
  function EncodeForm(fs: seq<(string, string)>): string {
    Join(EncodeFields(fs), "&")
  }

  lemma FormStep(fields: seq<(string, string)>, f: (string, string))
    requires |fields| >= 1
    ensures EncodeForm(fields + [f]) == EncodeForm(fields) + "&" + EncodeField(f)
  {
    assert EncodeFields(fields + [f]) == EncodeFields(fields) + [EncodeField(f)];
    JoinAppend(EncodeFields(fields), EncodeField(f), "&");
  }

  lemma RepeatedStep(key: string, values: seq<int>, j: nat)
    requires j < |values|
    ensures Repeated(key, values[..j + 1]) == Repeated(key, values[..j]) + [(key, IntToString(values[j]))]
  {
  }

  /** Appends `&key=value` for each value, as the area and weekday loops do. */
  method AppendRepeated(form: string, ghost fields: seq<(string, string)>, key: string, values: seq<int>) returns (r: string)
    requires |fields| >= 1 && form == EncodeForm(fields)
    ensures r == EncodeForm(fields + Repeated(key, values))
  {
    r := form;
    assert fields + Repeated(key, values[..0]) == fields;
    for j := 0 to |values|
      invariant r == EncodeForm(fields + Repeated(key, values[..j]))
    {
      var f := (key, IntToString(values[j]));
      FormStep(fields + Repeated(key, values[..j]), f);
      RepeatedStep(key, values, j);
      assert fields + Repeated(key, values[..j + 1]) == (fields + Repeated(key, values[..j])) + [f];
      r := r + "&" + key + "=" + IntToString(values[j]);
    }
    assert values[..|values|] == values;
  }

  /** Writes the fields of a dictionary as `key=value`, an `&` before all but the first. */
  method EncodeDict(fields: Dict<string>) returns (form: string)
    ensures form == EncodeForm(fields)
  {
    form := "";
    for i := 0 to |fields|
      invariant form == EncodeForm(fields[..i])
      invariant (i == 0) == (form == "")
    {
      assert fields[..i + 1] == fields[..i] + [fields[i]];
      if form != "" {
        FormStep(fields[..i], fields[i]);
        form := form + "&";
      } else {
        assert EncodeFields(fields[..i + 1]) == [EncodeField(fields[i])];
      }
      form := form + fields[i].0 + "=" + fields[i].1;
    }
    assert fields[..|fields|] == fields;
  }

  /** The search form as `search_facilities` builds it. */
  method BuildSearchForm(c: SearchCriteria, token: string) returns (form: string)
    ensures form == EncodeForm(SearchFields(c, token))
  {
    var basic := BasicFields(c, token);
    form := EncodeDict(basic);
    var areas := SearchAreas(c);
    form := AppendRepeated(form, basic, AreaKey, areas);
    form := AppendRepeated(form, basic + Repeated(AreaKey, areas), WeekdayKey, DefaultWeekdays);
  }

  /** A `key=value` piece split at its first `=`. */
  function SplitAtFirst(s: string, c: char): (string, string) {
    if s == [] then ("", "")
    else if s[0] == c then ("", s[1..])
    else
      var rest := SplitAtFirst(s[1..], c);
      ([s[0]] + rest.0, rest.1)
  }

  /** Reads a form back into its fields, in order. */
  function DecodeForm(form: string): (r: seq<(string, string)>)
    ensures |r| == |Split(form, '&')|
    ensures forall i :: 0 <= i < |r| ==> r[i] == SplitAtFirst(Split(form, '&')[i], '=')
  {
    var pieces := Split(form, '&');
    seq(|pieces|, i requires 0 <= i < |pieces| => SplitAtFirst(pieces[i], '='))
  }

  /** Holds neither `&` nor `=`: safe as a key of an unescaped form. */
  predicate Plain(s: string) {
    forall i :: 0 <= i < |s| ==> s[i] != '&' && s[i] != '='
  }

  /** Holds no `&`: safe as a value of an unescaped form. */
  predicate NoAmpersand(s: string) {
    forall i :: 0 <= i < |s| ==> s[i] != '&'
  }

  lemma {:induction false} SplitAtFirstField(k: string, v: string)
    requires Plain(k)
    ensures SplitAtFirst(k + "=" + v, '=') == (k, v)
  {
    if k != [] {
      assert (k + "=" + v)[1..] == k[1..] + "=" + v;
      SplitAtFirstField(k[1..], v);
      assert [k[0]] + k[1..] == k;
    }
  }

  /** An unescaped form decodes back to its fields when keys are plain and values hold no `&`. */
  lemma FormRoundTrip(fields: seq<(string, string)>)
    requires |fields| >= 1
    requires forall i :: 0 <= i < |fields| ==> Plain(fields[i].0) && NoAmpersand(fields[i].1)
    ensures DecodeForm(EncodeForm(fields)) == fields
  {
    var pieces := EncodeFields(fields);
    forall p | p in pieces ensures '&' !in p {
      var i :| 0 <= i < |pieces| && pieces[i] == p;
      assert p == fields[i].0 + "=" + fields[i].1;
    }
    SplitJoin(pieces, '&');
    forall i | 0 <= i < |fields| ensures SplitAtFirst(pieces[i], '=') == fields[i] {
      SplitAtFirstField(fields[i].0, fields[i].1);
    }
  }

  lemma {:induction false} PlainAppend(a: string, b: string)
    requires Plain(a) && Plain(b)
    ensures Plain(a + b)
  {
    forall i | 0 <= i < |a + b| ensures (a + b)[i] != '&' && (a + b)[i] != '=' {
      if i >= |a| {
        assert (a + b)[i] == b[i - |a|];
      }
    }
  }

  lemma PlainPrefixes()
    ensures Plain(HomePrefix) && Plain(ByDatePrefix) && Plain(AreaKey) && Plain(WeekdayKey)
  {
    assert Plain("SearchByDateTimeModel.");
    PlainAppend(HomePrefix, "SearchByDateTimeModel.");
    assert Plain("SelectedArea") && Plain("SelectedWeekDays");
    PlainAppend(ByDatePrefix, "SelectedArea");
    PlainAppend(HomePrefix, "SelectedWeekDays");
  }

  lemma PlainBasicKeys()
    ensures forall i :: 0 <= i < |BasicKeys| ==> Plain(BasicKeys[i])
  {
    PlainPurposeKeys();
    PlainDateTimeKeys();
    PlainTargetKeys();
    PlainOtherKeys();
  }

  lemma PlainPurposeKeys()
    ensures Plain(BasicKeys[0]) && Plain(BasicKeys[1])
  {
    PlainPrefixes();
    assert Plain("SelectedPurposeCategory") && Plain("SelectedPurpose");
    PlainAppend(ByDatePrefix, "SelectedPurposeCategory");
    PlainAppend(ByDatePrefix, "SelectedPurpose");
  }

  lemma PlainDateTimeKeys()
    ensures Plain(BasicKeys[2]) && Plain(BasicKeys[3]) && Plain(BasicKeys[4]) && Plain(BasicKeys[5])
  {
    PlainPrefixes();
    assert Plain("DateFrom") && Plain("DateTo") && Plain("TimeFrom") && Plain("TimeTo");
    PlainAppend(HomePrefix, "DateFrom");
    PlainAppend(HomePrefix, "DateTo");
    PlainAppend(HomePrefix, "TimeFrom");
    PlainAppend(HomePrefix, "TimeTo");
  }

  lemma PlainTargetKeys()
    ensures Plain(BasicKeys[6]) && Plain(BasicKeys[7]) && Plain(BasicKeys[8])
  {
    PlainPrefixes();
    assert Plain("SelectedSearchTarget") && Plain("SelectedPurposeCategory");
    PlainAppend(HomePrefix, "SelectedSearchTarget");
    PlainPlaceKey();
    PlainAppend(HomePrefix, "SelectedPurposeCategory");
  }

  lemma PlainPlaceKey()
    ensures Plain(BasicKeys[7])
  {
    PlainPrefixes();
    assert Plain("SelectedPlace") && Plain("ClassCategory");
    PlainAppend("SelectedPlace", "ClassCategory");
    assert "SelectedPlace" + "ClassCategory" == "SelectedPlaceClassCategory";
    PlainAppend(HomePrefix, "SelectedPlaceClassCategory");
  }

  lemma PlainOtherKeys()
    ensures Plain(BasicKeys[9]) && Plain(BasicKeys[10])
  {
    BasicKeysLast();
    PlainLanguageKey();
    PlainTokenField();
  }

  lemma BasicKeysLast()
    ensures BasicKeys[9] == "SelectedLanguageCode" && BasicKeys[10] == TokenField
  {
  }

  lemma PlainLanguageKey()
    ensures Plain("SelectedLanguageCode")
  {
  }

  lemma PlainTokenField()
    ensures Plain(TokenField)
  {
  }

  lemma IntToStringNoAmpersand(n: int)
    ensures NoAmpersand(IntToString(n))
  {
  }

  /**
   * The search form decodes back to its fields when the dates, times and token
   * hold no `&` (the program does not escape them).
   */
  lemma SearchFormRoundTrip(c: SearchCriteria, token: string)
    requires NoAmpersand(c.dateFrom) && NoAmpersand(c.dateTo) && NoAmpersand(c.timeFrom) && NoAmpersand(c.timeTo)
    requires NoAmpersand(token)
    ensures DecodeForm(EncodeForm(SearchFields(c, token))) == SearchFields(c, token)
  {
    var fields := SearchFields(c, token);
    PlainBasicKeys();
    PlainPrefixes();
    IntToStringNoAmpersand(c.purposeCategory);
    IntToStringNoAmpersand(c.placeClassCategory);
    forall i | 0 <= i < |fields| ensures Plain(fields[i].0) && NoAmpersand(fields[i].1) {
      if i >= 11 {
        var n := |SearchAreas(c)|;
        if i < 11 + n {
          IntToStringNoAmpersand(SearchAreas(c)[i - 11]);
        } else {
          IntToStringNoAmpersand(DefaultWeekdays[i - 11 - n]);
        }
      }
    }
    FormRoundTrip(fields);
  }

  /** The values a form carries under `key`, in order. */
  function ValuesOf(fields: seq<(string, string)>, key: string): seq<string> {
    if fields == [] then []
    else ValuesOf(fields[..|fields| - 1], key) + (if fields[|fields| - 1].0 == key then [fields[|fields| - 1].1] else [])
  }

  lemma {:induction false} ValuesOfAppend(a: seq<(string, string)>, b: seq<(string, string)>, key: string)
    ensures ValuesOf(a + b, key) == ValuesOf(a, key) + ValuesOf(b, key)
    decreases |b|
  {
    if b == [] {
      assert a + b == a;
    } else {
      assert (a + b)[..|a + b| - 1] == a + b[..|b| - 1];
      ValuesOfAppend(a, b[..|b| - 1], key);
    }
  }

  /** The decimal texts of some numbers, in order. */
  function IntStrings(values: seq<int>): (r: seq<string>)
    ensures |r| == |values| && forall i :: 0 <= i < |values| ==> r[i] == IntToString(values[i])
  {
    seq(|values|, i requires 0 <= i < |values| => IntToString(values[i]))
  }

  lemma {:induction false} ValuesOfRepeatedSame(key: string, values: seq<int>)
    ensures ValuesOf(Repeated(key, values), key) == IntStrings(values)
  {
    if values != [] {
      var n := |values|;
      var init := values[..n - 1];
      assert Repeated(key, values)[..n - 1] == Repeated(key, init);
      ValuesOfRepeatedSame(key, init);
      IntStringsLast(values);
    }
  }

  lemma IntStringsLast(values: seq<int>)
    requires values != []
    ensures IntStrings(values) == IntStrings(values[..|values| - 1]) + [IntToString(values[|values| - 1])]
  {
  }

  lemma ValuesOfRepeatedOther(key: string, values: seq<int>, k: string)
    requires k != key
    ensures ValuesOf(Repeated(key, values), k) == []
  {
    ValuesOfNone(Repeated(key, values), k);
  }

  lemma {:induction false} ValuesOfNone(fields: seq<(string, string)>, key: string)
    requires forall i :: 0 <= i < |fields| ==> fields[i].0 != key
    ensures ValuesOf(fields, key) == []
  {
    if fields != [] {
      ValuesOfNone(fields[..|fields| - 1], key);
    }
  }

  lemma BasicKeysApart()
    ensures forall i :: 0 <= i < |BasicKeys| ==> BasicKeys[i] != AreaKey && BasicKeys[i] != WeekdayKey
    ensures forall i :: 0 <= i < 10 ==> BasicKeys[i] != TokenField
    ensures AreaKey != WeekdayKey && AreaKey != TokenField && WeekdayKey != TokenField
  {
    assert WeekdayKey[0] == 'H' && TokenField[0] == '_';
  }

  lemma BasicValuesOf(c: SearchCriteria, token: string)
    ensures ValuesOf(BasicFields(c, token), AreaKey) == []
    ensures ValuesOf(BasicFields(c, token), WeekdayKey) == []
    ensures ValuesOf(BasicFields(c, token), TokenField) == [token]
  {
    var b := BasicFields(c, token);
    BasicKeysApart();
    ValuesOfNone(b[..10], TokenField);
    ValuesOfNone(b, AreaKey);
    ValuesOfNone(b, WeekdayKey);
  }

  lemma SearchFieldsValuesOf(c: SearchCriteria, token: string, k: string)
    ensures ValuesOf(SearchFields(c, token), k)
      == ValuesOf(BasicFields(c, token), k) + ValuesOf(Repeated(AreaKey, SearchAreas(c)), k) + ValuesOf(Repeated(WeekdayKey, DefaultWeekdays), k)
  {
    var b := BasicFields(c, token);
    var a := Repeated(AreaKey, SearchAreas(c));
    var w := Repeated(WeekdayKey, DefaultWeekdays);
    ValuesOfAppend(b + a, w, k);
    ValuesOfAppend(b, a, k);
  }

  /** The form carries one area field per requested area, in order. */
  lemma SearchAreaValues(c: SearchCriteria, token: string)
    ensures ValuesOf(SearchFields(c, token), AreaKey) == IntStrings(SearchAreas(c))
  {
    BasicKeysApart();
    BasicValuesOf(c, token);
    SearchFieldsValuesOf(c, token, AreaKey);
    ValuesOfRepeatedSame(AreaKey, SearchAreas(c));
    ValuesOfRepeatedOther(WeekdayKey, DefaultWeekdays, AreaKey);
    OnlyMiddle(ValuesOf(BasicFields(c, token), AreaKey), IntStrings(SearchAreas(c)), ValuesOf(Repeated(WeekdayKey, DefaultWeekdays), AreaKey));
  }

  /** The form carries one weekday field per configured weekday, in order. */
  lemma SearchWeekdayValues(c: SearchCriteria, token: string)
    ensures ValuesOf(SearchFields(c, token), WeekdayKey) == IntStrings(DefaultWeekdays)
  {
    BasicKeysApart();
    BasicValuesOf(c, token);
    SearchFieldsValuesOf(c, token, WeekdayKey);
    ValuesOfRepeatedOther(AreaKey, SearchAreas(c), WeekdayKey);
    ValuesOfRepeatedSame(WeekdayKey, DefaultWeekdays);
  }

  /** The form carries the token exactly once. */
  lemma SearchTokenValue(c: SearchCriteria, token: string)
    ensures ValuesOf(SearchFields(c, token), TokenField) == [token]
  {
    BasicKeysApart();
    BasicValuesOf(c, token);
    SearchFieldsValuesOf(c, token, TokenField);
    ValuesOfRepeatedOther(AreaKey, SearchAreas(c), TokenField);
    ValuesOfRepeatedOther(WeekdayKey, DefaultWeekdays, TokenField);
  }

  // ----- the detail page -----

  /** The relative path in a search answer that points at the detail page, if any. */
  function DetailPath(result: Json): Option<string> {
    if result.JObject? then
      var info := Lookup(result.fields, "Information");
      if info.Some? && info.value.JStr? && (StartsWith(info.value.s, "./") || StartsWith(info.value.s, "/"))
      then Some(info.value.s) else None
    else None
  }

  /** The detail page's URL: the base URL followed by the path, a leading `.` dropped. */
  function DetailUrl(baseUrl: string, path: string): string {
    if StartsWith(path, "./") then baseUrl + path[1..] else baseUrl + path
  }

  /** The detail URL is the base URL, a `/`, and the path after its leading `./` or `/`. */
  lemma DetailUrlShape(baseUrl: string, path: string)
    requires StartsWith(path, "./") || StartsWith(path, "/")
    ensures var tail := if StartsWith(path, "./") then path[2..] else path[1..];
      DetailUrl(baseUrl, path) == baseUrl + "/" + tail
  {
    if StartsWith(path, "./") {
      assert path[1..] == "/" + path[2..];
    } else {
      assert path == "/" + path[1..];
    }
  }

  /** A search answer with the detail page attached as `_make_request` and `search_facilities` do. */
  function WithDetail(result: Json, detail: Outcome<Parsers.Html>): Option<Json> {
    if DetailPath(result).None? then Some(result)
    else if !detail.Returned? then None
    else if detail.status == 200 then Some(JObject(Put(result.fields, "DetailData", JObject(Parsers.ParseResult(detail.body)))))
    else Some(result)
  }

  /**
   * A fetched detail page is filed under `DetailData` as its parse result and
   * every other entry of the answer is kept; a page with another status, or an
   * answer without a detail path, leaves the answer as it is.
   */
  lemma DetailAttached(result: Json, detail: Outcome<Parsers.Html>)
    requires WithDetail(result, detail).Some?
    ensures var r := WithDetail(result, detail).value;
      if DetailPath(result).Some? && detail.status == 200 then
        r.JObject? && Lookup(r.fields, "DetailData") == Some(JObject(Parsers.ParseResult(detail.body)))
        && Lookup(Parsers.ParseResult(detail.body), "html_content") == Some(JBool(true))
        && forall k :: k != "DetailData" ==> Lookup(r.fields, k) == Lookup(result.fields, k)
      else r == result
    ensures DetailPath(result).Some? ==> detail.Returned?
  {
    if DetailPath(result).Some? && detail.status == 200 {
      Parsers.ParseEnvelope(detail.body);
    }
  }

  // ----- the client -----

  /**
   * One exchange with the site: the replies to successive attempts, and the
   * random trace id and multipart boundary suffix the request draws.
   */
  datatype Exchange<B> = Exchange(answers: seq<Attempt<B>>, traceparent: string, boundarySuffix: string)

  /** The home page as the session set-up reads it: the attributes of each `<input>`, in order. */
  type HomePage = seq<Dict<string>>

  /** The replies of every exchange one `search_facilities` call makes, in order. */
  datatype SearchServer = SearchServer(
    home: Exchange<HomePage>,
    siteClosing: Exchange<()>,
    sessionInterval: Exchange<()>,
    homeAgain: Exchange<()>,
    search: Exchange<Option<Json>>,
    detail: Exchange<Parsers.Html>)

  /** `soup.find('input', {'name': token field})`: the first input so named, searching from `from`. */
  function FirstTokenInput(inputs: HomePage, from: nat): (r: Option<nat>)
    ensures r.Some? ==> from <= r.value < |inputs| && Lookup(inputs[r.value], "name") == Some(TokenField)
    ensures r.Some? ==> forall j :: from <= j < r.value ==> Lookup(inputs[j], "name") != Some(TokenField)
    ensures r.None? ==> forall j :: from <= j < |inputs| ==> Lookup(inputs[j], "name") != Some(TokenField)
    decreases |inputs| - from
  {
    if from >= |inputs| then None
    else if Lookup(inputs[from], "name") == Some(TokenField) then Some(from)
    else FirstTokenInput(inputs, from + 1)
  }

  /** The token the home page offers: the `value` of the first input named for it, if it has one. */
  function PageToken(inputs: HomePage): Option<string> {
    var i := FirstTokenInput(inputs, 0);
    if i.Some? then Lookup(inputs[i.value], "value") else None
  }

  /** The token a session set-up obtains with at most `max` attempts at the home page. */
  function SessionToken(home: Exchange<HomePage>, max: int): Option<string> {
    var o := RetryOutcome(home.answers, true, max);
    if o.Returned? then PageToken(o.body) else None
  }

  /**
   * The search answer when the search POST returned a JSON body; a JSON
   * `null` is Python's None, which `search_facilities` returns as it is.
   */
  function SearchAnswer(search: Exchange<Option<Json>>, max: int): Option<Json> {
    var o := RetryOutcome(search.answers, true, max);
    if o.Returned? && o.body.Some? && !o.body.value.JNull? then o.body else None
  }

  /**
   * What a search gives once the session holds a token: nothing when the second
   * home-page visit raises or the search POST returns no JSON, else the answer
   * with its detail page attached.
   */
  function SearchAfterSession(server: SearchServer, max: int): Option<Json> {
    if RetryOutcome(server.homeAgain.answers, true, max).Raised? then None
    else if SearchAnswer(server.search, max).None? then None
    else WithDetail(SearchAnswer(server.search, max).value, RetryOutcome(server.detail.answers, false, max))
  }

  /**
   * A search with a session gives a result exactly when the second home-page
   * visit does not raise, the search POST returns JSON other than `null` with
   * a status below 400 or at least 600, and a detail page, when one is named,
   * answers at all. A result is never JSON `null`.
   */
  lemma SearchAfterSessionIff(server: SearchServer, max: int)
    ensures SearchAfterSession(server, max).Some? <==>
      !RetryOutcome(server.homeAgain.answers, true, max).Raised?
      && SearchAnswer(server.search, max).Some?
      && (DetailPath(SearchAnswer(server.search, max).value).Some? ==> RetryOutcome(server.detail.answers, false, max).Returned?)
    ensures SearchAnswer(server.search, max).Some? <==>
      var o := RetryOutcome(server.search.answers, true, max);
      o.Returned? && o.body.Some? && !o.body.value.JNull?
    ensures SearchAnswer(server.search, max).Some? ==>
      RetryOutcome(server.search.answers, true, max).Returned? && !IsHttpError(RetryOutcome(server.search.answers, true, max).status)
    ensures SearchAfterSession(server, max).Some? ==> !SearchAfterSession(server, max).value.JNull?
  {
    if SearchAnswer(server.search, max).Some? {
      ReturnedStatusChecked(server.search.answers, max);
      var a := SearchAnswer(server.search, max).value;
      var d := RetryOutcome(server.detail.answers, false, max);
      if WithDetail(a, d).Some? {
        DetailAttached(a, d);
      }
    }
  }

  /** The sleeps of the retry loop: one after each failure but the last attempt's. */
  function RetrySleeps<B>(answers: seq<Attempt<B>>, raiseForStatus: bool, max: int, delay: real): seq<real> {
    var n := RetryAttempts(answers, raiseForStatus, max);
    Backoff(delay, if n == 0 then 0 else n - 1)
  }

  lemma {:induction false} BackoffNonNegative(delay: real, n: nat)
    requires delay >= 0.0
    ensures Sum(Backoff(delay, n)) >= 0.0
  {
    if n > 0 {
      BackoffNonNegative(delay, n - 1);
      assert Backoff(delay, n)[..n - 1] == Backoff(delay, n - 1);
      ProductNonNegative(delay, Pow2(n - 1) as real);
    }
  }

  lemma ProductNonNegative(a: real, b: real)
    requires a >= 0.0 && b >= 0.0
    ensures a * b >= 0.0
  {
  }

  /** The log of a call attempted `n` times. */
  function Attempts(call: Call, n: nat): (r: seq<Call>)
    ensures |r| == n && forall i :: 0 <= i < n ==> r[i] == call
  {
    seq(n, _ => call)
  }

  /** What goes on the wire for a call. */
  function Wire(call: Call): Request {
    ShapeRequest(call.verb, call.url, call.headers, call.data, call.traceparent, call.boundarySuffix)
  }

  const HtmlAccept := "text/html,application/xhtml+xml,application/xml;q=0.9,image/avif,image/webp,*/*;q=0.8"

  /** The headers of the XHR-style POSTs. */
  function XhrHeaders(baseUrl: string): Dict<string> {
    [("Accept", "application/json, text/plain, */*"), ("X-Requested-With", "XMLHttpRequest"), ("Referer", baseUrl + "/Home")]
  }

  function SearchHeaders(baseUrl: string): Dict<string> {
    XhrHeaders(baseUrl) + [("Content-Type", UrlEncodedType)]
  }

  function DetailHeaders(baseUrl: string): Dict<string> {
    [("Accept", HtmlAccept), ("Referer", baseUrl + "/Home")]
  }

  /** The home-page visit of `_init_session`, with no extra headers. */
  function HomeGet(baseUrl: string, ex: Exchange<HomePage>): Call {
    Call(Get, baseUrl + "/Home", [], NoData, ex.traceparent, ex.boundarySuffix)
  }

  /** The POST that carries the token to one of the two status endpoints. */
  function TokenPost(baseUrl: string, path: string, token: string, ex: Exchange<()>): Call {
    Call(Post, baseUrl + path, XhrHeaders(baseUrl), FormFields([(TokenField, token)]), ex.traceparent, ex.boundarySuffix)
  }

  /** The search POST for criteria `c` under `token`. */
  function SearchPost(baseUrl: string, c: SearchCriteria, token: string, ex: Exchange<Option<Json>>): Call {
    Call(Post, baseUrl + "/Home/SearchByDateTime", SearchHeaders(baseUrl), FormText(EncodeForm(SearchFields(c, token))), ex.traceparent, ex.boundarySuffix)
  }

  /**
   * The facility site's client. The wall clock is the field `clock`, which only
   * sleeping advances; `sent` records the call behind every request attempt, in order.
   */
  class FacilityClient {
    const config: ApiConfig
    var token: Option<string>
    var tokenExpireTime: Option<real>
    var lastRequestTime: real
    var clock: real
    ghost var sent: seq<Call>

    ghost predicate Valid()
      reads this
    {
      lastRequestTime <= clock
      && (token.Some? <==> tokenExpireTime.Some?)
      && config.retryDelay >= 0.0
    }

    constructor(config: ApiConfig, now: real)
      requires config.retryDelay >= 0.0 && now >= 0.0
      ensures Valid()
      ensures this.config == config && token == None && tokenExpireTime == None
      ensures lastRequestTime == 0.0 && clock == now && sent == []
    {
      this.config := config;
      token := None;
      tokenExpireTime := None;
      lastRequestTime := 0.0;
      clock := now;
      sent := [];
    }

    /** Sleeps until the configured interval has passed since the previous request, then stamps this one. */
    method WaitForInterval() returns (waited: real)
      requires Valid()
      modifies this`clock, this`lastRequestTime
      ensures Valid()
      ensures waited == WaitTime(old(lastRequestTime), old(clock), config.requestInterval)
      ensures clock == old(clock) + waited && lastRequestTime == clock
    {
      waited := 0.0;
      if lastRequestTime > 0.0 {
        var elapsed := clock - lastRequestTime;
        if elapsed < config.requestInterval {
          waited := config.requestInterval - elapsed;
          clock := clock + waited;
        }
      }
      lastRequestTime := clock;
    }

    /**
     * `_make_request`: waits for the interval, shapes the request, and sends it
     * with retries; every attempt is logged in `sent`.
     */
    method MakeRequest<B>(verb: Verb, url: string, raiseForStatus: bool, headers: Dict<string>, data: Payload, ex: Exchange<B>)
      returns (outcome: Outcome<B>)
      requires Valid()
      modifies this`clock, this`lastRequestTime, this`sent
      ensures Valid()
      ensures outcome == RetryOutcome(ex.answers, raiseForStatus, config.retryTimes)
      ensures var call := Call(verb, url, headers, data, ex.traceparent, ex.boundarySuffix);
        sent == old(sent) + Attempts(call, RetryAttempts(ex.answers, raiseForStatus, config.retryTimes))
      ensures lastRequestTime == old(clock) + WaitTime(old(lastRequestTime), old(clock), config.requestInterval)
      ensures old(lastRequestTime) > 0.0 ==> lastRequestTime >= old(lastRequestTime) + config.requestInterval
      ensures clock == lastRequestTime + Sum(RetrySleeps(ex.answers, raiseForStatus, config.retryTimes, config.retryDelay))
    {
      var _ := WaitForInterval();
      outcome := SendLogged(Call(verb, url, headers, data, ex.traceparent, ex.boundarySuffix), raiseForStatus, ex.answers);
    }

    /** The retry loop of `_make_request`: each attempt is logged, and the backoff sleeps advance the clock. */
    method SendLogged<B>(call: Call, raiseForStatus: bool, answers: seq<Attempt<B>>) returns (outcome: Outcome<B>)
      requires Valid()
      modifies this`clock, this`sent
      ensures Valid()
      ensures outcome == RetryOutcome(answers, raiseForStatus, config.retryTimes)
      ensures sent == old(sent) + Attempts(call, RetryAttempts(answers, raiseForStatus, config.retryTimes))
      ensures clock == old(clock) + Sum(RetrySleeps(answers, raiseForStatus, config.retryTimes, config.retryDelay))
    {
      var attempts, sleeps;
      outcome, attempts, sleeps := SendWithRetries(answers, raiseForStatus, config.retryTimes, config.retryDelay);
      sent := sent + Attempts(call, attempts);
      BackoffNonNegative(config.retryDelay, |sleeps|);
      clock := clock + Sum(sleeps);
    }

    /**
     * `_init_session`: fetches the home page and takes the token from it; on
     * success stamps its expiry, calls the two status endpoints with the token,
     * and sleeps a second. Without a token the old session state is kept.
     */
    method InitSession(home: Exchange<HomePage>, siteClosing: Exchange<()>, sessionInterval: Exchange<()>) returns (ok: bool)
      requires Valid()
      modifies this`token, this`tokenExpireTime, this`clock, this`lastRequestTime, this`sent
      ensures Valid()
      ensures ok <==> SessionToken(home, config.retryTimes).Some?
      ensures ok ==> token == SessionToken(home, config.retryTimes)
      ensures ok ==>
        tokenExpireTime.value == old(clock) + WaitTime(old(lastRequestTime), old(clock), config.requestInterval)
          + Sum(RetrySleeps(home.answers, true, config.retryTimes, config.retryDelay)) + config.sessionExpire
      ensures ok ==> old(clock) + config.sessionExpire <= tokenExpireTime.value
      ensures ok ==> tokenExpireTime.value + 1.0 <= clock + config.sessionExpire
      ensures !ok ==> token == old(token) && tokenExpireTime == old(tokenExpireTime)
      ensures !ok ==> sent == old(sent) + Attempts(HomeGet(config.baseUrl, home), RetryAttempts(home.answers, true, config.retryTimes))
      ensures old(sent) <= sent
      ensures ok && config.retryTimes >= 1 ==>
        TokenPost(config.baseUrl, "/api/Header/GetSiteClosing", token.value, siteClosing) in sent[|old(sent)|..]
        && TokenPost(config.baseUrl, "/api/Header/GetSessionInterval", token.value, sessionInterval) in sent[|old(sent)|..]
    {
      ghost var start := |sent|;
      var page := MakeRequest(Get, config.baseUrl + "/Home", true, [], NoData, home);
      assert sent == old(sent) + Attempts(HomeGet(config.baseUrl, home), RetryAttempts(home.answers, true, config.retryTimes));
      if !page.Returned? {
        return false;
      }
      var i := FirstTokenInput(page.body, 0);
      if i.None? {
        return false;
      }
      var value := Lookup(page.body[i.value], "value");
      if value.None? {
        return false;
      }
      token := value;
      tokenExpireTime := Some(clock + config.sessionExpire);
      PostStatusCalls(siteClosing, sessionInterval);
      clock := clock + 1.0;
      return true;
    }

    /** The two status calls of `_init_session`, each posting the session token. */
    method PostStatusCalls(siteClosing: Exchange<()>, sessionInterval: Exchange<()>)
      requires Valid() && token.Some?
      modifies this`clock, this`lastRequestTime, this`sent
      ensures Valid()
      ensures old(clock) <= clock
      ensures old(sent) <= sent
      ensures config.retryTimes >= 1 ==>
        TokenPost(config.baseUrl, "/api/Header/GetSiteClosing", token.value, siteClosing) in sent[|old(sent)|..]
        && TokenPost(config.baseUrl, "/api/Header/GetSessionInterval", token.value, sessionInterval) in sent[|old(sent)|..]
    {
      ghost var start := |sent|;
      var _ := MakeRequest(Post, config.baseUrl + "/api/Header/GetSiteClosing", true, XhrHeaders(config.baseUrl),
        FormFields([(TokenField, token.value)]), siteClosing);
      ghost var mark2 := |sent|;
      var _ := MakeRequest(Post, config.baseUrl + "/api/Header/GetSessionInterval", true, XhrHeaders(config.baseUrl),
        FormFields([(TokenField, token.value)]), sessionInterval);
      if config.retryTimes >= 1 {
        RetryAttemptsPositive(siteClosing.answers, true, config.retryTimes);
        RetryAttemptsPositive(sessionInterval.answers, true, config.retryTimes);
        assert sent[start] == TokenPost(config.baseUrl, "/api/Header/GetSiteClosing", token.value, siteClosing);
        assert sent[start] in sent[start..];
        assert sent[mark2] == TokenPost(config.baseUrl, "/api/Header/GetSessionInterval", token.value, sessionInterval);
        assert sent[mark2] in sent[start..];
      }
    }

    /** The search result once a session holds a token, as `SearchFacilities` states it. */
    method SearchWithSession(c: SearchCriteria, server: SearchServer) returns (r: Option<Json>)
      requires Valid() && token.Some?
      modifies this`clock, this`lastRequestTime, this`sent
      ensures Valid()
      ensures r == SearchAfterSession(server, config.retryTimes)
      ensures old(sent) <= sent
      ensures config.retryTimes >= 1 && !RetryOutcome(server.homeAgain.answers, true, config.retryTimes).Raised? ==>
        SearchPost(config.baseUrl, c, token.value, server.search) in sent[|old(sent)|..]
    {
      ghost var start := |sent|;
      var again := MakeRequest(Get, config.baseUrl + "/Home", true, [("Accept", HtmlAccept)], NoData, server.homeAgain);
      if again.Raised? {
        return None;
      }
      ghost var mark := |sent|;
      var answer := PostSearch(c, server);
      ghost var log := sent;
      if !answer.Returned? || answer.body.None? || answer.body.value.JNull? {
        r := None;
      } else {
        r := AttachDetail(answer.body.value, server.detail);
      }
      if config.retryTimes >= 1 {
        SuffixGrows(log, sent, start, mark, SearchPost(config.baseUrl, c, token.value, server.search));
      }
    }

    /** The search POST: the form is built from the criteria and the session's token, then sent. */
    method PostSearch(c: SearchCriteria, server: SearchServer) returns (answer: Outcome<Option<Json>>)
      requires Valid() && token.Some?
      modifies this`clock, this`lastRequestTime, this`sent
      ensures Valid()
      ensures answer == RetryOutcome(server.search.answers, true, config.retryTimes)
      ensures old(sent) <= sent
      ensures config.retryTimes >= 1 ==> SearchPost(config.baseUrl, c, token.value, server.search) in sent[|old(sent)|..]
    {
      var form := BuildSearchForm(c, token.value);
      ghost var mark := |sent|;
      answer := MakeRequest(Post, config.baseUrl + "/Home/SearchByDateTime", true, SearchHeaders(config.baseUrl), FormText(form), server.search);
      if config.retryTimes >= 1 {
        RetryAttemptsPositive(server.search.answers, true, config.retryTimes);
        assert sent[mark] == SearchPost(config.baseUrl, c, token.value, server.search);
        InSuffix(sent, mark, mark);
      }
    }

    /**
     * `search_facilities`: sets the session up, revisits the home page, posts the
     * search form and, when the answer points at a detail page, fetches and
     * parses it. Any failure along the way gives None.
     */
    method SearchFacilities(c: SearchCriteria, server: SearchServer) returns (r: Option<Json>)
      requires Valid()
      modifies this`token, this`tokenExpireTime, this`clock, this`lastRequestTime, this`sent
      ensures Valid()
      ensures r == (if SessionToken(server.home, config.retryTimes).Some? then SearchAfterSession(server, config.retryTimes) else None)
      ensures SessionToken(server.home, config.retryTimes).None? ==> token == old(token)
      ensures SessionToken(server.home, config.retryTimes).Some? ==> token == SessionToken(server.home, config.retryTimes)
      ensures SessionToken(server.home, config.retryTimes).None? ==>
        sent == old(sent) + Attempts(HomeGet(config.baseUrl, server.home), RetryAttempts(server.home.answers, true, config.retryTimes))
      ensures old(sent) <= sent
    {
      var ok := InitSession(server.home, server.siteClosing, server.sessionInterval);
      if !ok {
        return None;
      }
      r := SearchWithSession(c, server);
    }

    /** Fetches the detail page a search answer points at, if any, and files its parse result. */
    method AttachDetail(result: Json, detail: Exchange<Parsers.Html>) returns (r: Option<Json>)
      requires Valid()
      modifies this`clock, this`lastRequestTime, this`sent
      ensures Valid()
      ensures r == WithDetail(result, RetryOutcome(detail.answers, false, config.retryTimes))
      ensures old(sent) <= sent
      ensures token == old(token)
    {
      var path := DetailPath(result);
      if path.None? {
        return Some(result);
      }
      var page := MakeRequest(Get, DetailUrl(config.baseUrl, path.value), false, DetailHeaders(config.baseUrl), NoData, detail);
      if !page.Returned? {
        return None;
      }
      if page.status == 200 {
        var parsed := Parsers.ParseHtmlContent(page.body);
        return Some(JObject(Put(result.fields, "DetailData", JObject(parsed))));
      }
      return Some(result);
    }
  }

  lemma RetryAttemptsPositive<B>(answers: seq<Attempt<B>>, raiseForStatus: bool, max: int)
    requires max >= 1
    ensures RetryAttempts(answers, raiseForStatus, max) >= 1
  {
  }
}
