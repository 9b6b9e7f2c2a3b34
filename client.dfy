/** The log-shipping client: a per-request buffer of newline-delimited
    records, and the export cycle that compresses it, enforces the size
    ceiling and sends it with bounded retry. */
module Client {
  import opened Values
  import opened Retry
  import Region
  import opened Framing

  /** The listener's limit on one compressed bulk, in bytes. */
  const MaxBulkSize := 10_000_000

  /** What the gzip writer does with one buffer. `Written` carries the
      length of the compressed buffer after the write (before the writer is
      closed) and, when closing succeeds, the complete compressed payload. */
  datatype GzipRun =
    | WriteFailed
    | Written(pendingLen: nat, closed: Option<seq<byte>>)

  /** One POST of a compressed payload to a target URL. */
  datatype Post = Post(target: string, payload: seq<byte>)

  /** The terminal result of one export cycle: the status returned, the
      number of sends made and the payload every send carried. */
  datatype ExportResult = ExportResult(status: int, attempts: nat, payload: seq<byte>)

  /** What one export cycle returns and sends, for the given compressor
      outcome and endpoint answers. */
  function ExportOutcome(run: GzipRun, respond: nat -> int): ExportResult
  {
    match run
    case WriteFailed => ExportResult(StatusInternalServerError, 0, [])
    case Written(pendingLen, closed) =>
      if pendingLen > MaxBulkSize then ExportResult(StatusRequestEntityTooLarge, 0, [])
      else if closed.None? then ExportResult(StatusInternalServerError, 0, [])
      else
        var n := Attempts(respond);
        ExportResult(respond(n - 1), n, closed.value)
  }

  /** The export's decision procedure: a failed write gives 500, then an
      oversize bulk gives 413, then a failed close gives 500, in each case
      with nothing sent; otherwise the payload is sent until the first
      terminal status or for the whole budget, and the last status is returned. */
  lemma ExportOutcomeCases(run: GzipRun, respond: nat -> int)
    ensures var r := ExportOutcome(run, respond);
      && r.attempts <= SendRetries
      && (r.attempts == 0 <==> run.WriteFailed? || run.pendingLen > MaxBulkSize || run.closed.None?)
      && (run.WriteFailed? ==> r.status == StatusInternalServerError)
      && (run.Written? && run.pendingLen > MaxBulkSize ==> r.status == StatusRequestEntityTooLarge)
      && (run.Written? && run.pendingLen <= MaxBulkSize && run.closed.None? ==>
            r.status == StatusInternalServerError)
      && (r.attempts > 0 ==>
            && run.Written? && run.closed.Some? && r.payload == run.closed.value
            && r.attempts == Attempts(respond) && r.status == respond(r.attempts - 1))
  {
  }

  /** The URL a client with this listener and token posts to. */
  function Target(url: string, token: string): string
  {
    url + "/?token=" + token
  }

  /** `n` sends of `payload` to `target`. */
  function Sends(target: string, payload: seq<byte>, n: nat): (s: seq<Post>)
    ensures |s| == n && forall k :: 0 <= k < n ==> s[k] == Post(target, payload)
  {
    if n == 0 then [] else Sends(target, payload, n - 1) + [Post(target, payload)]
  }

  /** The sleeps taken by an export that made `attempts` sends. */
  function Sleeps(attempts: nat): seq<int>
  {
    if attempts == 0 then [] else BackoffSchedule(attempts - 1)
  }

  /** One entry of a client's history: a POST sent, or a backoff slept (in
      nanoseconds). */
  datatype Step = Sent(post: Post) | Slept(ns: int)

  /** The history of an export that sends `n` times: the first send comes
      with no sleep before it, and every later one follows a sleep, the
      k-th sleep (counting from zero) lasting `BackOff(k)`. */
  function Steps(target: string, payload: seq<byte>, n: nat): seq<Step>
  {
    if n == 0 then []
    else if n == 1 then [Sent(Post(target, payload))]
    else Steps(target, payload, n - 1) + [Slept(BackOff(n - 2)), Sent(Post(target, payload))]
  }

  /** Sends and sleeps alternate, starting and ending with a send: the
      even entries are the sends and the odd ones the sleeps, in schedule
      order. */
  lemma {:induction false} StepsAlternate(target: string, payload: seq<byte>, n: nat)
    ensures var s := Steps(target, payload, n);
      && |s| == (if n == 0 then 0 else 2 * n - 1)
      && forall k :: 0 <= k < |s| ==>
           s[k] == if k % 2 == 0 then Sent(Post(target, payload)) else Slept(BackOff(k / 2))
  {
    if n > 1 {
      StepsAlternate(target, payload, n - 1);
    }
  }

  /** The POSTs of a history, in order. */
  function PostsOf(trace: seq<Step>): seq<Post>
  {
    if trace == [] then []
    else
      var last := trace[|trace| - 1];
      PostsOf(trace[..|trace| - 1]) + (if last.Sent? then [last.post] else [])
  }

  /** The sleeps of a history, in order. */
  function SleepsOf(trace: seq<Step>): seq<int>
  {
    if trace == [] then []
    else
      var last := trace[|trace| - 1];
      SleepsOf(trace[..|trace| - 1]) + (if last.Slept? then [last.ns] else [])
  }

  /** An export history holds `n` identical POSTs and, between them, the
      backoff schedule. */
  lemma {:induction false} StepsProjections(target: string, payload: seq<byte>, n: nat)
    ensures PostsOf(Steps(target, payload, n)) == Sends(target, payload, n)
    ensures SleepsOf(Steps(target, payload, n)) == Sleeps(n)
  {
    if n == 1 {
      assert [Sent(Post(target, payload))][..0] == [];
    } else if n > 1 {
      var prev := Steps(target, payload, n - 1);
      var mid := prev + [Slept(BackOff(n - 2))];
      var all := mid + [Sent(Post(target, payload))];
      assert Steps(target, payload, n) == all;
      assert all[..|all| - 1] == mid;
      assert mid[..|mid| - 1] == prev;
      StepsProjections(target, payload, n - 1);
    }
  }

  predicate IsControl(c: char)
  {
    c as int < 32 || c as int == 127
  }

  predicate IsHexDigit(c: char)
  {
    '0' <= c <= '9' || 'a' <= c <= 'f' || 'A' <= c <= 'F'
  }

  /** The offset of the first `#` in `u`, or `|u|` when there is none. */
  function FragmentStart(u: string): (i: nat)
    ensures i <= |u|
    ensures forall j :: 0 <= j < i ==> u[j] != '#'
    ensures i < |u| ==> u[i] == '#'
  {
    if u == [] || u[0] == '#' then 0 else 1 + FragmentStart(u[1..])
  }

  /** Some `%` in `s` is not followed by two hexadecimal digits. */
  predicate BadEscape(s: string)
  {
    exists i :: 0 <= i < |s| && s[i] == '%' &&
      (i + 2 >= |s| || !IsHexDigit(s[i + 1]) || !IsHexDigit(s[i + 2]))
  }

  /** `url.Parse`, and with it `http.NewRequest`, refuses a URL of this
      client's form exactly when it holds a control character before the
      first `#`, or a malformed percent-escape in the fragment after it. */
  predicate UrlRejected(u: string)
  {
    var f := FragmentStart(u);
    (exists i :: 0 <= i < f && IsControl(u[i])) || (f < |u| && BadEscape(u[f + 1..]))
  }

  /** A control character with no `#` before it makes the URL unparsable. */
  lemma ControlCharacterRejected(u: string, i: nat)
    requires i < |u| && IsControl(u[i])
    requires forall j :: 0 <= j < i ==> u[j] != '#'
    ensures UrlRejected(u)
  {
    var f := FragmentStart(u);
    assert u[i] != '#';
    assert f > i;
  }

  /** The export gets as far as its first send, and building that request
      fails, so that `makeHttpRequest` panics on the nil request. */
  predicate SendPanics(run: GzipRun, target: string)
  {
    run.Written? && run.pendingLen <= MaxBulkSize && run.closed.Some? && UrlRejected(target)
  }

  /** An endpoint that always answers `c`, as in the repository's export
      test: a terminal `c` is returned after one send, any other `c` after
      the whole budget of four. */
  lemma {:induction false} ExportConstantEndpoint(pendingLen: nat, payload: seq<byte>, c: int)
    requires pendingLen <= MaxBulkSize
    ensures ExportOutcome(Written(pendingLen, Some(payload)), _ => c)
      == ExportResult(c, if ShouldRetry(c) then SendRetries else 1, payload)
  {
    AttemptsConstant(c);
  }

  /** 413 is not terminal: a listener that answers 413 and then 200 gets a
      second send, and the export reports 200. */
  lemma {:induction false} ExportRetriesTooLarge(pendingLen: nat, payload: seq<byte>)
    requires pendingLen <= MaxBulkSize
    ensures var respond: nat -> int := k => if k == 0 then StatusRequestEntityTooLarge else StatusOK;
      ExportOutcome(Written(pendingLen, Some(payload)), respond) == ExportResult(StatusOK, 2, payload)
  {
    var respond: nat -> int := k => if k == 0 then StatusRequestEntityTooLarge else StatusOK;
    AttemptsUnique(respond, 2);
  }

  /** An export that sends sleeps once fewer than it sends, 2s, 4s, 8s in
      turn; an export that does not send does not sleep. */
  lemma {:induction false} ExportSleeps(run: GzipRun, respond: nat -> int)
    ensures var a := ExportOutcome(run, respond).attempts;
      && (a == 0 ==> Sleeps(a) == [])
      && (a > 0 ==> Sleeps(a) == [2 * Second, 4 * Second, 8 * Second][..a - 1])
  {
    var a := ExportOutcome(run, respond).attempts;
    ExportOutcomeCases(run, respond);
    if a > 0 {
      var s := Sleeps(a);
      forall k | 0 <= k < a - 1
        ensures s[k] == [2 * Second, 4 * Second, 8 * Second][k]
      {
        BackoffScheduleAt(a - 1, k);
      }
    }
  }

  class LogzioClient {
    var token: string
    var url: string
    /** The newline-delimited records awaiting export. */
    var logsBuffer: seq<byte>

    /** The serialized records the buffer holds, in write order. */
    ghost var records: seq<seq<byte>>
    /** Every request sent and every backoff slept by this client, in order. */
    ghost var trace: seq<Step>

    ghost predicate Valid()
      reads this
    {
      logsBuffer == Frame(records)
    }

    /** A client with a token, an empty buffer and no listener yet. */
    constructor (token: string)
      ensures Valid()
      ensures this.token == token && url == "" && logsBuffer == []
      ensures records == [] && trace == []
    {
      this.token := token;
      url := "";
      logsBuffer := [];
      records := [];
      trace := [];
    }

    /** Sets the listener URL from a region code; nothing else changes. */
    method SetListenerURL(region: string)
      requires Valid()
      modifies this`url
      ensures Valid()
      ensures url == Region.ListenerUrl(region)
    {
      var lowerCaseRegion := Region.Lower(region);
      url := Region.ListenerUrl(lowerCaseRegion);
      Region.ResolvesAsLowerCase(region);
    }

    /** Serializes one record and appends it and a newline to the buffer.
        A record that cannot be serialized leaves the buffer unchanged. */
    method WriteLog(record: Json, encoder: Encoder) returns (err: bool)
      requires Valid()
      modifies this`logsBuffer, this`records
      ensures Valid()
      ensures err <==> Marshal(encoder, record).None?
      ensures err ==> logsBuffer == old(logsBuffer) && records == old(records)
      ensures !err ==> logsBuffer == old(logsBuffer) + Marshal(encoder, record).value + [Newline]
      ensures !err ==> records == old(records) + [Marshal(encoder, record).value]
    {
      var recordBytes := Marshal(encoder, record);
      if recordBytes.None? {
        return true;
      }
      FrameAppend(records, recordBytes.value);
      logsBuffer := logsBuffer + recordBytes.value + [Newline];
      records := records + [recordBytes.value];
      return false;
    }

    /** One export cycle: compress the buffer with `gzip`, refuse an
        oversize bulk before closing the writer, then send up to four
        times, sleeping 2s, 4s, 8s between attempts and stopping at the
        first terminal status; `respond(k)` is the endpoint's answer to
        attempt k. Every path that returns empties the buffer; `panicked`
        stands for the panic of the first send when its request cannot be
        built, which leaves the client as it was. */
    method Export(gzip: seq<byte> -> GzipRun, respond: nat -> int) returns (status: int, panicked: bool)
      requires Valid()
      modifies this`logsBuffer, this`records, this`trace
      ensures Valid()
      ensures panicked <==> SendPanics(gzip(old(logsBuffer)), Target(url, token))
      ensures panicked ==> logsBuffer == old(logsBuffer) && records == old(records) && trace == old(trace)
      ensures !panicked ==> logsBuffer == [] && records == []
      ensures var r := ExportOutcome(gzip(old(logsBuffer)), respond);
        !panicked ==> status == r.status && trace == old(trace) + Steps(Target(url, token), r.payload, r.attempts)
    {
      var run := gzip(logsBuffer);
      if run.WriteFailed? {
        logsBuffer, records := [], [];
        return StatusInternalServerError, false;
      }
      if run.pendingLen > MaxBulkSize {
        logsBuffer, records := [], [];
        return StatusRequestEntityTooLarge, false;
      }
      if run.closed.None? {
        logsBuffer, records := [], [];
        return StatusInternalServerError, false;
      }
      var compressedBuf := run.closed.value;
      status, panicked := 0, false;
      ghost var n := Attempts(respond);
      ghost var target := Target(url, token);
      ghost var steps: seq<Step> := [];
      assert ExportOutcome(run, respond) == ExportResult(respond(n - 1), n, compressedBuf);
      var backOff := InitialBackOff;
      var toBackOff := false;
      var attempt := 0;
      while attempt < SendRetries
        invariant attempt < n || attempt == n == SendRetries
        invariant forall j :: 0 <= j < attempt ==> ShouldRetry(respond(j))
        invariant toBackOff <==> attempt > 0
        invariant attempt > 0 ==> status == respond(attempt - 1) && !UrlRejected(target)
        invariant backOff == BackOff(if attempt == 0 then 0 else attempt - 1)
        invariant steps == Steps(target, compressedBuf, attempt)
        invariant trace == old(trace) && logsBuffer == old(logsBuffer) && records == old(records)
      {
        if toBackOff {
          steps := steps + [Slept(backOff)];
          backOff := backOff * 2;
        }
        var requestUrl := Target(url, token);
        if UrlRejected(requestUrl) {
          return 0, true;
        }
        steps := steps + [Sent(Post(requestUrl, compressedBuf))];
        status := respond(attempt);
        if ShouldRetry(status) {
          toBackOff := true;
        } else {
          attempt := attempt + 1;
          break;
        }
        attempt := attempt + 1;
      }
      assert attempt == n;
      trace := trace + steps;
      logsBuffer, records := [], [];
    }
  }
}
