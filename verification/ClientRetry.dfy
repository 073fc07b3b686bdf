/** `executeRequest` of apiserver/pkg/http/client.go. */
module ClientRetry {
  import opened Basics
  import opened Backoff
  import opened RetryWorld

  datatype Outcome =
    | Success(bytes: Bytes)
    | Status(code: int)
    | TransportFailure
    | Unparseable
    | RequestUnreadable
    | DeadlineExceeded(code: int)
    | Cancelled(code: int)
    | Nothing

  datatype Run = Run(log: seq<Event>, outcome: Outcome)

  function After(log: seq<Event>, r: Run): Run {
    r.(log := log + r.log)
  }

  lemma AfterAfter(a: seq<Event>, b: seq<Event>, r: Run)
    ensures After(a, After(b, r)) == After(a + b, r)
  {
    assert a + (b + r.log) == a + b + r.log;
  }

  /** The client always finds a body, possibly empty. */
  function BodyOf(r: Reply): Bytes {
    if r.body.Some? then r.body.value else []
  }

  /** The run from attempt n on; `last` is what an exhausted loop reports. */
  function Attempts(cfg: Config, w: World, body: Option<Bytes>, n: nat, now: int, last: Outcome): Run
    decreases cfg.maxRetry + 1 - n
  {
    if n > cfg.maxRetry then Run([], last) else
    var send := [Send(n, body)];
    if w.answer(n).TransportError? then Run(send, TransportFailure) else
    var r := w.answer(n).reply;
    if !r.readOk then Run(send + [CloseBody(n)], TransportFailure) else
    var done := send + [Drain(n), CloseBody(n)];
    if IsSuccessful(r.status) then Run(done, Success(BodyOf(r)))
    else if !r.parses then Run(done, Unparseable)
    else if !IsRetryable(r.status) then Run(done, Status(r.status))
    else After(done, BackOff(cfg, w, body, n, now + w.attemptTime(n), r.status))
  }

  function BackOff(cfg: Config, w: World, body: Option<Bytes>, n: nat, now: int, status: int): Run
    requires n <= cfg.maxRetry
    decreases cfg.maxRetry + 1 - n, 0
  {
    var sleep := BackoffAt(cfg, n);
    if !CheckContextDeadline(cfg, w, now, sleep) then Run([], DeadlineExceeded(status)) else
    var from := now + w.gap(n);
    var nap := Sleep(from, sleep, DoneAt(cfg, w), w.timerWins(n));
    var slept := [Slept(n, from, nap.end)];
    if nap.ok then After(slept, Attempts(cfg, w, body, n + 1, nap.end, Status(status)))
    else Run(slept, Cancelled(status))
  }

  /** One request and its response: the events, and the bytes and status if it went through. */
  method DoRequest(w: World, body: Option<Bytes>, attempt: nat) returns (events: seq<Event>, got: Option<(Bytes, int)>)
    ensures w.answer(attempt).TransportError? ==> events == [Send(attempt, body)] && got == None
    ensures w.answer(attempt).Answered? ==>
              var r := w.answer(attempt).reply;
              if r.readOk then events == [Send(attempt, body)] + [Drain(attempt), CloseBody(attempt)]
                               && got == Some((BodyOf(r), r.status))
              else events == [Send(attempt, body)] + [CloseBody(attempt)] && got == None
  {
    events := [Send(attempt, body)];
    if w.answer(attempt).TransportError? {
      return events, None;
    }
    var r := w.answer(attempt).reply;
    if !r.readOk {
      return events + [CloseBody(attempt)], None;
    }
    return events + [Drain(attempt), CloseBody(attempt)], Some((BodyOf(r), r.status));
  }

  method Pause(cfg: Config, w: World, ghost body: Option<Bytes>, attempt: nat, now: int, status: int)
    returns (slept: seq<Event>, failure: Option<Outcome>, end: int)
    requires attempt <= cfg.maxRetry
    ensures BackOff(cfg, w, body, attempt, now, status)
         == if failure.Some? then Run(slept, failure.value)
            else After(slept, Attempts(cfg, w, body, attempt + 1, end, Status(status)))
  {
    hide Sleep, BackoffAt, CheckContextDeadline, DoneAt, Attempts;
    var sleep := BackoffAt(cfg, attempt);
    if !CheckContextDeadline(cfg, w, now, sleep) {
      return [], Some(DeadlineExceeded(status)), now;
    }
    var from := now + w.gap(attempt);
    var nap := Sleep(from, sleep, DoneAt(cfg, w), w.timerWins(attempt));
    return [Slept(attempt, from, nap.end)], if nap.ok then None else Some(Cancelled(status)), nap.end;
  }

  /** The loop, with the request body read once (`requestReadable` says whether that worked). */
  method ExecuteRequest(cfg: Config, w: World, body: Option<Bytes>, requestReadable: bool)
    returns (log: seq<Event>, outcome: Outcome)
    ensures Run(log, outcome)
         == if body.Some? && !requestReadable then Run([], RequestUnreadable)
            else Attempts(cfg, w, body, 0, w.start, Nothing)
  {
    hide BackOff, IsSuccessful, IsRetryable;
    log := [];
    if body.Some? && !requestReadable {
      return [], RequestUnreadable;
    }
    var last := Nothing;
    var reader: Option<Bytes> := if body.Some? then Some([]) else None;
    var now := w.start;
    var attempt := 0;
    ghost var whole := Attempts(cfg, w, body, 0, w.start, Nothing);
    assert After([], whole) == whole;
    while attempt <= cfg.maxRetry
      invariant 0 <= attempt
      invariant reader.Some? <==> body.Some?
      invariant whole == After(log, Attempts(cfg, w, body, attempt, now, last))
      decreases cfg.maxRetry + 1 - attempt
    {
      if body.Some? {
        reader := body;
      }
      var events, got := DoRequest(w, reader, attempt);
      if reader.Some? {
        reader := Some(w.leftover(attempt));
      }
      if got.None? {
        last := TransportFailure;
        log := log + events;
        return log, last;
      }
      var (bytes, status) := got.value;
      if IsSuccessful(status) {
        return log + events, Success(bytes);
      }
      if !w.answer(attempt).reply.parses {
        return log + events, Unparseable;
      }
      last := Status(status);
      if !IsRetryable(status) {
        return log + events, last;
      }
      now := now + w.attemptTime(attempt);
      AfterAfter(log, events, BackOff(cfg, w, body, attempt, now, status));
      log := log + events;
      var slept, failure, end := Pause(cfg, w, body, attempt, now, status);
      if failure.Some? {
        return log + slept, failure.value;
      }
      AfterAfter(log, slept, Attempts(cfg, w, body, attempt + 1, end, last));
      log := log + slept;
      now := end;
      attempt := attempt + 1;
    }
    outcome := last;
  }
}
