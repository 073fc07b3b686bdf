/** `retryRoundTripper.RoundTrip` of apiserversdk/proxy.go. */
module ProxyRetry {
  import opened Basics
  import opened Backoff
  import opened RetryWorld

  datatype RequestBody = NoRequestBody | RequestBody(bytes: Bytes, readOk: bool, closeOk: bool)

  datatype Reason = RequestUnreadable | TransportFailed | ResponseUnreadable | NotClosed | DeadlineExceeded | Cancelled

  /** What the caller finds in the body of the response it gets. */
  datatype Held = NoBody | Untouched | Rebuffered(bytes: Bytes)

  datatype Result =
    | Returned(n: nat, held: Held)
    | Failed(response: Option<nat>, reason: Reason)
    | Nothing

  datatype Run = Run(log: seq<Event>, result: Result)

  function After(log: seq<Event>, r: Run): Run {
    r.(log := log + r.log)
  }

  lemma AfterAfter(a: seq<Event>, b: seq<Event>, r: Run)
    ensures After(a, After(b, r)) == After(a + b, r)
  {
    assert a + (b + r.log) == a + b + r.log;
  }

  function Drained(r: Reply, n: nat): seq<Event> {
    if r.body.Some? then [Drain(n), CloseBody(n)] else []
  }

  /** The run from attempt n on, started at `now`, with the bytes saved from the request. */
  function Attempts(cfg: Config, w: World, body: Option<Bytes>, n: nat, now: int): Run
    decreases cfg.maxRetry + 1 - n
  {
    if n > cfg.maxRetry then Run([], Nothing) else
    var send := [Send(n, body)];
    if w.answer(n).TransportError? then Run(send, Failed(None, TransportFailed)) else
    var r := w.answer(n).reply;
    if IsSuccessful(r.status) then After(send, Accept(r, n))
    else if !IsRetryable(r.status) || n == cfg.maxRetry then
      Run(send, Returned(n, if r.body.Some? then Untouched else NoBody))
    else if r.body.Some? && !r.readOk then Run(send, Failed(None, ResponseUnreadable))
    else if r.body.Some? && !r.closeOk then Run(send + [Drain(n)], Failed(None, NotClosed))
    else After(send + Drained(r, n), BackOff(cfg, w, body, n, now + w.attemptTime(n)))
  }

  function Accept(r: Reply, n: nat): Run {
    if r.body.None? then Run([], Returned(n, NoBody))
    else if !r.readOk then Run([], Failed(None, ResponseUnreadable))
    else if !r.closeOk then Run([Drain(n)], Failed(None, NotClosed))
    else Run([Drain(n), CloseBody(n)], Returned(n, Rebuffered(r.body.value)))
  }

  function BackOff(cfg: Config, w: World, body: Option<Bytes>, n: nat, now: int): Run
    requires n <= cfg.maxRetry
    decreases cfg.maxRetry + 1 - n, 0
  {
    var sleep := BackoffAt(cfg, n);
    if !CheckContextDeadline(cfg, w, now, sleep) then Run([], Failed(Some(n), DeadlineExceeded)) else
    var from := now + w.gap(n);
    var nap := Sleep(from, sleep, DoneAt(cfg, w), w.timerWins(n));
    var slept := [Slept(n, from, nap.end)];
    if nap.ok then After(slept, Attempts(cfg, w, body, n + 1, nap.end)) else Run(slept, Failed(Some(n), Cancelled))
  }

  function WholeRun(cfg: Config, w: World, request: RequestBody): Run {
    match request
    case NoRequestBody => Attempts(cfg, w, None, 0, w.start)
    case RequestBody(bytes, readOk, closeOk) =>
      if readOk && closeOk then Attempts(cfg, w, Some(bytes), 0, w.start) else Run([], Failed(None, RequestUnreadable))
  }

  /** Between two attempts: the deadline check and the sleep. */
  method Pause(cfg: Config, w: World, ghost body: Option<Bytes>, attempt: nat, now: int)
    returns (slept: seq<Event>, failure: Option<Reason>, end: int)
    requires attempt <= cfg.maxRetry
    ensures BackOff(cfg, w, body, attempt, now)
         == if failure.Some? then Run(slept, Failed(Some(attempt), failure.value))
            else After(slept, Attempts(cfg, w, body, attempt + 1, end))
  {
    hide Sleep, BackoffAt, CheckContextDeadline, DoneAt, Attempts;
    var sleep := BackoffAt(cfg, attempt);
    if !CheckContextDeadline(cfg, w, now, sleep) {
      return [], Some(DeadlineExceeded), now;
    }
    var from := now + w.gap(attempt);
    var nap := Sleep(from, sleep, DoneAt(cfg, w), w.timerWins(attempt));
    return [Slept(attempt, from, nap.end)], if nap.ok then None else Some(Cancelled), nap.end;
  }

  /** One attempt: the events it causes, and the result if it ends the loop. */
  method Attempt(cfg: Config, w: World, body: Option<Bytes>, attempt: nat, ghost now: int)
    returns (events: seq<Event>, done: Option<Result>)
    requires attempt <= cfg.maxRetry
    ensures Attempts(cfg, w, body, attempt, now)
         == if done.Some? then Run(events, done.value)
            else After(events, BackOff(cfg, w, body, attempt, now + w.attemptTime(attempt)))
  {
    hide BackOff, IsRetryable, IsSuccessful;
    events := [Send(attempt, body)];
    if w.answer(attempt).TransportError? {
      return events, Some(Failed(None, TransportFailed));
    }
    var resp := w.answer(attempt).reply;
    if IsSuccessful(resp.status) {
      if resp.body.None? {
        return events, Some(Returned(attempt, NoBody));
      }
      if !resp.readOk {
        return events, Some(Failed(None, ResponseUnreadable));
      }
      events := events + [Drain(attempt)];
      if !resp.closeOk {
        return events, Some(Failed(None, NotClosed));
      }
      events := events + [CloseBody(attempt)];
      return events, Some(Returned(attempt, Rebuffered(resp.body.value)));
    }
    if !IsRetryable(resp.status) || attempt == cfg.maxRetry {
      return events, Some(Returned(attempt, if resp.body.Some? then Untouched else NoBody));
    }
    if resp.body.Some? {
      if !resp.readOk {
        return events, Some(Failed(None, ResponseUnreadable));
      }
      events := events + [Drain(attempt)];
      if !resp.closeOk {
        return events, Some(Failed(None, NotClosed));
      }
      events := events + [CloseBody(attempt)];
    }
    done := None;
  }

  /** The loop. `reader` is what the next send would transmit; sending uses it up. */
  method RoundTrip(cfg: Config, w: World, request: RequestBody) returns (log: seq<Event>, result: Result)
    ensures Run(log, result) == WholeRun(cfg, w, request)
  {
    hide BackOff;
    log := [];
    var bodyBytes: Option<Bytes> := None;
    if request.RequestBody? {
      if !request.readOk || !request.closeOk {
        return [], Failed(None, RequestUnreadable);
      }
      bodyBytes := Some(request.bytes);
    }
    var reader: Option<Bytes> := if request.RequestBody? then Some([]) else None;
    var now := w.start;
    var attempt := 0;
    ghost var whole := WholeRun(cfg, w, request);
    assert After([], whole) == whole;
    while attempt <= cfg.maxRetry
      invariant 0 <= attempt
      invariant reader.Some? <==> bodyBytes.Some?
      invariant whole == After(log, Attempts(cfg, w, bodyBytes, attempt, now))
      decreases cfg.maxRetry + 1 - attempt
    {
      if bodyBytes.Some? {
        reader := bodyBytes;
      }
      var events, done := Attempt(cfg, w, reader, attempt, now);
      if done.Some? {
        return log + events, done.value;
      }
      if reader.Some? {
        reader := Some(w.leftover(attempt));
      }
      now := now + w.attemptTime(attempt);
      AfterAfter(log, events, BackOff(cfg, w, bodyBytes, attempt, now));
      log := log + events;
      var slept, failure, end := Pause(cfg, w, bodyBytes, attempt, now);
      if failure.Some? {
        return log + slept, Failed(Some(attempt), failure.value);
      }
      AfterAfter(log, slept, Attempts(cfg, w, bodyBytes, attempt + 1, end));
      log := log + slept;
      now := end;
      attempt := attempt + 1;
    }
    result := Nothing;
  }
}
