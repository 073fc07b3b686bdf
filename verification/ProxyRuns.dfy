/** What holds of every run of the proxy's retry loop. */
module ProxyRuns {
  import opened Basics
  import opened Backoff
  import opened RetryWorld
  import opened ProxyRetry

  // ----- one attempt at a time -----

  /** A run either ends with attempt n or goes on after a completed sleep. */
  datatype Step = Last(tail: seq<Event>) | GoesOn(slept: Event)

  /** The events of an attempt that is followed by another. */
  function Round(w: World, body: Option<Bytes>, n: nat, slept: Event): seq<Event>
    requires w.answer(n).Answered?
  {
    [Send(n, body)] + Drained(w.answer(n).reply, n) + [slept]
  }

  ghost predicate IsStep(cfg: Config, w: World, body: Option<Bytes>, n: nat, now: int, s: Step) {
    var run := Attempts(cfg, w, body, n, now);
    match s
    case Last(tail) =>
      && run.log == [Send(n, body)] + tail
      && run.result != Nothing
      && (forall e :: e in tail ==> !e.Send? && e.n == n)
      && ShortTail(n, tail)
      && SleepsInTime(cfg, w, now, tail)
      && ResultFits(cfg, w, n, tail, run.result)
    case GoesOn(slept) =>
      && n < cfg.maxRetry && w.answer(n).Answered? && IsRetryable(w.answer(n).reply.status)
      && !IsSuccessful(w.answer(n).reply.status)
      && (w.answer(n).reply.body.Some? ==> w.answer(n).reply.readOk && w.answer(n).reply.closeOk)
      && slept.Slept? && slept.n == n && NapInTime(cfg, w, now, slept)
      && slept.to - slept.from == Max(BackoffAt(cfg, n), 0)
      && var rest := Attempts(cfg, w, body, n + 1, slept.to);
      && run.log == Round(w, body, n, slept) + rest.log
      && run.result == rest.result
  }

  /** The result of the last attempt against what was done to its response. */
  ghost predicate ResultFits(cfg: Config, w: World, n: nat, tail: seq<Event>, result: Result) {
    match result
    case Nothing => false
    case Failed(response, reason) => (response.Some? ==> response.value == n) && reason != RequestUnreadable
    case Returned(m, held) =>
      && m == n && w.answer(n).Answered?
      && var r := w.answer(n).reply;
      && (IsSuccessful(r.status) || !IsRetryable(r.status) || n == cfg.maxRetry)
      && match held
         case NoBody => r.body.None? && tail == []
         case Untouched => r.body.Some? && !IsSuccessful(r.status) && tail == []
         case Rebuffered(bytes) => r.body == Some(bytes) && IsSuccessful(r.status) && tail == [Drain(n), CloseBody(n)]
  }

  lemma NoAttemptLeft(cfg: Config, w: World, body: Option<Bytes>, n: nat, now: int)
    requires n > cfg.maxRetry
    ensures Attempts(cfg, w, body, n, now) == Run([], Nothing)
  {
  }

  lemma StepOf(cfg: Config, w: World, body: Option<Bytes>, n: nat, now: int) returns (s: Step)
    requires n <= cfg.maxRetry
    ensures IsStep(cfg, w, body, n, now, s)
  {
    hide BackOff, BackoffAt, DoneAt, Deadline, IsSuccessful, IsRetryable, NapInTime;
    if w.answer(n).TransportError? {
      s := Last([]);
    } else {
      var r := w.answer(n).reply;
      if !IsSuccessful(r.status) && (!IsRetryable(r.status) || n == cfg.maxRetry) {
        s := Last([]);
      } else if r.body.Some? && !r.readOk {
        s := Last([]);
      } else if r.body.Some? && !r.closeOk {
        s := Last([Drain(n)]);
      } else if IsSuccessful(r.status) {
        s := Last(Drained(r, n));
      } else {
        s := PauseOf(cfg, w, body, n, now);
      }
    }
  }

  lemma PauseOf(cfg: Config, w: World, body: Option<Bytes>, n: nat, now: int) returns (s: Step)
    requires n < cfg.maxRetry && w.answer(n).Answered?
    requires var r := w.answer(n).reply;
             !IsSuccessful(r.status) && IsRetryable(r.status) && (r.body.Some? ==> r.readOk && r.closeOk)
    ensures IsStep(cfg, w, body, n, now, s)
  {
    hide BackoffAt, DoneAt, Deadline, Sleep, CheckContextDeadline, IsSuccessful, IsRetryable, NapInTime;
    var r := w.answer(n).reply;
    var checked := now + w.attemptTime(n);
    var pause := BackOff(cfg, w, body, n, checked);
    var run := Attempts(cfg, w, body, n, now);
    assert run == After([Send(n, body)] + Drained(r, n), pause);
    var from := checked + w.gap(n);
    var nap := Sleep(from, BackoffAt(cfg, n), DoneAt(cfg, w), w.timerWins(n));
    var slept := Slept(n, from, nap.end);
    if CheckContextDeadline(cfg, w, checked, BackoffAt(cfg, n)) {
      NapEndsInTime(cfg, w, n, now);
      if nap.ok {
        s := GoesOn(slept);
        var rest := Attempts(cfg, w, body, n + 1, nap.end);
        assert pause == After([slept], rest);
        assert run.log == Round(w, body, n, slept) + rest.log;
      } else {
        s := Last(Drained(r, n) + [slept]);
        assert pause == Run([slept], Failed(Some(n), Cancelled));
        assert run.log == [Send(n, body)] + s.tail;
      }
    } else {
      s := Last(Drained(r, n));
      assert pause == Run([], Failed(Some(n), DeadlineExceeded));
      assert run.log == [Send(n, body)] + s.tail;
    }
  }

  // ----- what is sent -----

  lemma RoundEvents(w: World, body: Option<Bytes>, n: nat, slept: Event)
    requires w.answer(n).Answered? && slept.Slept? && slept.n == n
    ensures forall e :: e in Round(w, body, n, slept) ==> e.n == n && (e.Send? ==> e.body == body)
  {
  }

  lemma {:induction false} SendsFrom(cfg: Config, w: World, body: Option<Bytes>, n: nat, now: int)
    ensures var log := Attempts(cfg, w, body, n, now).log;
            && (forall e :: e in log ==> n <= e.n <= cfg.maxRetry)
            && (forall e :: e in log && e.Send? ==> e.body == body)
            && Sends(log) <= Max(cfg.maxRetry + 1 - n, 0)
    decreases cfg.maxRetry + 1 - n
  {
    hide Attempts, BackoffAt, DoneAt, IsRetryable, IsSuccessful, Round, ResultFits, SleepsInTime, NapInTime;
    if n > cfg.maxRetry {
      NoAttemptLeft(cfg, w, body, n, now);
    } else {
      var s := StepOf(cfg, w, body, n, now);
      var log := Attempts(cfg, w, body, n, now).log;
      match s {
        case Last(tail) =>
          CountsAppend([Send(n, body)], tail);
          NoSends(tail);
          assert Sends([Send(n, body)]) == Sends([]) + 1 by { assert [Send(n, body)][..0] == []; }
        case GoesOn(slept) =>
          SendsFrom(cfg, w, body, n + 1, slept.to);
          var round, rest := Round(w, body, n, slept), Attempts(cfg, w, body, n + 1, slept.to).log;
          CountsAppend(round, rest);
          RoundCounts(w, body, n, slept);
          RoundEvents(w, body, n, slept);
          forall e | e in log
            ensures n <= e.n <= cfg.maxRetry && (e.Send? ==> e.body == body)
          {
            assert e in round || e in rest;
          }
      }
    }
  }

  lemma RoundCounts(w: World, body: Option<Bytes>, n: nat, slept: Event)
    requires w.answer(n).Answered? && slept.Slept?
    ensures Sends(Round(w, body, n, slept)) == 1 && Naps(Round(w, body, n, slept)) == 1
    ensures TotalSleep(Round(w, body, n, slept)) == slept.to - slept.from
    ensures w.answer(n).reply.body.Some? ==>
              Count(Round(w, body, n, slept), Drain(n)) == 1 && Count(Round(w, body, n, slept), CloseBody(n)) == 1
  {
    var a, b, c := [Send(n, body)], Drained(w.answer(n).reply, n), [slept];
    CountsAppend(a + b, c);
    CountsAppend(a, b);
    TotalSleepAppend(a + b, c);
    TotalSleepAppend(a, b);
    assert a[..0] == [] && c[..0] == [];
    if b != [] {
      assert b[..1] == [Drain(n)] && b[..1][..0] == [];
      assert Sends(b[..1]) == 0 && Naps(b[..1]) == 0 && TotalSleep(b[..1]) == 0;
      CountAppend(a + b, c, Drain(n));
      CountAppend(a, b, Drain(n));
      CountAppend(a + b, c, CloseBody(n));
      CountAppend(a, b, CloseBody(n));
      assert Count(b[..1], Drain(n)) == 1 && Count(b[..1], CloseBody(n)) == 0;
    }
  }

  /** At every send of attempt m + 1 or later, the response to attempt m had a retryable status,
      and its body has been drained and closed, exactly once each in the whole run. */
  lemma {:induction false} BodiesFinishedBeforeResend(cfg: Config, w: World, body: Option<Bytes>, n: nat, now: int,
                                                      i: nat, m: nat)
    requires var log := Attempts(cfg, w, body, n, now).log;
             i < |log| && log[i].Send? && n <= m < log[i].n
    ensures w.answer(m).Answered? && IsRetryable(w.answer(m).reply.status)
    ensures var log := Attempts(cfg, w, body, n, now).log;
            w.answer(m).reply.body.Some? ==>
              && Count(log[..i], Drain(m)) == 1 == Count(log, Drain(m))
              && Count(log[..i], CloseBody(m)) == 1 == Count(log, CloseBody(m))
    decreases cfg.maxRetry + 1 - n
  {
    hide Attempts, BackoffAt, DoneAt, IsRetryable, IsSuccessful, Round, ResultFits, SleepsInTime, NapInTime, Count;
    var log := Attempts(cfg, w, body, n, now).log;
    SendsFrom(cfg, w, body, n, now);
    assert log[i] in log;
    var s := StepOf(cfg, w, body, n, now);
    match s {
      case Last(tail) =>
        assert false by { OnlyOneSend(n, body, tail, i); }
      case GoesOn(slept) =>
        var round, rest := Round(w, body, n, slept), Attempts(cfg, w, body, n + 1, slept.to).log;
        SendsFrom(cfg, w, body, n + 1, slept.to);
        FirstSendOnly(w, body, n, slept, rest, i);
        RoundEvents(w, body, n, slept);
        var j := i - |round|;
        if m == n {
          RoundCounts(w, body, n, slept);
          CountsOfFirstRound(round, rest, j, Drain(m));
          CountsOfFirstRound(round, rest, j, CloseBody(m));
        } else {
          BodiesFinishedBeforeResend(cfg, w, body, n + 1, slept.to, j, m);
          CountsOfLaterRound(round, rest, j, Drain(m));
          CountsOfLaterRound(round, rest, j, CloseBody(m));
        }
    }
  }

  lemma CountsOfFirstRound(round: seq<Event>, rest: seq<Event>, j: nat, e: Event)
    requires j <= |rest| && e !in rest
    ensures Count((round + rest)[..|round| + j], e) == Count(round, e) == Count(round + rest, e)
  {
    assert (round + rest)[..|round| + j] == round + rest[..j];
    CountAppend(round, rest, e);
    CountAppend(round, rest[..j], e);
    CountAbsent(rest, e);
    CountAbsent(rest[..j], e);
  }

  lemma CountsOfLaterRound(round: seq<Event>, rest: seq<Event>, j: nat, e: Event)
    requires j <= |rest| && e !in round
    ensures Count((round + rest)[..|round| + j], e) == Count(rest[..j], e)
    ensures Count(round + rest, e) == Count(rest, e)
  {
    assert (round + rest)[..|round| + j] == round + rest[..j];
    CountAppend(round, rest, e);
    CountAppend(round, rest[..j], e);
    CountAbsent(round, e);
  }

  lemma OnlyOneSend(n: nat, body: Option<Bytes>, tail: seq<Event>, i: nat)
    requires i < 1 + |tail| && forall e :: e in tail ==> !e.Send?
    requires ([Send(n, body)] + tail)[i].Send?
    ensures i == 0
  {
  }

  lemma FirstSendOnly(w: World, body: Option<Bytes>, n: nat, slept: Event, rest: seq<Event>, i: nat)
    requires w.answer(n).Answered? && slept.Slept? && i < |Round(w, body, n, slept) + rest|
    requires (Round(w, body, n, slept) + rest)[i].Send? && (Round(w, body, n, slept) + rest)[i].n > n
    ensures i >= |Round(w, body, n, slept)|
  {
  }

  // ----- time asleep -----

  lemma {:induction false} SleepsFrom(cfg: Config, w: World, body: Option<Bytes>, n: nat, now: int)
    ensures var log := Attempts(cfg, w, body, n, now).log;
            && SleepsInTime(cfg, w, now, log)
            && 0 <= TotalSleep(log) <= Max(DoneAt(cfg, w) - now, 0)
    decreases cfg.maxRetry + 1 - n
  {
    hide Attempts, BackoffAt, DoneAt, Deadline, IsRetryable, IsSuccessful, Round, ResultFits;
    if n > cfg.maxRetry {
      NoAttemptLeft(cfg, w, body, n, now);
    } else {
      var s := StepOf(cfg, w, body, n, now);
      var log := Attempts(cfg, w, body, n, now).log;
      match s {
        case Last(tail) =>
          TotalSleepAppend([Send(n, body)], tail);
          assert [Send(n, body)][..0] == [];
          TailSleep(cfg, w, n, now, tail);
        case GoesOn(slept) =>
          SleepsFrom(cfg, w, body, n + 1, slept.to);
          var round, rest := Round(w, body, n, slept), Attempts(cfg, w, body, n + 1, slept.to).log;
          TotalSleepAppend(round, rest);
          RoundCounts(w, body, n, slept);
          RoundNaps(w, body, n, slept);
          forall e | e in log && e.Slept?
            ensures NapInTime(cfg, w, now, e)
          {
            assert e in round || e in rest;
          }
      }
    }
  }

  lemma RoundNaps(w: World, body: Option<Bytes>, n: nat, slept: Event)
    requires w.answer(n).Answered? && slept.Slept?
    ensures forall e :: e in Round(w, body, n, slept) && e.Slept? ==> e == slept
  {
  }

  /** Every sleep of a run ends in time, and all sleeps together last at most the timeout. */
  lemma SleepIsBounded(cfg: Config, w: World, request: RequestBody)
    ensures var log := WholeRun(cfg, w, request).log;
            SleepsInTime(cfg, w, w.start, log) && 0 <= TotalSleep(log) <= cfg.timeout
  {
    hide BackoffAt, Attempts;
    SleepsFrom(cfg, w, None, 0, w.start);
    if request.RequestBody? {
      SleepsFrom(cfg, w, Some(request.bytes), 0, w.start);
    }
  }

  /** A sleep may start after the deadline: nothing is checked between the deadline check and the timer. */
  lemma SleepMayStartLate(cfg: Config, w: World)
    requires cfg == Config(1, 5, 2, 5, 10)
    requires w.start == 0 && w.parentDeadline == None && w.cancelledAt == None
    requires w.answer(0) == Answered(Reply(503, None, true, true, true)) && w.attemptTime(0) == 0 && w.gap(0) == 100
    ensures Deadline(cfg, w) == 10
    ensures Slept(0, 100, 100) in WholeRun(cfg, w, NoRequestBody).log
  {
    assert BackoffAt(cfg, 0) == 5;
    assert BackOff(cfg, w, None, 0, 0).log == [Slept(0, 100, 100)];
  }

  // ----- what is returned -----

  /** A response returned without an error is the last one received: its status ends the loop or
      the attempts are used up, and its body is untouched, or was read in full and is buffered anew. */
  ghost predicate ReturnedIntact(cfg: Config, w: World, log: seq<Event>, k: nat, held: Held) {
    && w.answer(k).Answered?
    && var r := w.answer(k).reply;
    && (IsSuccessful(r.status) || !IsRetryable(r.status) || k == cfg.maxRetry)
    && match held
       case NoBody => r.body.None?
       case Untouched =>
         r.body.Some? && !IsSuccessful(r.status) && Count(log, Drain(k)) == 0 == Count(log, CloseBody(k))
       case Rebuffered(bytes) =>
         r.body == Some(bytes) && IsSuccessful(r.status) && Count(log, Drain(k)) == 1 == Count(log, CloseBody(k))
  }

  lemma LastRound(cfg: Config, w: World, body: Option<Bytes>, n: nat, tail: seq<Event>, result: Result)
    requires (forall e :: e in tail ==> !e.Send?) && ResultFits(cfg, w, n, tail, result)
    ensures Sends([Send(n, body)] + tail) == 1
    ensures result != Failed(None, RequestUnreadable)
    ensures result.Returned? ==> result.n == n && ReturnedIntact(cfg, w, [Send(n, body)] + tail, n, result.held)
  {
    hide IsRetryable, IsSuccessful;
    var send := [Send(n, body)];
    CountsAppend(send, tail);
    NoSends(tail);
    assert send[..0] == [];
    CountAppend(send, tail, Drain(n));
    CountAppend(send, tail, CloseBody(n));
    if tail == [Drain(n), CloseBody(n)] {
      assert tail[..1] == [Drain(n)] && tail[..1][..0] == [];
    }
  }

  lemma {:induction false} ResultFrom(cfg: Config, w: World, body: Option<Bytes>, n: nat, now: int)
    requires n <= cfg.maxRetry
    ensures var run := Attempts(cfg, w, body, n, now);
            && run.result != Nothing && run.result != Failed(None, RequestUnreadable)
            && (run.result.Returned? ==>
                  && n <= run.result.n <= cfg.maxRetry && Sends(run.log) == run.result.n + 1 - n
                  && ReturnedIntact(cfg, w, run.log, run.result.n, run.result.held))
    decreases cfg.maxRetry + 1 - n
  {
    hide Attempts, BackoffAt, DoneAt, IsRetryable, IsSuccessful, Round, SleepsInTime, NapInTime, ResultFits, Sends,
        Count;
    var run := Attempts(cfg, w, body, n, now);
    var s := StepOf(cfg, w, body, n, now);
    match s {
      case Last(tail) =>
        LastRound(cfg, w, body, n, tail, run.result);
      case GoesOn(slept) =>
        ResultFrom(cfg, w, body, n + 1, slept.to);
        var round, rest := Round(w, body, n, slept), Attempts(cfg, w, body, n + 1, slept.to);
        CountsAppend(round, rest.log);
        RoundCounts(w, body, n, slept);
        if rest.result.Returned? {
          RoundEvents(w, body, n, slept);
          CountsOfLaterRound(round, rest.log, 0, Drain(rest.result.n));
          CountsOfLaterRound(round, rest.log, 0, CloseBody(rest.result.n));
        }
    }
  }

  predicate Readable(request: RequestBody) {
    request.RequestBody? ==> request.readOk && request.closeOk
  }

  function BytesOf(request: RequestBody): Option<Bytes> {
    if request.RequestBody? then Some(request.bytes) else None
  }

  // ----- how runs end -----

  /** The body, if there is one, was read or drained to its end and closed. */
  predicate Consumed(r: Reply) {
    r.body.Some? ==> r.readOk && r.closeOk
  }

  /** Attempt n is followed by another. */
  predicate GoesOnAfter(cfg: Config, w: World, n: nat, start: int) {
    && n < cfg.maxRetry && w.answer(n).Answered? && WorthRetrying(w.answer(n).reply.status)
    && Consumed(w.answer(n).reply)
    && !NoTimeLeft(cfg, w, n, start) && NapOf(cfg, w, n, start).ok
  }

  /** The result of a run whose last attempt is n. */
  ghost predicate EndsRightly(cfg: Config, w: World, n: nat, start: int, result: Result) {
    match w.answer(n)
    case TransportError => result == Failed(None, TransportFailed)
    case Answered(r) =>
      var retry := n < cfg.maxRetry && WorthRetrying(r.status);
      var consumes := Succeeded(r.status) || retry;
      && (result == Failed(None, ResponseUnreadable) <==> consumes && r.body.Some? && !r.readOk)
      && (result == Failed(None, NotClosed) <==> consumes && r.body.Some? && r.readOk && !r.closeOk)
      && (result == Failed(Some(n), DeadlineExceeded) <==> retry && Consumed(r) && NoTimeLeft(cfg, w, n, start))
      && (result == Failed(Some(n), Cancelled) <==>
            retry && Consumed(r) && !NoTimeLeft(cfg, w, n, start) && !NapOf(cfg, w, n, start).ok)
      && (result.Returned? <==> if Succeeded(r.status) then Consumed(r) else !retry)
      && (result.Returned? ==> result.n == n)
  }

  /** One attempt decides whether there is another, and otherwise the result. */
  lemma OneAttempt(cfg: Config, w: World, body: Option<Bytes>, n: nat, start: int)
    requires n <= cfg.maxRetry
    ensures var run := Attempts(cfg, w, body, n, start);
            && Send(n, body) in run.log
            && if GoesOnAfter(cfg, w, n, start) then
                 var slept := SleptAt(cfg, w, n, start);
                 var rest := Attempts(cfg, w, body, n + 1, slept.to);
                 run.log == Round(w, body, n, slept) + rest.log && run.result == rest.result
               else
                 EndsRightly(cfg, w, n, start, run.result) && forall e :: e in run.log ==> e.n == n
  {
    hide BackoffAt, DoneAt, Sleep, CheckContextDeadline, NoTimeLeft, NapOf, IsSuccessful, IsRetryable;
    CheckIsAboutTheBackoff(cfg, w, n, start);
    if w.answer(n).Answered? {
      StatusesAreThese(w.answer(n).reply.status);
    }
  }

  /** Every run that makes an attempt: from attempt n, started at `now`, it goes on to attempt m,
      started when the sleep before it ended, and ends there as it should. All attempts before m were
      worth retrying and were followed by their full backoff. */
  lemma {:induction false} HowRunsEnd(cfg: Config, w: World, body: Option<Bytes>, n: nat, now: int)
    returns (m: nat, start: int)
    requires n <= cfg.maxRetry
    ensures n <= m <= cfg.maxRetry
    ensures var run := Attempts(cfg, w, body, n, now);
            && Send(m, body) in run.log && (forall e :: e in run.log ==> e.n <= m)
            && (if m == n then start == now else exists e :: e in run.log && e.Slept? && e.n == m - 1 && e.to == start)
            && EndsRightly(cfg, w, m, start, run.result)
    ensures forall k :: n <= k < m ==> RetriedFully(cfg, w, Attempts(cfg, w, body, n, now).log, k)
    decreases cfg.maxRetry + 1 - n
  {
    hide Attempts, BackoffAt, DoneAt, Sleep, NoTimeLeft, EndsRightly, Round, RetriedFully;
    var run := Attempts(cfg, w, body, n, now);
    OneAttempt(cfg, w, body, n, now);
    if !GoesOnAfter(cfg, w, n, now) {
      m, start := n, now;
    } else {
      var slept := SleptAt(cfg, w, n, now);
      var round, rest := Round(w, body, n, slept), Attempts(cfg, w, body, n + 1, slept.to);
      m, start := HowRunsEnd(cfg, w, body, n + 1, slept.to);
      RoundEvents(w, body, n, slept);
      SleptIsInRound(w, body, n, slept, rest.log);
      FullNap(cfg, w, n, now, run.log);
      forall k | n < k < m
        ensures RetriedFully(cfg, w, run.log, k)
      {
        RetriedLater(cfg, w, round, rest.log, k);
      }
      assert forall e :: e in rest.log ==> e in run.log;
    }
  }

  lemma SleptIsInRound(w: World, body: Option<Bytes>, n: nat, slept: Event, rest: seq<Event>)
    requires w.answer(n).Answered?
    ensures slept in Round(w, body, n, slept) + rest
  {
    var round := Round(w, body, n, slept);
    assert (round + rest)[|round| - 1] == slept;
  }

  /** Every run: at most maxRetry + 1 sends, all of the bytes of the request; a result unless the
      request was readable and no attempt allowed; nothing sent for an unreadable request; a returned
      response intact; and every earlier response finished before the next send. */
  lemma RunDiscipline(cfg: Config, w: World, request: RequestBody)
    ensures var run := WholeRun(cfg, w, request);
            && Sends(run.log) <= Max(cfg.maxRetry + 1, 0)
            && (forall e :: e in run.log && e.Send? ==> e.body == BytesOf(request))
            && (run.result == Nothing <==> Readable(request) && cfg.maxRetry < 0)
            && (run.result == Failed(None, RequestUnreadable) <==> !Readable(request))
            && (!Readable(request) ==> run.log == [])
            && (run.result.Returned? ==> ReturnedIntact(cfg, w, run.log, run.result.n, run.result.held))
            && (forall i, m :: 0 <= i < |run.log| && run.log[i].Send? && 0 <= m < run.log[i].n ==>
                  Finished(w, run.log, i, m))
  {
    hide Attempts, BackoffAt, DoneAt;
    if Readable(request) {
      ReadableRunDiscipline(cfg, w, BytesOf(request));
    }
  }

  lemma ReadableRunDiscipline(cfg: Config, w: World, bytes: Option<Bytes>)
    ensures var run := Attempts(cfg, w, bytes, 0, w.start);
            && Sends(run.log) <= Max(cfg.maxRetry + 1, 0)
            && (forall e :: e in run.log && e.Send? ==> e.body == bytes)
            && (run.result == Nothing <==> cfg.maxRetry < 0)
            && run.result != Failed(None, RequestUnreadable)
            && (run.result.Returned? ==> ReturnedIntact(cfg, w, run.log, run.result.n, run.result.held))
            && (forall i, m :: 0 <= i < |run.log| && run.log[i].Send? && 0 <= m < run.log[i].n ==>
                  Finished(w, run.log, i, m))
  {
    hide Attempts, BackoffAt, DoneAt, Sends;
    var run := Attempts(cfg, w, bytes, 0, w.start);
    SendsFrom(cfg, w, bytes, 0, w.start);
    if cfg.maxRetry < 0 {
      NoAttemptLeft(cfg, w, bytes, 0, w.start);
    } else {
      ResultFrom(cfg, w, bytes, 0, w.start);
    }
    forall i, m | 0 <= i < |run.log| && run.log[i].Send? && 0 <= m < run.log[i].n
      ensures Finished(w, run.log, i, m)
    {
      BodiesFinishedBeforeResend(cfg, w, bytes, 0, w.start, i, m);
    }
  }

  /** The body of response m, if any, was drained and closed before position i, and only then. */
  ghost predicate Finished(w: World, log: seq<Event>, i: nat, m: nat)
    requires i < |log|
  {
    && w.answer(m).Answered? && IsRetryable(w.answer(m).reply.status)
    && (w.answer(m).reply.body.Some? ==>
          && Count(log[..i], Drain(m)) == 1 == Count(log, Drain(m))
          && Count(log[..i], CloseBody(m)) == 1 == Count(log, CloseBody(m)))
  }
}
