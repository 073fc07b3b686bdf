/** What holds of every run of the client's retry loop, and how it compares with the proxy's. */
module ClientRuns {
  import opened Basics
  import opened Backoff
  import opened RetryWorld
  import opened ClientRetry
  import ProxyRetry
  import ProxyRuns

  /** The events of an attempt that is followed by another. */
  function Round(body: Option<Bytes>, n: nat, slept: Event): seq<Event> {
    [Send(n, body), Drain(n), CloseBody(n), slept]
  }

  datatype Step = Last(tail: seq<Event>) | GoesOn(slept: Event)

  ghost predicate IsStep(cfg: Config, w: World, body: Option<Bytes>, n: nat, now: int, last: Outcome, s: Step) {
    var run := Attempts(cfg, w, body, n, now, last);
    match s
    case Last(tail) =>
      && run.log == [Send(n, body)] + tail
      && (forall e :: e in tail ==> !e.Send? && e.n == n)
      && ShortTail(n, tail) && SleepsInTime(cfg, w, now, tail)
    case GoesOn(slept) =>
      && slept.Slept? && slept.n == n && NapInTime(cfg, w, now, slept)
      && w.answer(n).Answered?
      && var rest := Attempts(cfg, w, body, n + 1, slept.to, Status(w.answer(n).reply.status));
      && run == After(Round(body, n, slept), rest)
  }

  lemma NoAttemptLeft(cfg: Config, w: World, body: Option<Bytes>, n: nat, now: int, last: Outcome)
    requires n > cfg.maxRetry
    ensures Attempts(cfg, w, body, n, now, last) == Run([], last)
  {
  }

  lemma StepOf(cfg: Config, w: World, body: Option<Bytes>, n: nat, now: int, last: Outcome) returns (s: Step)
    requires n <= cfg.maxRetry
    ensures IsStep(cfg, w, body, n, now, last, s)
  {
    hide BackOff, BackoffAt, DoneAt, Deadline, IsSuccessful, IsRetryable, NapInTime;
    if w.answer(n).TransportError? {
      s := Last([]);
    } else {
      var r := w.answer(n).reply;
      if !r.readOk {
        s := Last([CloseBody(n)]);
      } else if !IsSuccessful(r.status) && r.parses && IsRetryable(r.status) {
        s := PauseOf(cfg, w, body, n, now, last);
      } else {
        s := Last([Drain(n), CloseBody(n)]);
      }
    }
  }

  lemma PauseOf(cfg: Config, w: World, body: Option<Bytes>, n: nat, now: int, last: Outcome) returns (s: Step)
    requires n <= cfg.maxRetry && w.answer(n).Answered?
    requires var r := w.answer(n).reply; r.readOk && !IsSuccessful(r.status) && r.parses && IsRetryable(r.status)
    ensures IsStep(cfg, w, body, n, now, last, s)
  {
    hide BackoffAt, DoneAt, Deadline, Sleep, CheckContextDeadline, IsSuccessful, IsRetryable, NapInTime;
    var status := w.answer(n).reply.status;
    var checked := now + w.attemptTime(n);
    var pause := BackOff(cfg, w, body, n, checked, status);
    var run := Attempts(cfg, w, body, n, now, last);
    var done := [Send(n, body)] + [Drain(n), CloseBody(n)];
    assert run == After(done, pause);
    var from := checked + w.gap(n);
    var nap := Sleep(from, BackoffAt(cfg, n), DoneAt(cfg, w), w.timerWins(n));
    var slept := Slept(n, from, nap.end);
    if CheckContextDeadline(cfg, w, checked, BackoffAt(cfg, n)) {
      NapEndsInTime(cfg, w, n, now);
      if nap.ok {
        s := GoesOn(slept);
        var rest := Attempts(cfg, w, body, n + 1, nap.end, Status(status));
        assert pause == After([slept], rest);
        AfterAfter(done, [slept], rest);
        assert done + [slept] == Round(body, n, slept);
      } else {
        s := Last([Drain(n), CloseBody(n), slept]);
        assert run.log == [Send(n, body)] + s.tail;
      }
    } else {
      s := Last([Drain(n), CloseBody(n)]);
      assert run.log == [Send(n, body)] + s.tail;
    }
  }

  lemma RoundCounts(body: Option<Bytes>, n: nat, slept: Event)
    requires slept.Slept?
    ensures Sends(Round(body, n, slept)) == 1 && Naps(Round(body, n, slept)) == 1
    ensures TotalSleep(Round(body, n, slept)) == slept.to - slept.from
  {
    var a, b, c, d := [Send(n, body)], [Drain(n)], [CloseBody(n)], [slept];
    assert Round(body, n, slept) == a + b + c + d;
    CountsAppend(a, b);
    CountsAppend(a + b, c);
    CountsAppend(a + b + c, d);
    TotalSleepAppend(a, b);
    TotalSleepAppend(a + b, c);
    TotalSleepAppend(a + b + c, d);
    assert a[..0] == [] && b[..0] == [] && c[..0] == [] && d[..0] == [];
  }

  /** At most maxRetry + 1 sends, all of the same bytes; every sleep ends in time, and all sleeps
      together end before the context does. */
  lemma {:induction false} RunFrom(cfg: Config, w: World, body: Option<Bytes>, n: nat, now: int, last: Outcome)
    ensures var log := Attempts(cfg, w, body, n, now, last).log;
            && (forall e :: e in log && e.Send? ==> e.body == body)
            && Sends(log) <= Max(cfg.maxRetry + 1 - n, 0)
            && SleepsInTime(cfg, w, now, log)
            && 0 <= TotalSleep(log) <= Max(DoneAt(cfg, w) - now, 0)
    decreases cfg.maxRetry + 1 - n
  {
    hide Attempts, BackoffAt, DoneAt, Deadline, Round;
    if n > cfg.maxRetry {
      NoAttemptLeft(cfg, w, body, n, now, last);
    } else {
      var s := StepOf(cfg, w, body, n, now, last);
      var log := Attempts(cfg, w, body, n, now, last).log;
      match s {
        case Last(tail) =>
          var send := [Send(n, body)];
          CountsAppend(send, tail);
          NoSends(tail);
          TotalSleepAppend(send, tail);
          assert send[..0] == [];
          TailSleep(cfg, w, n, now, tail);
        case GoesOn(slept) =>
          var next := Status(w.answer(n).reply.status);
          RunFrom(cfg, w, body, n + 1, slept.to, next);
          var round, rest := Round(body, n, slept), Attempts(cfg, w, body, n + 1, slept.to, next).log;
          CountsAppend(round, rest);
          TotalSleepAppend(round, rest);
          RoundCounts(body, n, slept);
          RoundEvents(body, n, slept);
          forall e | e in log
            ensures (e.Send? ==> e.body == body) && (e.Slept? ==> NapInTime(cfg, w, now, e))
          {
            assert e in round || e in rest;
          }
      }
    }
  }

  lemma RoundEvents(body: Option<Bytes>, n: nat, slept: Event)
    requires slept.Slept?
    ensures forall e :: e in Round(body, n, slept) ==> (e.Send? ==> e.body == body) && (e.Slept? ==> e == slept)
  {
  }

  /** The whole call: the bounds above from the start, so that all sleeps fit the timeout. */
  lemma RunIsBounded(cfg: Config, w: World, body: Option<Bytes>)
    ensures var log := Attempts(cfg, w, body, 0, w.start, Nothing).log;
            && Sends(log) <= Max(cfg.maxRetry + 1, 0)
            && (forall e :: e in log && e.Send? ==> e.body == body)
            && SleepsInTime(cfg, w, w.start, log)
            && 0 <= TotalSleep(log) <= cfg.timeout
  {
    hide Attempts, BackoffAt;
    RunFrom(cfg, w, body, 0, w.start, Nothing);
  }

  // ----- how calls end -----

  /** Attempt n is followed by a full sleep. */
  predicate SleepsAfter(cfg: Config, w: World, n: nat, start: int) {
    && w.answer(n).Answered? && w.answer(n).reply.readOk && w.answer(n).reply.parses
    && WorthRetrying(w.answer(n).reply.status)
    && !NoTimeLeft(cfg, w, n, start) && NapOf(cfg, w, n, start).ok
  }

  /** The outcome of a call whose last attempt is n: the body of the response if it is a success, and
      otherwise the status, alone or with the reason why it could not be retried. */
  ghost predicate EndsRightly(cfg: Config, w: World, n: nat, start: int, outcome: Outcome) {
    match w.answer(n)
    case TransportError => outcome == TransportFailure
    case Answered(r) =>
      if !r.readOk then outcome == TransportFailure
      else if Succeeded(r.status) then
        outcome.Success? && outcome.bytes == if r.body.Some? then r.body.value else []
      else if !r.parses then outcome == Unparseable
      else
        && (outcome == DeadlineExceeded(r.status) <==> WorthRetrying(r.status) && NoTimeLeft(cfg, w, n, start))
        && (outcome == Cancelled(r.status) <==>
              WorthRetrying(r.status) && !NoTimeLeft(cfg, w, n, start) && !NapOf(cfg, w, n, start).ok)
        && (outcome == Status(r.status) <==> !WorthRetrying(r.status) || SleepsAfter(cfg, w, n, start))
  }

  lemma OneAttempt(cfg: Config, w: World, body: Option<Bytes>, n: nat, start: int, last: Outcome)
    requires n <= cfg.maxRetry
    ensures var run := Attempts(cfg, w, body, n, start, last);
            && Send(n, body) in run.log
            && if SleepsAfter(cfg, w, n, start) then
                 var slept := SleptAt(cfg, w, n, start);
                 run == After(Round(body, n, slept),
                              Attempts(cfg, w, body, n + 1, slept.to, Status(w.answer(n).reply.status)))
               else
                 EndsRightly(cfg, w, n, start, run.outcome) && forall e :: e in run.log ==> e.n == n
  {
    hide BackoffAt, DoneAt, Sleep, CheckContextDeadline, NoTimeLeft, NapOf, IsSuccessful, IsRetryable;
    CheckIsAboutTheBackoff(cfg, w, n, start);
    var run := Attempts(cfg, w, body, n, start, last);
    if w.answer(n).Answered? {
      StatusesAreThese(w.answer(n).reply.status);
      if SleepsAfter(cfg, w, n, start) {
        var done, slept := [Send(n, body)] + [Drain(n), CloseBody(n)], SleptAt(cfg, w, n, start);
        AfterAfter(done, [slept], Attempts(cfg, w, body, n + 1, slept.to, Status(w.answer(n).reply.status)));
        assert done + [slept] == Round(body, n, slept);
      }
    }
  }

  /** Every call that makes an attempt: from attempt n, started at `now`, it goes on to attempt m,
      started when the sleep before it ended, and ends there as it should. */
  lemma {:induction false} HowCallsEnd(cfg: Config, w: World, body: Option<Bytes>, n: nat, now: int, last: Outcome)
    returns (m: nat, start: int)
    requires n <= cfg.maxRetry
    ensures n <= m <= cfg.maxRetry
    ensures var run := Attempts(cfg, w, body, n, now, last);
            && Send(m, body) in run.log && (forall e :: e in run.log ==> e.n <= m)
            && (if m == n then start == now else exists e :: e in run.log && e.Slept? && e.n == m - 1 && e.to == start)
            && EndsRightly(cfg, w, m, start, run.outcome)
            && (SleepsAfter(cfg, w, m, start) ==> m == cfg.maxRetry)
    ensures forall k :: n <= k < m ==> RetriedFully(cfg, w, Attempts(cfg, w, body, n, now, last).log, k)
    decreases cfg.maxRetry + 1 - n
  {
    hide Attempts, BackoffAt, DoneAt, Sleep, NoTimeLeft, Round, RetriedFully;
    var run := Attempts(cfg, w, body, n, now, last);
    OneAttempt(cfg, w, body, n, now, last);
    m, start := n, now;
    if SleepsAfter(cfg, w, n, now) {
      var slept, status := SleptAt(cfg, w, n, now), Status(w.answer(n).reply.status);
      var round, rest := Round(body, n, slept), Attempts(cfg, w, body, n + 1, slept.to, status);
      RoundIs(body, n, slept, rest.log);
      if n == cfg.maxRetry {
        NoAttemptLeft(cfg, w, body, n + 1, slept.to, status);
        WorthRetryingIsNoSuccess(w.answer(n).reply.status);
      } else {
        m, start := HowCallsEnd(cfg, w, body, n + 1, slept.to, status);
        FullNap(cfg, w, n, now, run.log);
        forall k | n < k < m
          ensures RetriedFully(cfg, w, run.log, k)
        {
          RetriedLater(cfg, w, round, rest.log, k);
        }
        assert forall e :: e in rest.log ==> e in run.log;
      }
    }
  }

  lemma WorthRetryingIsNoSuccess(status: int)
    requires WorthRetrying(status)
    ensures !Succeeded(status)
  {
  }

  lemma RoundIs(body: Option<Bytes>, n: nat, slept: Event, rest: seq<Event>)
    requires slept.Slept? && slept.n == n
    ensures slept in Round(body, n, slept) + rest && forall e :: e in Round(body, n, slept) ==> e.n == n
  {
    assert (Round(body, n, slept) + rest)[3] == slept;
  }

  // ----- the two loops -----

  /** No transport errors, and bodies that can be read, closed and parsed. */
  ghost predicate Smooth(cfg: Config, w: World) {
    forall n :: 0 <= n <= cfg.maxRetry ==>
        w.answer(n).Answered? && w.answer(n).reply.readOk && w.answer(n).reply.closeOk && w.answer(n).reply.parses
  }

  ghost predicate SameAnswers(cfg: Config, w: World, v: World) {
    forall n :: 0 <= n <= cfg.maxRetry ==> w.answer(n) == v.answer(n)
  }

  predicate Ends(cfg: Config, w: World, n: nat)
    requires w.answer(n).Answered?
  {
    var status := w.answer(n).reply.status;
    IsSuccessful(status) || !IsRetryable(status) || n == cfg.maxRetry
  }

  function NapAt(cfg: Config, w: World, n: nat): Event {
    Slept(n, StartOf(cfg, w, n) + w.attemptTime(n) + w.gap(n), StartOf(cfg, w, n + 1))
  }

  lemma NapLength(cfg: Config, w: World, n: nat)
    ensures NapAt(cfg, w, n).to - NapAt(cfg, w, n).from == Max(BackoffAt(cfg, n), 0)
  {
  }

  lemma ProxyGoesOn(cfg: Config, w: World, body: Option<Bytes>, n: nat)
    requires Ample(cfg, w) && Smooth(cfg, w) && n <= cfg.maxRetry && !Ends(cfg, w, n)
    ensures ProxyRetry.Attempts(cfg, w, body, n, StartOf(cfg, w, n))
         == ProxyRetry.After(ProxyRuns.Round(w, body, n, NapAt(cfg, w, n)),
             ProxyRetry.Attempts(cfg, w, body, n + 1, StartOf(cfg, w, n + 1)))
  {
    hide BackoffAt, DoneAt, Sleep, CheckContextDeadline, IsSuccessful, IsRetryable, StartOf;
    AmpleNap(cfg, w, n);
    var r := w.answer(n).reply;
    var checked := StartOf(cfg, w, n) + w.attemptTime(n);
    var rest := ProxyRetry.Attempts(cfg, w, body, n + 1, StartOf(cfg, w, n + 1));
    assert ProxyRetry.BackOff(cfg, w, body, n, checked) == ProxyRetry.After([NapAt(cfg, w, n)], rest);
    ProxyRetry.AfterAfter([Send(n, body)] + ProxyRetry.Drained(r, n), [NapAt(cfg, w, n)], rest);
  }

  lemma ProxyEnds(cfg: Config, w: World, body: Option<Bytes>, n: nat, now: int)
    requires Smooth(cfg, w) && n <= cfg.maxRetry && Ends(cfg, w, n)
    ensures var run := ProxyRetry.Attempts(cfg, w, body, n, now);
            && run.result.Returned? && run.result.n == n
            && Sends(run.log) == 1 && Naps(run.log) == 0 && TotalSleep(run.log) == 0
  {
    hide BackoffAt, IsRetryable;
    var run := ProxyRetry.Attempts(cfg, w, body, n, now);
    assert run.log == [Send(n, body)] || run.log == [Send(n, body)] + [Drain(n), CloseBody(n)];
    NoNapCounts(body, n);
  }

  lemma NoNapCounts(body: Option<Bytes>, n: nat)
    ensures Sends([Send(n, body)]) == 1 && Naps([Send(n, body)]) == 0 && TotalSleep([Send(n, body)]) == 0
    ensures var log := [Send(n, body)] + [Drain(n), CloseBody(n)];
            Sends(log) == 1 && Naps(log) == 0 && TotalSleep(log) == 0
  {
    var a, b, c := [Send(n, body)], [Drain(n)], [CloseBody(n)];
    assert a + [Drain(n), CloseBody(n)] == a + b + c;
    CountsAppend(a, b);
    CountsAppend(a + b, c);
    TotalSleepAppend(a, b);
    TotalSleepAppend(a + b, c);
    assert a[..0] == [] && b[..0] == [] && c[..0] == [];
  }

  /** The client goes on whenever the status is retryable, even after its last attempt. */
  lemma ClientGoesOn(cfg: Config, w: World, body: Option<Bytes>, n: nat, last: Outcome)
    requires Ample(cfg, w) && Smooth(cfg, w) && n <= cfg.maxRetry
    requires var status := w.answer(n).reply.status; !IsSuccessful(status) && IsRetryable(status)
    ensures Attempts(cfg, w, body, n, StartOf(cfg, w, n), last)
         == After(Round(body, n, NapAt(cfg, w, n)),
             Attempts(cfg, w, body, n + 1, StartOf(cfg, w, n + 1), Status(w.answer(n).reply.status)))
  {
    hide BackoffAt, DoneAt, Sleep, CheckContextDeadline, IsSuccessful, IsRetryable, StartOf;
    AmpleNap(cfg, w, n);
    var status := w.answer(n).reply.status;
    var checked := StartOf(cfg, w, n) + w.attemptTime(n);
    var rest := Attempts(cfg, w, body, n + 1, StartOf(cfg, w, n + 1), Status(status));
    var done := [Send(n, body)] + [Drain(n), CloseBody(n)];
    assert BackOff(cfg, w, body, n, checked, status) == After([NapAt(cfg, w, n)], rest);
    AfterAfter(done, [NapAt(cfg, w, n)], rest);
    assert done + [NapAt(cfg, w, n)] == Round(body, n, NapAt(cfg, w, n));
  }

  lemma ClientEnds(cfg: Config, w: World, body: Option<Bytes>, n: nat, now: int, last: Outcome)
    requires Smooth(cfg, w) && n <= cfg.maxRetry
    requires var status := w.answer(n).reply.status; IsSuccessful(status) || !IsRetryable(status)
    ensures var run := Attempts(cfg, w, body, n, now, last);
            && run.outcome == Reported(w.answer(n).reply)
            && Sends(run.log) == 1 && Naps(run.log) == 0 && TotalSleep(run.log) == 0
  {
    hide BackoffAt, IsRetryable, IsSuccessful;
    NoNapCounts(body, n);
  }

  /** How the client reports a response that ends the loop. */
  function Reported(r: Reply): Outcome {
    if IsSuccessful(r.status) then Success(BodyOf(r)) else Status(r.status)
  }

  /** The two loops wait the same between attempts. */
  ghost predicate SameBackoffs(cfg: Config, cfg': Config) {
    forall n :: 0 <= n <= cfg.maxRetry ==> BackoffAt(cfg, n) == BackoffAt(cfg', n)
  }

  /** From the same attempt on, with as many attempts allowed, the same answers and enough time,
      both loops end on the same attempt. If the attempts run out the client has slept once more,
      for the last backoff. */
  lemma {:induction false} Simulation(cfg: Config, cfg': Config, w: World, v: World, body: Option<Bytes>, n: nat,
                                      last: Outcome)
    requires cfg.maxRetry == cfg'.maxRetry && n <= cfg.maxRetry
    requires Ample(cfg, w) && Ample(cfg', v) && Smooth(cfg, w) && SameAnswers(cfg, w, v)
    ensures var p := ProxyRetry.Attempts(cfg, w, body, n, StartOf(cfg, w, n));
            var c := Attempts(cfg', v, body, n, StartOf(cfg', v, n), last);
            && p.result.Returned? && n <= p.result.n <= cfg.maxRetry
            && Sends(p.log) == Sends(c.log) == p.result.n + 1 - n
            && c.outcome == Reported(w.answer(p.result.n).reply)
            && var status := w.answer(p.result.n).reply.status;
            && var exhausted := !IsSuccessful(status) && IsRetryable(status);
            && (exhausted ==> p.result.n == cfg.maxRetry)
            && Naps(c.log) == Naps(p.log) + (if exhausted then 1 else 0)
            && (SameBackoffs(cfg, cfg') ==>
                  TotalSleep(c.log) == TotalSleep(p.log)
                      + (if exhausted then Max(BackoffAt(cfg, cfg.maxRetry), 0) else 0))
    decreases cfg.maxRetry + 1 - n
  {
    hide ProxyRetry.Attempts, Attempts, BackoffAt, DoneAt, StartOf, IsSuccessful, IsRetryable, Sends, Naps,
        TotalSleep, Ample;
    hide Round, ProxyRuns.Round;
    assert w.answer(n) == v.answer(n) && w.answer(n).Answered?;
    var status := w.answer(n).reply.status;
    if Ends(cfg, w, n) {
      ProxyEnds(cfg, w, body, n, StartOf(cfg, w, n));
      if IsSuccessful(status) || !IsRetryable(status) {
        ClientEnds(cfg', v, body, n, StartOf(cfg', v, n), last);
      } else {
        LastNap(cfg', v, body, n, last);
      }
    } else {
      Simulation(cfg, cfg', w, v, body, n + 1, Status(status));
      ProxyGoesOn(cfg, w, body, n);
      ClientGoesOn(cfg', v, body, n, last);
      var p := ProxyRetry.Attempts(cfg, w, body, n + 1, StartOf(cfg, w, n + 1));
      var c := Attempts(cfg', v, body, n + 1, StartOf(cfg', v, n + 1), Status(status));
      CountsAppend(ProxyRuns.Round(w, body, n, NapAt(cfg, w, n)), p.log);
      CountsAppend(Round(body, n, NapAt(cfg', v, n)), c.log);
      TotalSleepAppend(ProxyRuns.Round(w, body, n, NapAt(cfg, w, n)), p.log);
      TotalSleepAppend(Round(body, n, NapAt(cfg', v, n)), c.log);
      ProxyRuns.RoundCounts(w, body, n, NapAt(cfg, w, n));
      RoundCounts(body, n, NapAt(cfg', v, n));
      NapLength(cfg, w, n);
      NapLength(cfg', v, n);
    }
  }

  /** Whole calls, from the first attempt: the same number of attempts and the same final status. */
  lemma LoopsAgree(cfg: Config, cfg': Config, w: World, v: World, body: Option<Bytes>)
    requires cfg.maxRetry == cfg'.maxRetry && Ample(cfg, w) && Ample(cfg', v) && Smooth(cfg, w)
               && SameAnswers(cfg, w, v)
    ensures var p, c := ProxyRetry.Attempts(cfg, w, body, 0, w.start), Attempts(cfg', v, body, 0, v.start, Nothing);
            && p.result.Returned? && Sends(p.log) == Sends(c.log)
            && w.answer(p.result.n).Answered? && c.outcome == Reported(w.answer(p.result.n).reply)
            && 0 <= Naps(c.log) - Naps(p.log) <= 1
  {
    hide ProxyRetry.Attempts, Attempts, BackoffAt, DoneAt, Sends, Naps, TotalSleep;
    Simulation(cfg, cfg', w, v, body, 0, Nothing);
  }

  /** The sleep of the client after its last attempt. */
  lemma LastNap(cfg: Config, w: World, body: Option<Bytes>, n: nat, last: Outcome)
    requires Ample(cfg, w) && Smooth(cfg, w) && n == cfg.maxRetry
    requires var status := w.answer(n).reply.status; !IsSuccessful(status) && IsRetryable(status)
    ensures var run := Attempts(cfg, w, body, n, StartOf(cfg, w, n), last);
            && run.outcome == Status(w.answer(n).reply.status)
            && Sends(run.log) == 1 && Naps(run.log) == 1 && TotalSleep(run.log) == Max(BackoffAt(cfg, n), 0)
  {
    hide Attempts, BackoffAt, DoneAt, StartOf, IsSuccessful, IsRetryable, Sends, Naps, TotalSleep, Round, Ample;
    ClientGoesOn(cfg, w, body, n, last);
    NoAttemptLeft(cfg, w, body, n + 1, StartOf(cfg, w, n + 1), Status(w.answer(n).reply.status));
    RoundCounts(body, n, NapAt(cfg, w, n));
    NapLength(cfg, w, n);
    assert Round(body, n, NapAt(cfg, w, n)) + [] == Round(body, n, NapAt(cfg, w, n));
  }
}
