/**
  What surrounds a retry loop: a server that may answer anything, a clock that only moves
  forward, and a context that may have a deadline of its own or be cancelled. A World fixes all
  these choices, so that a statement about every run is a statement about every World.
 */
module RetryWorld {
  import opened Basics
  import opened Backoff

  datatype Config = Config(maxRetry: int, init: int, factor: nat, max: int, timeout: nat)

  /** A response; its body may fail to be read or closed, and an error body may fail to parse. */
  datatype Reply = Reply(status: int, body: Option<Bytes>, readOk: bool, closeOk: bool, parses: bool)

  datatype Answer = TransportError | Answered(reply: Reply)

  datatype World = World(
    start: int,
    parentDeadline: Option<int>,
    cancelledAt: Option<int>,
    answer: nat -> Answer,
    /** from the start of attempt n to the deadline check after it */
    attemptTime: nat -> nat,
    /** from that check to the moment the sleep starts */
    gap: nat -> nat,
    /** timer and cancellation ready together: does the timer win? */
    timerWins: nat -> bool,
    /** what the transport leaves unread of the request body */
    leftover: nat -> Bytes)

  function Earlier(t: int, limit: Option<int>): int {
    if limit.Some? then Min(t, limit.value) else t
  }

  function Deadline(cfg: Config, w: World): int {
    Earlier(w.start + cfg.timeout, w.parentDeadline)
  }

  /** When the context's Done channel closes, at the latest. */
  function DoneAt(cfg: Config, w: World): int {
    Earlier(Deadline(cfg, w), w.cancelledAt)
  }

  predicate CheckContextDeadline(cfg: Config, w: World, now: int, sleep: int) {
    sleep <= Deadline(cfg, w) - now
  }

  datatype Nap = Nap(end: int, ok: bool)

  /** Wait for the timer or for Done, whichever comes first. */
  function Sleep(from: int, sleep: int, done: int, timerWins: bool): (nap: Nap)
    ensures from <= nap.end <= Max(from, done) && nap.end - from <= Max(sleep, 0)
    ensures nap.ok ==> nap.end == from + Max(sleep, 0)
    ensures !nap.ok ==> nap.end == Max(from, done)
    ensures from + Max(sleep, 0) != Max(from, done) ==> (nap.ok <==> from + Max(sleep, 0) < Max(from, done))
    ensures from + Max(sleep, 0) == Max(from, done) ==> nap.ok == timerWins
  {
    var timer, cut := from + Max(sleep, 0), Max(from, done);
    if timer < cut then Nap(timer, true)
    else if cut < timer then Nap(cut, false)
    else Nap(cut, timerWins)
  }

  /** What a run does, in order. Draining means reading a response body to its end. */
  datatype Event =
    | Send(n: nat, body: Option<Bytes>)
    | Drain(n: nat)
    | CloseBody(n: nat)
    | Slept(n: nat, from: int, to: int)

  function BackoffAt(cfg: Config, n: nat): int {
    GetRetryBackoff(n, cfg.init, cfg.factor, cfg.max)
  }

  // ----- time spent asleep -----

  function TotalSleep(log: seq<Event>): int {
    if log == [] then 0
    else TotalSleep(log[..|log| - 1]) + (if log[|log| - 1].Slept? then log[|log| - 1].to - log[|log| - 1].from else 0)
  }

  function Count(log: seq<Event>, e: Event): nat {
    if log == [] then 0 else Count(log[..|log| - 1], e) + (if log[|log| - 1] == e then 1 else 0)
  }

  /** How many times the request was sent. */
  function Sends(log: seq<Event>): nat {
    if log == [] then 0 else Sends(log[..|log| - 1]) + (if log[|log| - 1].Send? then 1 else 0)
  }

  /** How many times the run slept. */
  function Naps(log: seq<Event>): nat {
    if log == [] then 0 else Naps(log[..|log| - 1]) + (if log[|log| - 1].Slept? then 1 else 0)
  }

  lemma {:induction false} CountsAppend(a: seq<Event>, b: seq<Event>)
    ensures Sends(a + b) == Sends(a) + Sends(b) && Naps(a + b) == Naps(a) + Naps(b)
    decreases |b|
  {
    if b == [] {
      assert a + b == a;
    } else {
      assert (a + b)[..|a + b| - 1] == a + b[..|b| - 1];
      CountsAppend(a, b[..|b| - 1]);
    }
  }

  lemma {:induction false} NoSends(log: seq<Event>)
    requires forall e :: e in log ==> !e.Send?
    ensures Sends(log) == 0
  {
    if log == [] {
    } else {
      NoSends(log[..|log| - 1]);
    }
  }

  lemma {:induction false} CountAbsent(log: seq<Event>, e: Event)
    requires e !in log
    ensures Count(log, e) == 0
  {
    if log == [] {
    } else {
      CountAbsent(log[..|log| - 1], e);
    }
  }

  lemma {:induction false} CountAppend(a: seq<Event>, b: seq<Event>, e: Event)
    ensures Count(a + b, e) == Count(a, e) + Count(b, e)
    decreases |b|
  {
    if b == [] {
      assert a + b == a;
    } else {
      assert (a + b)[..|a + b| - 1] == a + b[..|b| - 1];
      CountAppend(a, b[..|b| - 1], e);
    }
  }

  lemma {:induction false} TotalSleepAppend(a: seq<Event>, b: seq<Event>)
    ensures TotalSleep(a + b) == TotalSleep(a) + TotalSleep(b)
    decreases |b|
  {
    if b == [] {
      assert a + b == a;
    } else {
      assert (a + b)[..|a + b| - 1] == a + b[..|b| - 1];
      TotalSleepAppend(a, b[..|b| - 1]);
    }
  }

  // ----- sleeps against the deadline -----

  ghost predicate SleepsInTime(cfg: Config, w: World, now: int, log: seq<Event>) {
    forall e :: e in log && e.Slept? ==> NapInTime(cfg, w, now, e)
  }

  predicate Succeeded(status: int) { 200 <= status <= 299 }
  predicate WorthRetrying(status: int) { status in [408, 429, 500, 502, 503, 504] }

  lemma StatusesAreThese(status: int)
    ensures IsSuccessful(status) <==> Succeeded(status)
    ensures IsRetryable(status) <==> WorthRetrying(status)
  {
  }

  /** The moment is past the overall timeout or the caller's own deadline. */
  predicate PastDeadline(cfg: Config, w: World, t: int) {
    t > w.start + cfg.timeout || (w.parentDeadline.Some? && t > w.parentDeadline.value)
  }

  /** When the check was made, the whole backoff still fitted before the deadline. A sleep is never
      longer than its backoff. It ends by the deadline exactly when it starts by it, and at once
      otherwise; it does not outlast a cancellation either. */
  ghost predicate NapInTime(cfg: Config, w: World, now: int, e: Event)
    requires e.Slept?
  {
    var backoff := GetRetryBackoff(e.n, cfg.init, cfg.factor, cfg.max);
    && now <= e.from <= e.to <= Max(e.from, DoneAt(cfg, w))
    && !PastDeadline(cfg, w, e.from - w.gap(e.n) + backoff)
    && e.to - e.from <= Max(backoff, 0)
    && (PastDeadline(cfg, w, e.to) <==> PastDeadline(cfg, w, e.from))
    && (PastDeadline(cfg, w, e.from) ==> e.to == e.from)
    && (w.cancelledAt.Some? && e.to > w.cancelledAt.value ==> e.to == e.from)
  }

  /** The sleep after attempt n, if it was started at `start` and the check let it pass. */
  function NapOf(cfg: Config, w: World, n: nat, start: int): Nap {
    Sleep(start + w.attemptTime(n) + w.gap(n),
          GetRetryBackoff(n, cfg.init, cfg.factor, cfg.max),
          Earlier(Earlier(w.start + cfg.timeout, w.parentDeadline), w.cancelledAt),
          w.timerWins(n))
  }

  /** The backoff after attempt n, if it was started at `start`, would end past the deadline. */
  predicate NoTimeLeft(cfg: Config, w: World, n: nat, start: int) {
    PastDeadline(cfg, w, start + w.attemptTime(n) + GetRetryBackoff(n, cfg.init, cfg.factor, cfg.max))
  }

  function SleptAt(cfg: Config, w: World, n: nat, start: int): Event {
    Slept(n, start + w.attemptTime(n) + w.gap(n), NapOf(cfg, w, n, start).end)
  }

  /** The response to attempt k was worth retrying and its backoff was slept in full. */
  ghost predicate RetriedFully(cfg: Config, w: World, log: seq<Event>, k: nat) {
    && w.answer(k).Answered? && WorthRetrying(w.answer(k).reply.status)
    && exists e :: e in log && e.Slept? && e.n == k
                   && e.to - e.from == Max(GetRetryBackoff(k, cfg.init, cfg.factor, cfg.max), 0)
  }

  lemma FullNap(cfg: Config, w: World, n: nat, start: int, log: seq<Event>)
    requires w.answer(n).Answered? && WorthRetrying(w.answer(n).reply.status)
    requires NapOf(cfg, w, n, start).ok && SleptAt(cfg, w, n, start) in log
    ensures RetriedFully(cfg, w, log, n)
  {
    hide GetRetryBackoff;
    var e := SleptAt(cfg, w, n, start);
  }

  lemma RetriedLater(cfg: Config, w: World, round: seq<Event>, rest: seq<Event>, k: nat)
    requires RetriedFully(cfg, w, rest, k)
    ensures RetriedFully(cfg, w, round + rest, k)
  {
  }

  lemma CheckIsAboutTheBackoff(cfg: Config, w: World, n: nat, start: int)
    ensures CheckContextDeadline(cfg, w, start + w.attemptTime(n), BackoffAt(cfg, n)) <==> !NoTimeLeft(cfg, w, n, start)
    ensures NapOf(cfg, w, n, start)
         == Sleep(start + w.attemptTime(n) + w.gap(n), BackoffAt(cfg, n), DoneAt(cfg, w), w.timerWins(n))
  {
    hide GetRetryBackoff;
  }

  lemma NapEndsInTime(cfg: Config, w: World, n: nat, now: int)
    requires CheckContextDeadline(cfg, w, now + w.attemptTime(n), BackoffAt(cfg, n))
    ensures var from := now + w.attemptTime(n) + w.gap(n);
            var nap := Sleep(from, BackoffAt(cfg, n), DoneAt(cfg, w), w.timerWins(n));
            NapInTime(cfg, w, now, Slept(n, from, nap.end)) && (nap.ok ==> nap.end - from == Max(BackoffAt(cfg, n), 0))
  {
    hide GetRetryBackoff;
  }

  /** The response is drained and closed at most once, and if there is a sleep it comes last. */
  predicate ShortTail(n: nat, tail: seq<Event>) {
    forall i :: 0 <= i < |tail| - 1 ==> tail[i] == Drain(n) || tail[i] == CloseBody(n)
  }

  lemma {:induction false} NoSleep(log: seq<Event>)
    requires forall e :: e in log ==> !e.Slept?
    ensures TotalSleep(log) == 0
  {
    if log == [] {
    } else {
      NoSleep(log[..|log| - 1]);
    }
  }

  lemma TailSleep(cfg: Config, w: World, n: nat, now: int, tail: seq<Event>)
    requires SleepsInTime(cfg, w, now, tail) && ShortTail(n, tail)
    ensures 0 <= TotalSleep(tail) <= Max(DoneAt(cfg, w) - now, 0)
  {
    hide BackoffAt, DoneAt, Deadline;
    if tail != [] {
      var k := |tail| - 1;
      assert tail[k] in tail;
      assert forall e :: e in tail[..k] ==> !e.Slept?;
      NoSleep(tail[..k]);
    }
  }

  // ----- a deadline that is never felt -----

  /** When attempt n starts, if every sleep before it runs its full length. */
  function StartOf(cfg: Config, w: World, n: nat): int {
    if n == 0 then w.start
    else StartOf(cfg, w, n - 1) + w.attemptTime(n - 1) + w.gap(n - 1) + Max(BackoffAt(cfg, n - 1), 0)
  }

  /** All attempts and all sleeps fit before the context ends. */
  predicate Ample(cfg: Config, w: World) {
    cfg.maxRetry >= 0 && StartOf(cfg, w, cfg.maxRetry + 1) < DoneAt(cfg, w)
  }

  lemma {:induction false} StartOfNondecreasing(cfg: Config, w: World, m: nat, n: nat)
    requires m <= n
    ensures StartOf(cfg, w, m) <= StartOf(cfg, w, n)
    decreases n
  {
    if m == n {
    } else {
      StartOfNondecreasing(cfg, w, m, n - 1);
    }
  }

  /** With an ample deadline the check passes and the sleep runs its full length. */
  lemma AmpleNap(cfg: Config, w: World, n: nat)
    requires Ample(cfg, w) && n <= cfg.maxRetry
    ensures var checked := StartOf(cfg, w, n) + w.attemptTime(n);
            && CheckContextDeadline(cfg, w, checked, BackoffAt(cfg, n))
            && Sleep(checked + w.gap(n), BackoffAt(cfg, n), DoneAt(cfg, w), w.timerWins(n))
                == Nap(StartOf(cfg, w, n + 1), true)
  {
    hide BackoffAt;
    StartOfNondecreasing(cfg, w, n + 1, cfg.maxRetry + 1);
  }
}
