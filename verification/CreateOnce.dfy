/**
  A create request through the retry loop, against a server that may apply it and still answer
  any status. The server creates by name: it applies a create only if there is no such object.
 */
module CreateOnce {
  import opened Basics
  import opened Backoff
  import opened RetryWorld
  import opened ProxyRetry
  import opened ProxyRuns

  /** `applies(n)`: the server gets to apply attempt n. `removes(n)`: someone else deletes the
      object just before it does. */
  datatype Server = Server(applies: nat -> bool, removes: nat -> bool)

  /** The object of that name, and how often it was created and removed. */
  datatype Store = Store(content: Option<Bytes>, created: nat, removed: nat) {
    function Present(): nat { if content.Some? then 1 else 0 }
  }

  function Removal(sv: Server, st: Store, n: nat): Store {
    if sv.removes(n) && st.content.Some? then Store(None, st.created, st.removed + 1) else st
  }

  predicate Creates(sv: Server, st: Store, n: nat) {
    sv.applies(n) && Removal(sv, st, n).content.None?
  }

  function Receive(sv: Server, st: Store, n: nat, body: Bytes): Store {
    var st' := Removal(sv, st, n);
    if Creates(sv, st, n) then Store(Some(body), st'.created + 1, st'.removed) else st'
  }

  function OnEvent(sv: Server, st: Store, e: Event): Store {
    if e.Send? && e.body.Some? then Receive(sv, st, e.n, e.body.value) else st
  }

  /** The store after the events of a log. */
  function Replay(sv: Server, st: Store, log: seq<Event>): Store {
    if log == [] then st else OnEvent(sv, Replay(sv, st, log[..|log| - 1]), log[|log| - 1])
  }

  predicate ReportsSuccess(w: World, n: nat) {
    w.answer(n).Answered? && IsSuccessful(w.answer(n).reply.status)
  }

  /** The server reports success only for a create it has applied. */
  ghost predicate Honest(sv: Server, w: World, st: Store, log: seq<Event>) {
    forall i :: 0 <= i < |log| && log[i].Send? && ReportsSuccess(w, log[i].n) ==>
      Creates(sv, Replay(sv, st, log[..i]), log[i].n)
  }

  lemma {:induction false} ReplayAppend(sv: Server, st: Store, a: seq<Event>, b: seq<Event>)
    ensures Replay(sv, st, a + b) == Replay(sv, Replay(sv, st, a), b)
    decreases |b|
  {
    if b == [] {
      assert a + b == a;
    } else {
      assert (a + b)[..|a + b| - 1] == a + b[..|b| - 1];
      ReplayAppend(sv, st, a, b[..|b| - 1]);
    }
  }

  lemma {:induction false} ReplayIdle(sv: Server, st: Store, log: seq<Event>)
    requires forall e :: e in log ==> !e.Send?
    ensures Replay(sv, st, log) == st
  {
    if log == [] {
    } else {
      ReplayIdle(sv, st, log[..|log| - 1]);
    }
  }

  /** Whatever is sent, creations and removals balance. */
  lemma {:induction false} Conservation(sv: Server, st: Store, log: seq<Event>)
    ensures var st' := Replay(sv, st, log);
            st'.created + st.removed + st.Present() == st.created + st'.removed + st'.Present()
    ensures Replay(sv, st, log).removed >= st.removed
  {
    if log == [] {
    } else {
      Conservation(sv, st, log[..|log| - 1]);
    }
  }

  /** When every send carries the same bytes, nothing else is ever stored. */
  lemma {:induction false} OnlyTheseBytes(sv: Server, st: Store, log: seq<Event>, bytes: Bytes)
    requires forall e :: e in log && e.Send? ==> e.body == Some(bytes)
    ensures Replay(sv, st, log).content in {st.content, None, Some(bytes)}
    ensures Replay(sv, st, log).created > st.created ==> Replay(sv, st, log).content in {None, Some(bytes)}
  {
    if log == [] {
    } else {
      OnlyTheseBytes(sv, st, log[..|log| - 1], bytes);
      Conservation(sv, st, log[..|log| - 1]);
    }
  }

  /** After a success the object is there, with the bytes of the request. */
  lemma {:induction false} SuccessMeansStored(cfg: Config, w: World, bytes: Bytes, n: nat, now: int, sv: Server,
                                              st: Store)
    requires n <= cfg.maxRetry
    requires var run := Attempts(cfg, w, Some(bytes), n, now);
             && Honest(sv, w, st, run.log)
             && run.result.Returned? && ReportsSuccess(w, run.result.n)
    ensures var st' := Replay(sv, st, Attempts(cfg, w, Some(bytes), n, now).log);
            st'.content == Some(bytes) && st'.created > st.created
    decreases cfg.maxRetry + 1 - n
  {
    hide Attempts, BackoffAt, DoneAt, IsRetryable, Round, SleepsInTime, NapInTime, Receive;
    var run := Attempts(cfg, w, Some(bytes), n, now);
    var send := [Send(n, Some(bytes))];
    var s := StepOf(cfg, w, Some(bytes), n, now);
    match s {
      case Last(tail) =>
        ReplayAppend(sv, st, send, tail);
        ReplayIdle(sv, Replay(sv, st, send), tail);
        assert run.log[0] == send[0] && run.log[..0] == [] && send[..0] == [];
        assert Creates(sv, st, n);
        ReceiveCreates(sv, st, n, bytes);
      case GoesOn(slept) =>
        var round, rest := Round(w, Some(bytes), n, slept), Attempts(cfg, w, Some(bytes), n + 1, slept.to);
        ReplayAppend(sv, st, round, rest.log);
        HonestSuffix(sv, w, st, round, rest.log);
        SuccessMeansStored(cfg, w, bytes, n + 1, slept.to, sv, Replay(sv, st, round));
        CreatedGrows(sv, st, round);
    }
  }

  lemma ReceiveCreates(sv: Server, st: Store, n: nat, bytes: Bytes)
    requires Creates(sv, st, n)
    ensures Receive(sv, st, n, bytes).content == Some(bytes) && Receive(sv, st, n, bytes).created > st.created
  {
  }

  lemma {:induction false} CreatedGrows(sv: Server, st: Store, log: seq<Event>)
    ensures Replay(sv, st, log).created >= st.created
  {
    if log == [] {
    } else {
      CreatedGrows(sv, st, log[..|log| - 1]);
    }
  }

  lemma HonestSuffix(sv: Server, w: World, st: Store, a: seq<Event>, b: seq<Event>)
    requires Honest(sv, w, st, a + b)
    ensures Honest(sv, w, Replay(sv, st, a), b)
  {
    forall i | 0 <= i < |b| && b[i].Send? && ReportsSuccess(w, b[i].n)
      ensures Creates(sv, Replay(sv, Replay(sv, st, a), b[..i]), b[i].n)
    {
      assert (a + b)[|a| + i] == b[i] && (a + b)[..|a| + i] == a + b[..i];
      ReplayAppend(sv, st, a, b[..i]);
    }
  }

  /** However many times the loop sends a create, it makes at most one object more than others
      remove; what it makes holds the bytes of the request; and success means that it made one. */
  lemma CreatesAtMostOnce(cfg: Config, w: World, bytes: Bytes, sv: Server, st: Store)
    ensures var run := Attempts(cfg, w, Some(bytes), 0, w.start);
            var st' := Replay(sv, st, run.log);
            && st'.created - st.created <= 1 + (st'.removed - st.removed)
            && (st.content.Some? ==> st'.created - st.created <= st'.removed - st.removed)
            && st'.content in {st.content, None, Some(bytes)}
            && (st'.created > st.created && st'.removed == st.removed ==>
                  st.content.None? && st'.content == Some(bytes) && st'.created == st.created + 1)
            && (&& Honest(sv, w, st, run.log)
                && run.result.Returned? && ReportsSuccess(w, run.result.n)
                ==> st'.content == Some(bytes) && st'.created > st.created)
  {
    hide Attempts, BackoffAt, DoneAt;
    var run := Attempts(cfg, w, Some(bytes), 0, w.start);
    Conservation(sv, st, run.log);
    SendsFrom(cfg, w, Some(bytes), 0, w.start);
    OnlyTheseBytes(sv, st, run.log, bytes);
    if cfg.maxRetry < 0 {
      NoAttemptLeft(cfg, w, Some(bytes), 0, w.start);
    } else {
      ResultFrom(cfg, w, Some(bytes), 0, w.start);
      if Honest(sv, w, st, run.log) && run.result.Returned? && ReportsSuccess(w, run.result.n) {
        SuccessMeansStored(cfg, w, bytes, 0, w.start, sv, st);
      }
    }
  }
}
