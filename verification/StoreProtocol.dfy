/**
  Get, check, write: the calls of apiserver/pkg/manager/resource_manager.go on the Kubernetes
  store, interleaved with each other and with writers outside the API server. Each call is two
  steps, the Get with its check and the request that follows; any steps may come in between.
 */
module StoreProtocol {

  const MANAGED_BY := "app.kubernetes.io/managed-by"
  const COMPONENT := "kuberay-apiserver"

  /** A stored object. The store gives every write a new version. */
  datatype Object = Object(version: nat, labels: map<string, string>, payload: string)

  predicate Managed(labels: map<string, string>) {
    MANAGED_BY in labels && labels[MANAGED_BY] == COMPONENT
  }

  /** What a client is in the middle of. */
  datatype Task =
    | Updating(name: string, seen: Object)
    | Deleting(name: string, seen: Object)
    | Creating(name: string)

  datatype State = State(objects: map<string, Object>, revision: nat, tasks: map<nat, Task>)

  datatype Action =
    | ReadForUpdate(client: nat, name: string)
    | Update(client: nat, labels: map<string, string>, payload: string)
    | ReadForDelete(client: nat, name: string)
    | Delete(client: nat)
    /** The Get before a create: any error, not only "not found", lets the call go on. */
    | ReadForCreate(client: nat, name: string, getFails: bool)
    | Create(client: nat, labels: map<string, string>, payload: string)
    | ForeignWrite(name: string, labels: map<string, string>, payload: string)
    | ForeignDelete(name: string)

  // ----- the store -----

  function Put(s: State, name: string, labels: map<string, string>, payload: string): State {
    s.(objects := s.objects[name := Object(s.revision + 1, labels, payload)], revision := s.revision + 1)
  }

  function Remove(s: State, name: string): State {
    if name in s.objects then s.(objects := s.objects - {name}, revision := s.revision + 1) else s
  }

  function Finish(s: State, client: nat): State {
    s.(tasks := s.tasks - {client})
  }

  /** The object a client would act on: it is there and carries the label. */
  predicate Readable(s: State, name: string) {
    name in s.objects && Managed(s.objects[name].labels)
  }

  /** The update is accepted: its version is still the stored one. */
  predicate UpdateCommits(s: State, client: nat) {
    && client in s.tasks && s.tasks[client].Updating?
    && s.tasks[client].name in s.objects
    && s.objects[s.tasks[client].name].version == s.tasks[client].seen.version
  }

  predicate DeleteCommits(s: State, client: nat) {
    client in s.tasks && s.tasks[client].Deleting? && s.tasks[client].name in s.objects
  }

  predicate CreateCommits(s: State, client: nat) {
    client in s.tasks && s.tasks[client].Creating? && s.tasks[client].name !in s.objects
  }

  function Next(s: State, a: Action): State {
    match a
    case ReadForUpdate(c, name) =>
      if Readable(s, name) then s.(tasks := s.tasks[c := Updating(name, s.objects[name])]) else Finish(s, c)
    case Update(c, labels, payload) =>
      if UpdateCommits(s, c) then Finish(Put(s, s.tasks[c].name, labels, payload), c)
      else if c in s.tasks && s.tasks[c].Updating? then Finish(s, c) else s
    case ReadForDelete(c, name) =>
      if Readable(s, name) then s.(tasks := s.tasks[c := Deleting(name, s.objects[name])]) else Finish(s, c)
    case Delete(c) =>
      if DeleteCommits(s, c) then Finish(Remove(s, s.tasks[c].name), c)
      else if c in s.tasks && s.tasks[c].Deleting? then Finish(s, c) else s
    case ReadForCreate(c, name, getFails) =>
      if name in s.objects && !getFails then Finish(s, c) else s.(tasks := s.tasks[c := Creating(name)])
    case Create(c, labels, payload) =>
      if CreateCommits(s, c) then Finish(Put(s, s.tasks[c].name, labels, payload), c)
      else if c in s.tasks && s.tasks[c].Creating? then Finish(s, c) else s
    case ForeignWrite(name, labels, payload) => Put(s, name, labels, payload)
    case ForeignDelete(name) => Remove(s, name)
  }

  /** The state after a sequence of actions. */
  function Exec(init: State, acts: seq<Action>): State {
    if acts == [] then init else Next(Exec(init, acts[..|acts| - 1]), acts[|acts| - 1])
  }

  predicate Initial(s: State) {
    s.tasks == map[] && forall n :: n in s.objects ==> s.objects[n].version <= s.revision
  }

  // ----- what every step keeps -----

  /** The version a client saw names the object it saw: while the stored version is the same, so is
      the object; and the object it saw was managed. */
  ghost predicate SeenIsFaithful(s: State, t: Task) {
    !t.Creating? ==>
      && t.seen.version <= s.revision && Managed(t.seen.labels)
      && (t.name in s.objects && s.objects[t.name].version == t.seen.version ==> s.objects[t.name] == t.seen)
  }

  ghost predicate Inv(s: State) {
    && (forall n :: n in s.objects ==> s.objects[n].version <= s.revision)
    && (forall c :: c in s.tasks ==> SeenIsFaithful(s, s.tasks[c]))
  }

  lemma NextKeepsInv(s: State, a: Action)
    requires Inv(s)
    ensures Inv(Next(s, a))
  {
  }

  lemma {:induction false} ExecKeepsInv(init: State, acts: seq<Action>)
    requires Initial(init)
    ensures Inv(Exec(init, acts))
  {
    if acts == [] {
    } else {
      ExecKeepsInv(init, acts[..|acts| - 1]);
      NextKeepsInv(Exec(init, acts[..|acts| - 1]), acts[|acts| - 1]);
    }
  }

  /** In every run, an accepted update overwrites exactly the object the client read and checked, with
      what it sends. */
  lemma UpdateOverwritesWhatItRead(init: State, acts: seq<Action>, client: nat, labels: map<string, string>,
                                   payload: string)
    requires Initial(init) && UpdateCommits(Exec(init, acts), client)
    ensures var s := Exec(init, acts);
            var t := s.tasks[client];
            && Stored(s, Exec(init, acts + [Update(client, labels, payload)]), t.name, labels, payload)
            && s.objects[t.name] == t.seen
            && "app.kubernetes.io/managed-by" in t.seen.labels
            && t.seen.labels["app.kubernetes.io/managed-by"] == "kuberay-apiserver"
  {
    ExecKeepsInv(init, acts);
    assert (acts + [Update(client, labels, payload)])[..|acts|] == acts;
  }

  // ----- versions do not come back -----

  /** The version is used up for that name. */
  predicate Past(s: State, name: string, version: nat) {
    version <= s.revision && (name in s.objects ==> s.objects[name].version > version)
  }

  lemma NextKeepsPast(s: State, a: Action, name: string, version: nat)
    requires Past(s, name, version)
    ensures Past(Next(s, a), name, version)
  {
  }

  lemma {:induction false} ExecKeepsPast(init: State, acts: seq<Action>, i: nat, name: string, version: nat)
    requires i <= |acts| && Past(Exec(init, acts[..i]), name, version)
    ensures Past(Exec(init, acts), name, version)
    decreases |acts|
  {
    if i == |acts| {
      assert acts[..i] == acts;
    } else {
      var prefix := acts[..|acts| - 1];
      assert prefix[..i] == acts[..i];
      ExecKeepsPast(init, prefix, i, name, version);
      NextKeepsPast(Exec(init, prefix), acts[|acts| - 1], name, version);
    }
  }

  /** The state before action i. */
  function Before(init: State, acts: seq<Action>, i: nat): State
    requires i <= |acts|
  {
    Exec(init, acts[..i])
  }

  lemma BeforeNext(init: State, acts: seq<Action>, i: nat)
    requires i < |acts|
    ensures Before(init, acts, i + 1) == Next(Before(init, acts, i), acts[i])
  {
    assert acts[..i + 1][..i] == acts[..i];
  }

  /** The action writes or deletes the object of that name. */
  predicate Touches(s: State, a: Action, name: string) {
    match a
    case Update(c, _, _) => UpdateCommits(s, c) && s.tasks[c].name == name
    case Delete(c) => DeleteCommits(s, c) && s.tasks[c].name == name
    case Create(c, _, _) => CreateCommits(s, c) && s.tasks[c].name == name
    case ForeignWrite(n, _, _) => n == name
    case ForeignDelete(n) => n == name && name in s.objects
    case _ => false
  }

  /** A touch uses up every version there has been; without one the object stays as it is. */
  lemma TouchOrFrame(s: State, a: Action, name: string)
    requires Inv(s)
    ensures Touches(s, a, name) ==> forall v: nat :: v <= s.revision ==> Past(Next(s, a), name, v)
    ensures !Touches(s, a, name) ==>
              && (name in Next(s, a).objects <==> name in s.objects)
              && (name in s.objects ==> Next(s, a).objects[name] == s.objects[name])
  {
  }

  /** Two updates that read the same version of an object cannot both be accepted. */
  lemma NoTwoCommitsOfOneVersion(init: State, acts: seq<Action>, i: nat, j: nat)
    requires Initial(init) && i < j < |acts| && acts[i].Update? && acts[j].Update?
    requires UpdateCommits(Before(init, acts, i), acts[i].client)
    requires UpdateCommits(Before(init, acts, j), acts[j].client)
    ensures var first := Before(init, acts, i).tasks[acts[i].client];
            var second := Before(init, acts, j).tasks[acts[j].client];
            !(first.name == second.name && first.seen.version == second.seen.version)
  {
    var s := Before(init, acts, i);
    var first := s.tasks[acts[i].client];
    ExecKeepsInv(init, acts[..i]);
    TouchOrFrame(s, acts[i], first.name);
    BeforeNext(init, acts, i);
    assert acts[..j][..i + 1] == acts[..i + 1];
    ExecKeepsPast(init, acts[..j], i + 1, first.name, first.seen.version);
  }

  // ----- what requests leave behind -----

  /** The object of that name is new, with these labels and payload and a version that nothing had
      before; every other object is as it was. */
  ghost predicate Stored(s: State, s': State, name: string, labels: map<string, string>, payload: string) {
    && name in s'.objects && s'.objects[name].labels == labels && s'.objects[name].payload == payload
    && (forall n :: n in s.objects ==> s'.objects[name].version > s.objects[n].version)
    && s'.objects - {name} == s.objects - {name}
  }

  ghost predicate Gone(s: State, s': State, name: string) {
    name !in s'.objects && s'.objects == s.objects - {name}
  }

  function Without(tasks: map<nat, Task>, c: nat, ended: bool): map<nat, Task> {
    if ended then tasks - {c} else tasks
  }

  /** In every run: an update is accepted exactly when the version its client read is the stored one,
      a create exactly when there is no such object, a delete exactly when there is one. An accepted
      request stores what it sends, or removes the object, and leaves the others alone; a rejected one
      and a read change no object; and a request ends what its client was in the middle of. */
  lemma WhatRequestsLeave(init: State, acts: seq<Action>, i: nat)
    requires Initial(init) && i < |acts|
    ensures var s, s' := Before(init, acts, i), Before(init, acts, i + 1);
            match acts[i]
            case Update(c, labels, payload) =>
              if c in s.tasks && s.tasks[c].Updating? && s.tasks[c].name in s.objects
                 && s.objects[s.tasks[c].name].version == s.tasks[c].seen.version
              then
                && Stored(s, s', s.tasks[c].name, labels, payload)
                && s'.objects[s.tasks[c].name].version > s.tasks[c].seen.version && s'.tasks == s.tasks - {c}
              else s'.objects == s.objects && s'.tasks == Without(s.tasks, c, c in s.tasks && s.tasks[c].Updating?)
            case Create(c, labels, payload) =>
              if c in s.tasks && s.tasks[c].Creating? && s.tasks[c].name !in s.objects
              then Stored(s, s', s.tasks[c].name, labels, payload) && s'.tasks == s.tasks - {c}
              else s'.objects == s.objects && s'.tasks == Without(s.tasks, c, c in s.tasks && s.tasks[c].Creating?)
            case Delete(c) =>
              if c in s.tasks && s.tasks[c].Deleting? && s.tasks[c].name in s.objects
              then Gone(s, s', s.tasks[c].name) && s'.tasks == s.tasks - {c}
              else s'.objects == s.objects && s'.tasks == Without(s.tasks, c, c in s.tasks && s.tasks[c].Deleting?)
            case ForeignWrite(name, labels, payload) => Stored(s, s', name, labels, payload) && s'.tasks == s.tasks
            case ForeignDelete(name) => Gone(s, s', name) && s'.tasks == s.tasks
            case _ => s'.objects == s.objects
  {
    ExecKeepsInv(init, acts[..i]);
    BeforeNext(init, acts, i);
  }

  /** In every run, a client goes on to update or delete exactly if the object it read is there and
      carries the managed-by label, and to create exactly if its read found nothing or failed. */
  lemma WhatReadsAllow(init: State, acts: seq<Action>, i: nat)
    requires i < |acts|
    ensures var s, s' := Before(init, acts, i), Before(init, acts, i + 1);
            match acts[i]
            case ReadForUpdate(c, name) =>
              if name in s.objects && LabelIs(s.objects[name], "app.kubernetes.io/managed-by", "kuberay-apiserver")
              then s'.tasks == s.tasks[c := Updating(name, s.objects[name])] else s'.tasks == s.tasks - {c}
            case ReadForDelete(c, name) =>
              if name in s.objects && LabelIs(s.objects[name], "app.kubernetes.io/managed-by", "kuberay-apiserver")
              then s'.tasks == s.tasks[c := Deleting(name, s.objects[name])] else s'.tasks == s.tasks - {c}
            case ReadForCreate(c, name, getFails) =>
              if name !in s.objects || getFails then s'.tasks == s.tasks[c := Creating(name)]
              else s'.tasks == s.tasks - {c}
            case _ => true
  {
    BeforeNext(init, acts, i);
  }

  predicate LabelIs(o: Object, key: string, value: string) {
    key in o.labels && o.labels[key] == value
  }

  // ----- from the read to the request -----

  predicate Actor(a: Action, client: nat) {
    !a.ForeignWrite? && !a.ForeignDelete? && a.client == client
  }

  /** Client `c` read `name` at action i and sends its request at action j, doing nothing in between. */
  predicate Pending(init: State, acts: seq<Action>, i: nat, j: nat, c: nat, name: string) {
    && i < j <= |acts|
    && (acts[i] == ReadForUpdate(c, name) || acts[i] == ReadForDelete(c, name))
    && Readable(Before(init, acts, i), name)
    && forall k :: i < k < j ==> !Actor(acts[k], c)
  }

  predicate Untouched(init: State, acts: seq<Action>, i: nat, j: nat, name: string)
    requires i < j <= |acts|
  {
    forall k :: i < k < j ==> !Touches(Before(init, acts, k), acts[k], name)
  }

  lemma OthersKeepTheTask(s: State, a: Action, c: nat)
    requires !Actor(a, c)
    ensures c in Next(s, a).tasks <==> c in s.tasks
    ensures c in s.tasks ==> Next(s, a).tasks[c] == s.tasks[c]
  {
  }

  /** The stored object is the one read if and only if nobody wrote or deleted it since. */
  lemma {:induction false} CurrentExactlyWhenUntouched(init: State, acts: seq<Action>, i: nat, j: nat, c: nat,
                                                       name: string)
    requires Initial(init) && Pending(init, acts, i, j, c, name)
    ensures var s, seen := Before(init, acts, j), Before(init, acts, i).objects[name];
            && c in s.tasks
            && s.tasks[c] == (if acts[i].ReadForUpdate? then Updating(name, seen) else Deleting(name, seen))
            && (name in s.objects && s.objects[name] == seen <==> Untouched(init, acts, i, j, name))
            && (!Untouched(init, acts, i, j, name) ==> Past(s, name, seen.version))
    decreases j
  {
    hide Next, Exec, Inv, Past, Touches, Managed;
    var seen := Before(init, acts, i).objects[name];
    ReadStarts(init, acts, i, c, name);
    if j == i + 1 {
    } else {
      var k := j - 1;
      var s := Before(init, acts, k);
      CurrentExactlyWhenUntouched(init, acts, i, k, c, name);
      ExecKeepsInv(init, acts[..k]);
      VersionsAreUsed(s, c);
      BeforeNext(init, acts, k);
      TouchOrFrame(s, acts[k], name);
      OthersKeepTheTask(s, acts[k], c);
      if !Untouched(init, acts, i, k, name) {
        NextKeepsPast(s, acts[k], name, seen.version);
      }
      if !Untouched(init, acts, i, j, name) {
        PastIsGone(Before(init, acts, j), name, seen);
      }
    }
  }

  lemma ReadStarts(init: State, acts: seq<Action>, i: nat, c: nat, name: string)
    requires i < |acts| && Readable(Before(init, acts, i), name)
    requires acts[i] == ReadForUpdate(c, name) || acts[i] == ReadForDelete(c, name)
    ensures var s, seen := Before(init, acts, i + 1), Before(init, acts, i).objects[name];
            && c in s.tasks
            && s.tasks[c] == (if acts[i].ReadForUpdate? then Updating(name, seen) else Deleting(name, seen))
            && name in s.objects && s.objects[name] == seen
  {
    BeforeNext(init, acts, i);
  }

  lemma VersionsAreUsed(s: State, c: nat)
    requires Inv(s) && c in s.tasks && !s.tasks[c].Creating?
    ensures s.tasks[c].seen.version <= s.revision
  {
  }

  lemma PastIsGone(s: State, name: string, o: Object)
    requires Past(s, name, o.version)
    ensures !(name in s.objects && s.objects[name] == o)
  {
  }

  /** An update is accepted if and only if nobody wrote or deleted the object since it was read. */
  lemma UpdateCommitsExactlyWhenUntouched(init: State, acts: seq<Action>, i: nat, j: nat, c: nat, name: string)
    requires Initial(init) && Pending(init, acts, i, j, c, name) && acts[i].ReadForUpdate?
    ensures UpdateCommits(Before(init, acts, j), c) <==> Untouched(init, acts, i, j, name)
    ensures j < |acts| && acts[j].Update? && acts[j].client == c ==>
              var s, s' := Before(init, acts, j), Before(init, acts, j + 1);
              if Untouched(init, acts, i, j, name) then Stored(s, s', name, acts[j].labels, acts[j].payload)
              else s'.objects == s.objects
  {
    hide Next, Stored, Untouched;
    CurrentExactlyWhenUntouched(init, acts, i, j, c, name);
    ExecKeepsInv(init, acts[..j]);
    if j < |acts| {
      WhatRequestsLeave(init, acts, j);
    }
  }

  /** A delete sends no version. It removes the object that was read and checked if and only if
      nobody wrote or deleted it in between; then the object it removes is managed. */
  lemma DeleteRemovesWhatItReadExactlyWhenUntouched(init: State, acts: seq<Action>, i: nat, j: nat, c: nat,
                                                    name: string)
    requires Initial(init) && Pending(init, acts, i, j, c, name) && acts[i].ReadForDelete?
    ensures var s, seen := Before(init, acts, j), Before(init, acts, i).objects[name];
            && (DeleteCommits(s, c) && name in s.objects && s.objects[name] == seen <==>
                  Untouched(init, acts, i, j, name))
            && (Untouched(init, acts, i, j, name) ==> Managed(s.objects[name].labels))
    ensures j < |acts| && acts[j] == Delete(c) ==> Gone(Before(init, acts, j), Before(init, acts, j + 1), name)
  {
    hide Next, Untouched;
    CurrentExactlyWhenUntouched(init, acts, i, j, c, name);
    if j < |acts| {
      WhatRequestsLeave(init, acts, j);
    }
  }

  /** Otherwise it may remove an object that was never managed. */
  lemma DeleteMayRemoveForeignObject()
    ensures var o := Object(0, map[MANAGED_BY := COMPONENT], "ours");
            var init := State(map["svc" := o], 0, map[]);
            var acts := [ReadForDelete(1, "svc"), ForeignWrite("svc", map[], "theirs")];
            && Initial(init)
            && DeleteCommits(Exec(init, acts), 1)
            && !Managed(Exec(init, acts).objects["svc"].labels)
            && "svc" !in Exec(init, acts + [Delete(1)]).objects
  {
    var o := Object(0, map[MANAGED_BY := COMPONENT], "ours");
    var init := State(map["svc" := o], 0, map[]);
    var read, write := ReadForDelete(1, "svc"), ForeignWrite("svc", map[], "theirs");
    assert [read][..0] == [] && [read, write][..1] == [read];
    assert Exec(init, [read]) == Next(init, read);
    assert Exec(init, [read, write]) == Next(Next(init, read), write);
    assert ([read, write] + [Delete(1)])[..2] == [read, write];
  }

  // ----- creation -----

  predicate Creates(s: State, a: Action, name: string) {
    a.Create? && CreateCommits(s, a.client) && s.tasks[a.client].name == name
  }

  predicate Removes(s: State, a: Action, name: string) {
    || (a.Delete? && DeleteCommits(s, a.client) && s.tasks[a.client].name == name)
    || (a.ForeignDelete? && a.name == name && name in s.objects)
  }

  lemma {:induction false} PresentUnlessRemoved(init: State, acts: seq<Action>, i: nat, j: nat, name: string)
    requires i <= j <= |acts| && name in Before(init, acts, i).objects
    requires forall k :: i <= k < j ==> !Removes(Before(init, acts, k), acts[k], name)
    ensures name in Before(init, acts, j).objects
    decreases j
  {
    hide Next, Exec, Removes;
    if i == j {
    } else {
      PresentUnlessRemoved(init, acts, i, j - 1, name);
      BeforeNext(init, acts, j - 1);
      OnlyRemovalRemoves(Before(init, acts, j - 1), acts[j - 1], name);
    }
  }

  lemma OnlyRemovalRemoves(s: State, a: Action, name: string)
    requires name in s.objects && !Removes(s, a, name)
    ensures name in Next(s, a).objects
  {
  }

  /** Although the check before a create may be stale or may have failed, two creates of one name
      both succeed only if the object was removed in between. */
  lemma CreatesAreSeparatedByRemoval(init: State, acts: seq<Action>, i: nat, j: nat, name: string)
    requires i < j < |acts| && Creates(Before(init, acts, i), acts[i], name)
          && Creates(Before(init, acts, j), acts[j], name)
    ensures exists k :: i < k < j && Removes(Before(init, acts, k), acts[k], name)
  {
    BeforeNext(init, acts, i);
    if forall k :: i < k < j ==> !Removes(Before(init, acts, k), acts[k], name) {
      PresentUnlessRemoved(init, acts, i + 1, j, name);
      assert false;
    }
  }
}
