/** `convertEnvVariables` of apiserver/pkg/model/converter.go: a list of variables split into two maps. */
module EnvVariables {
  import opened Basics

  datatype KeyRef = KeyRef(name: string, key: string)

  /** Where a value comes from; more than one field may be set, or none that is known here. */
  datatype ValueFrom = ValueFrom(
    configMap: Option<KeyRef>,
    secret: Option<KeyRef>,
    resourceField: Option<KeyRef>,
    field: Option<string>)

  datatype EnvVar = EnvVar(name: string, value: string, from: Option<ValueFrom>)

  datatype Source = CONFIGMAP | SECRET | RESOURCEFIELD | FIELD

  datatype ApiRef = ApiRef(source: Source, name: string, key: string)

  const HEAD_ENV := ["MY_POD_IP", "RAY_CLUSTER_NAME", "RAY_PORT", "RAY_ADDRESS", "RAY_USAGE_STATS_KUBERAY_IN_USE"]

  const WORKER_ENV := ["RAY_DISABLE_DOCKER_CPU_WARNING", "TYPE", "CPU_REQUEST", "CPU_LIMITS", "MEMORY_REQUESTS",
                       "MEMORY_LIMITS", "MY_POD_NAME", "MY_POD_IP", "FQ_RAY_IP", "RAY_IP", "RAY_CLUSTER_NAME",
                       "RAY_PORT", "RAY_ADDRESS", "RAY_USAGE_STATS_KUBERAY_IN_USE", "REDIS_PASSWORD"]

  predicate Reserved(name: string, header: bool) {
    name in if header then HEAD_ENV else WORKER_ENV
  }

  /** Workers may not set what the head may not, and a few names more. */
  lemma WorkersReserveMore(name: string)
    ensures Reserved(name, true) ==> Reserved(name, false)
    ensures name in ["TYPE", "CPU_REQUEST", "FQ_RAY_IP", "REDIS_PASSWORD"] ==>
              Reserved(name, false) && !Reserved(name, true)
  {
    forall i | 0 <= i < |HEAD_ENV|
      ensures HEAD_ENV[i] in WORKER_ENV
    {
    }
  }

  /** The reference kept for a source, in order of preference. */
  function RefOf(f: ValueFrom): (r: Option<ApiRef>)
    ensures r.None? <==> f == ValueFrom(None, None, None, None)
    ensures r.Some? ==>
              var kept := Some(KeyRef(r.value.name, r.value.key));
              match r.value.source
              case CONFIGMAP => f.configMap == kept
              case SECRET => f.configMap.None? && f.secret == kept
              case RESOURCEFIELD => f.configMap.None? && f.secret.None? && f.resourceField == kept
              case FIELD =>
                && f.configMap.None? && f.secret.None? && f.resourceField.None?
                && r.value.name == "" && f.field == Some(r.value.key)
  {
    if f.configMap.Some? then Some(ApiRef(CONFIGMAP, f.configMap.value.name, f.configMap.value.key))
    else if f.secret.Some? then Some(ApiRef(SECRET, f.secret.value.name, f.secret.value.key))
    else if f.resourceField.Some? then
      Some(ApiRef(RESOURCEFIELD, f.resourceField.value.name, f.resourceField.value.key))
    else if f.field.Some? then Some(ApiRef(FIELD, "", f.field.value))
    else None
  }

  /** Which of the two maps an entry goes to, if any. */
  datatype Target = Values | ValuesFrom

  predicate GoesTo(e: EnvVar, header: bool, t: Target) {
    !Reserved(e.name, header) && if t.Values? then e.from.None? else e.from.Some? && RefOf(e.from.value).Some?
  }

  /** The last entry of that name, among the first n, that goes to that map. */
  function LastIndex(env: seq<EnvVar>, n: nat, name: string, header: bool, t: Target): (i: Option<nat>)
    requires n <= |env|
    ensures i.Some? ==> i.value < n && env[i.value].name == name && GoesTo(env[i.value], header, t)
    ensures forall j :: 0 <= j < n && env[j].name == name && GoesTo(env[j], header, t) ==> i.Some? && j <= i.value
  {
    if n == 0 then None
    else if env[n - 1].name == name && GoesTo(env[n - 1], header, t) then Some(n - 1)
    else LastIndex(env, n - 1, name, header, t)
  }

  ghost predicate HoldsValues(env: seq<EnvVar>, n: nat, header: bool, values: map<string, string>)
    requires n <= |env|
  {
    forall name ::
      var i := LastIndex(env, n, name, header, Values);
      (name in values <==> i.Some?) && (i.Some? ==> values[name] == env[i.value].value)
  }

  ghost predicate HoldsRefs(env: seq<EnvVar>, n: nat, header: bool, valuesFrom: map<string, ApiRef>)
    requires n <= |env|
  {
    forall name ::
      var i := LastIndex(env, n, name, header, ValuesFrom);
      (name in valuesFrom <==> i.Some?) && (i.Some? ==> valuesFrom[name] == RefOf(env[i.value].from.value).value)
  }

  lemma StepValues(env: seq<EnvVar>, n: nat, header: bool, values: map<string, string>)
    requires n < |env| && HoldsValues(env, n, header, values)
    ensures HoldsValues(env, n + 1, header,
                        if GoesTo(env[n], header, Values) then values[env[n].name := env[n].value] else values)
  {
    hide Reserved, RefOf;
  }

  lemma StepRefs(env: seq<EnvVar>, n: nat, header: bool, valuesFrom: map<string, ApiRef>)
    requires n < |env| && HoldsRefs(env, n, header, valuesFrom)
    ensures HoldsRefs(env, n + 1, header,
                      if GoesTo(env[n], header, ValuesFrom)
                      then valuesFrom[env[n].name := RefOf(env[n].from.value).value]
                      else valuesFrom)
  {
    hide Reserved, RefOf;
  }

  lemma StartEmpty(env: seq<EnvVar>, header: bool)
    ensures HoldsValues(env, 0, header, map[]) && HoldsRefs(env, 0, header, map[])
  {
  }

  /** Each map holds, for each name, the last entry of its own kind. */
  method ConvertEnvVariables(env: seq<EnvVar>, header: bool)
    returns (values: map<string, string>, valuesFrom: map<string, ApiRef>)
    ensures HoldsValues(env, |env|, header, values)
    ensures HoldsRefs(env, |env|, header, valuesFrom)
  {
    hide Reserved, RefOf, LastIndex, HoldsValues, HoldsRefs;
    values, valuesFrom := map[], map[];
    StartEmpty(env, header);
    for n := 0 to |env|
      invariant HoldsValues(env, n, header, values)
      invariant HoldsRefs(env, n, header, valuesFrom)
    {
      var kv := env[n];
      StepValues(env, n, header, values);
      StepRefs(env, n, header, valuesFrom);
      if Reserved(kv.name, header) {
        continue;
      }
      if kv.from.Some? {
        var ref := RefOf(kv.from.value);
        if ref.Some? {
          valuesFrom := valuesFrom[kv.name := ref.value];
        }
      } else {
        values := values[kv.name := kv.value];
      }
    }
  }

  lemma OnlyIndex(env: seq<EnvVar>, header: bool, t: Target, i: nat)
    requires i < |env| && forall j, k :: 0 <= j < k < |env| ==> env[j].name != env[k].name
    ensures LastIndex(env, |env|, env[i].name, header, t) == if GoesTo(env[i], header, t) then Some(i) else None
  {
    hide LastIndex;
  }

  /** Without duplicates, and with known sources only, the two maps have no key in common and hold
      exactly the entries that are not reserved, one each. */
  lemma DuplicateFreeSplitsOneToOne(env: seq<EnvVar>, header: bool, values: map<string, string>,
                                    valuesFrom: map<string, ApiRef>)
    requires forall i, j :: 0 <= i < j < |env| ==> env[i].name != env[j].name
    requires forall i :: 0 <= i < |env| && env[i].from.Some? ==> RefOf(env[i].from.value).Some?
    requires HoldsValues(env, |env|, header, values) && HoldsRefs(env, |env|, header, valuesFrom)
    ensures values.Keys !! valuesFrom.Keys
    ensures forall name :: name in values || name in valuesFrom ==>
              !Reserved(name, header) && exists i :: 0 <= i < |env| && env[i].name == name
    ensures forall i :: 0 <= i < |env| ==>
              && (env[i].name in values <==> !Reserved(env[i].name, header) && env[i].from.None?)
              && (env[i].name in values ==> values[env[i].name] == env[i].value)
              && (env[i].name in valuesFrom <==> !Reserved(env[i].name, header) && env[i].from.Some?)
              && (env[i].name in valuesFrom ==> valuesFrom[env[i].name] == RefOf(env[i].from.value).value)
  {
    hide Reserved, RefOf, LastIndex;
    forall i, t | 0 <= i < |env|
      ensures LastIndex(env, |env|, env[i].name, header, t) == if GoesTo(env[i], header, t) then Some(i) else None
    {
      OnlyIndex(env, header, t, i);
    }
    forall name | name in values || name in valuesFrom
      ensures !Reserved(name, header) && (exists i :: 0 <= i < |env| && env[i].name == name)
                && !(name in values && name in valuesFrom)
    {
      var t := if name in values then Values else ValuesFrom;
      var i := LastIndex(env, |env|, name, header, t);
      assert i.Some? && env[i.value].name == name;
      assert LastIndex(env, |env|, env[i.value].name, header, Values).Some? <==> GoesTo(env[i.value], header, Values);
    }
  }
}
