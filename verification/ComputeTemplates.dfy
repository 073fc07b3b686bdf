/**
  Compute templates in the store: the config map they are kept in
  (apiserver/pkg/util/cluster.go, apiserver/pkg/model/converter.go) and the dictionary of templates
  a request needs (apiserver/pkg/manager/resource_manager.go).
 */
module ComputeTemplates {
  import opened Basics
  import opened TemplateSpec
  import Decimals

  datatype ConfigMap = ConfigMap(name: string, namespace: string, data: map<string, string>)

  /** The JSON texts of extended resources and tolerations. Reading gives whatever decoding leaves in
      the field, also where it ends in an error; None is a nil list. */
  datatype Codec = Codec(
    writeResources: map<string, nat> -> string,
    readResources: string -> map<string, nat>,
    writeTolerations: seq<Toleration> -> string,
    readTolerations: string -> Option<seq<Toleration>>,
    isQuantity: string -> bool)

  ghost predicate Faithful(codec: Codec) {
    && (forall r :: codec.readResources(codec.writeResources(r)) == r)
    && (forall t :: codec.readTolerations(codec.writeTolerations(t)) == Some(t))
  }

  function MemoryUnit(ct: ComputeTemplate): string {
    if ct.memoryUnit != "" then ct.memoryUnit else "Gi"
  }

  function TolerationData(ct: ComputeTemplate, codec: Codec): map<string, string> {
    if ct.tolerations.Some? && ct.tolerations.value != []
    then map["tolerations" := codec.writeTolerations(ct.tolerations.value)]
    else map[]
  }

  /** `NewComputeTemplate`: refused if the memory is not a quantity. */
  function ToConfigMap(ct: ComputeTemplate, codec: Codec): Option<ConfigMap> {
    if !codec.isQuantity(Decimals.Format(ct.memory) + MemoryUnit(ct)) then None else
    Some(ConfigMap(ct.name, ct.namespace, FieldData(ct, codec) + TolerationData(ct, codec)))
  }

  function FieldData(ct: ComputeTemplate, codec: Codec): map<string, string> {
    map["name" := ct.name, "namespace" := ct.namespace,
        "cpu" := Decimals.Format(ct.cpu),
        "memory" := Decimals.Format(ct.memory),
        "memory_unit" := MemoryUnit(ct),
        "gpu" := Decimals.Format(ct.gpu),
        "gpu_accelerator" := ct.gpuAccelerator,
        "extended_resources" := codec.writeResources(ct.extendedResources)]
  }

  /** `FromKubeToAPIComputeTemplate`: an absent key leaves the zero value, errors are only logged. */
  function FromConfigMap(cm: ConfigMap, codec: Codec): ComputeTemplate {
    var data := cm.data;
    var resources := if "extended_resources" in data then codec.readResources(data["extended_resources"]) else map[];
    var tolerations := if "tolerations" in data then codec.readTolerations(data["tolerations"]) else None;
    ComputeTemplate(cm.name, cm.namespace,
                    Decimals.ParseUint32(Entry(data, "cpu")),
                    Decimals.ParseUint32(Entry(data, "memory")),
                    Entry(data, "memory_unit"),
                    Decimals.ParseUint32(Entry(data, "gpu")),
                    Entry(data, "gpu_accelerator"),
                    resources,
                    tolerations)
  }

  /** The text is the number in decimal. */
  ghost predicate Writes(s: string, n: nat) {
    s != "" && (forall c :: c in s ==> '0' <= c <= '9') && Decimals.Value(s, 0) == n
  }

  /** A template is stored exactly if its memory, with the unit or Gi, is a quantity; then each of its
      fields is found under its key. */
  lemma StoredUnderItsKeys(ct: ComputeTemplate, codec: Codec)
    ensures var cm := ToConfigMap(ct, codec);
            var unit := if ct.memoryUnit == "" then "Gi" else ct.memoryUnit;
            && (exists memory :: Writes(memory, ct.memory) && (cm.Some? <==> codec.isQuantity(memory + unit)))
            && (cm.Some? ==>
                  && var data := cm.value.data;
                  && cm.value.name == ct.name && cm.value.namespace == ct.namespace
                  && Entry(data, "name") == ct.name && Entry(data, "namespace") == ct.namespace
                  && Writes(Entry(data, "cpu"), ct.cpu) && Writes(Entry(data, "gpu"), ct.gpu)
                  && Writes(Entry(data, "memory"), ct.memory) && Entry(data, "memory_unit") == unit
                  && Entry(data, "gpu_accelerator") == ct.gpuAccelerator
                  && Entry(data, "extended_resources") == codec.writeResources(ct.extendedResources)
                  && ("tolerations" in data <==> ct.tolerations.Some? && ct.tolerations.value != [])
                  && ("tolerations" in data ==> data["tolerations"] == codec.writeTolerations(ct.tolerations.value)))
  {
    hide Writes, Decimals.Format, FieldData;
    FieldsUnderTheirKeys(ct, codec);
    FormatWrites(ct.memory);
  }

  lemma FieldsUnderTheirKeys(ct: ComputeTemplate, codec: Codec)
    ensures var data := FieldData(ct, codec);
            && "tolerations" !in data
            && Entry(data, "name") == ct.name && Entry(data, "namespace") == ct.namespace
            && Writes(Entry(data, "cpu"), ct.cpu) && Writes(Entry(data, "gpu"), ct.gpu)
            && Writes(Entry(data, "memory"), ct.memory)
            && Entry(data, "memory_unit") == (if ct.memoryUnit == "" then "Gi" else ct.memoryUnit)
            && Entry(data, "gpu_accelerator") == ct.gpuAccelerator
            && Entry(data, "extended_resources") == codec.writeResources(ct.extendedResources)
  {
    hide Writes, Decimals.Format;
    FormatWrites(ct.cpu);
    FormatWrites(ct.gpu);
    FormatWrites(ct.memory);
  }

  lemma FormatWrites(n: nat)
    ensures Writes(Decimals.Format(n), n)
  {
    Decimals.ValueOfFormat(n);
  }

  /** The number found under a key: 0 if there is none or the text is no numeral, and capped at 32 bits. */
  ghost predicate NumberAt(data: map<string, string>, key: string, n: nat) {
    if key !in data then n == 0 else
    var s := data[key];
    exists k :: && 0 <= k <= |s| && (forall c :: c in s[..k] ==> '0' <= c <= '9')
                && (k < |s| ==> !('0' <= s[k] <= '9'))
                && n == var v := Decimals.Value(s[..k], 0);
                        if v > 0xFFFF_FFFF then 0xFFFF_FFFF else if k < |s| then 0 else v
  }

  /** What any config map, well-formed or not, is read as. */
  ghost predicate IsReadAs(cm: ConfigMap, codec: Codec, ct: ComputeTemplate) {
    && ct.name == cm.name && ct.namespace == cm.namespace
    && NumberAt(cm.data, "cpu", ct.cpu) && NumberAt(cm.data, "memory", ct.memory) && NumberAt(cm.data, "gpu", ct.gpu)
    && (if "memory_unit" in cm.data then ct.memoryUnit == cm.data["memory_unit"] else ct.memoryUnit == "")
    && (if "gpu_accelerator" in cm.data
        then ct.gpuAccelerator == cm.data["gpu_accelerator"]
        else ct.gpuAccelerator == "")
    && (if "extended_resources" in cm.data
        then ct.extendedResources == codec.readResources(cm.data["extended_resources"])
        else ct.extendedResources == map[])
    && (if "tolerations" in cm.data
        then ct.tolerations == codec.readTolerations(cm.data["tolerations"])
        else ct.tolerations == None)
  }

  lemma ParsedNumber(data: map<string, string>, key: string)
    ensures NumberAt(data, key, Decimals.ParseUint32(Entry(data, key)))
  {
    var s := Entry(data, key);
    var k := Decimals.DigitsAhead(s);
    Decimals.ParsesExactly(s, k);
    assert s == "" ==> s[..k] == "";
  }

  lemma ReadFromItsKeys(cm: ConfigMap, codec: Codec)
    ensures IsReadAs(cm, codec, FromConfigMap(cm, codec))
  {
    hide NumberAt, Decimals.ParseUint32;
    ParsedNumber(cm.data, "cpu");
    ParsedNumber(cm.data, "memory");
    ParsedNumber(cm.data, "gpu");
  }

  /** What storing makes of a template: the unit gets its default, an empty list of tolerations is dropped. */
  function Stored(ct: ComputeTemplate): ComputeTemplate {
    ct.(memoryUnit := MemoryUnit(ct),
        tolerations := if ct.tolerations == Some([]) then None else ct.tolerations)
  }

  /** A template read back from the store is the one that was written. */
  lemma ConfigMapRoundTrip(ct: ComputeTemplate, codec: Codec)
    requires Faithful(codec)
    requires ct.cpu <= Decimals.MAX_UINT32 && ct.memory <= Decimals.MAX_UINT32 && ct.gpu <= Decimals.MAX_UINT32
    requires ToConfigMap(ct, codec).Some?
    ensures FromConfigMap(ToConfigMap(ct, codec).value, codec) == Stored(ct)
    ensures Stored(Stored(ct)) == Stored(ct)
  {
    hide Decimals.ParseUint32;
    Decimals.FormatParses(ct.cpu);
    Decimals.FormatParses(ct.memory);
    Decimals.FormatParses(ct.gpu);
  }

  // ----- the dictionary of a request -----

  predicate NoDuplicates(s: seq<string>) {
    forall i, j :: 0 <= i < j < |s| ==> s[i] != s[j]
  }

  /** `PopulateComputeTemplate`, with the names the head and the workers ask for. */
  method PopulateComputeTemplate(head: string, workers: seq<string>, get: string -> Option<ConfigMap>, codec: Codec)
    returns (result: Option<map<string, ComputeTemplate>>, fetched: seq<string>)
    ensures result.None? <==> exists name :: name in [head] + workers && get(name).None?
    ensures result.Some? ==>
              && (forall name :: name in result.value <==> name in [head] + workers)
              && (forall name :: name in result.value ==>
                    && get(name).Some? && result.value[name] == FromConfigMap(get(name).value, codec)
                    && IsReadAs(get(name).value, codec, result.value[name]))
              && (forall name :: name in fetched <==> name in [head] + workers)
    ensures NoDuplicates(fetched)
    ensures result.None? ==> fetched != [] && get(fetched[|fetched| - 1]).None?
    ensures forall i :: 0 <= i < |fetched| - 1 ==> get(fetched[i]).Some?
  {
    hide FromConfigMap, IsReadAs;
    fetched := [head];
    if get(head).None? {
      assert head in [head] + workers;
      return None, fetched;
    }
    var dict := map[head := FromConfigMap(get(head).value, codec)];
    for n := 0 to |workers|
      invariant forall name :: name in dict <==> name in [head] + workers[..n]
      invariant forall name :: name in dict ==> get(name).Some? && dict[name] == FromConfigMap(get(name).value, codec)
      invariant forall name :: name in fetched <==> name in dict
      invariant NoDuplicates(fetched)
    {
      var name := workers[n];
      assert [head] + workers[..n + 1] == [head] + workers[..n] + [name];
      if name !in dict {
        fetched := fetched + [name];
        if get(name).None? {
          assert name in [head] + workers;
          return None, fetched;
        }
        dict := dict[name := FromConfigMap(get(name).value, codec)];
      }
    }
    assert workers[..|workers|] == workers;
    forall name | name in dict
      ensures IsReadAs(get(name).value, codec, dict[name])
    {
      ReadFromItsKeys(get(name).value, codec);
    }
    return Some(dict), fetched;
  }
}
