# KubeRay API servers: a verified model

This project models the parts of KubeRay that rewrite, retry and convert requests for Ray
resources, and proves what they do for every input, every run and every interleaving.

* **Schema passes** (`SchemaPasses`, `SchemaInPlace`, `SchemaSemantics`). The script that turns a
  custom resource definition into a JSON schema closes objects in place and replaces
  int-or-string nodes. Both passes are functions on JSON trees; the in-place pass is a method on
  mutable mappings, shared or not, that is proved to compute its function and to do so exactly when
  it should. A recursive validator after JSON Schema Core, draft 2020-12, says which instances a
  schema accepts, and the written schema is shown to accept exactly the instances it should.
* **Compute templates in requests** (`MutableTree`, `TemplateSpec`, `TemplateEffect`,
  `TemplateInPlace`, `Middleware`). A request is a tree of mutable mappings held by reference. A ghost shape, the JSON
  tree decorated with the identity of each mapping, ties the heap to a tree and rules out aliases.
  Every in-place write is proved to refine a function on trees, up to the middleware's single effect.
  On trees, applying a template is applying a patch, and patches compose. What a template and the
  middleware should do is stated key by key, apart from patches, and shown to be what they do.
* **Retry loops** (`Backoff`, `RetryWorld`, `ProxyRetry`, `ProxyRuns`, `CreateOnce`, `ClientRetry`,
  `ClientRuns`). The proxy's and the client's loops are methods over a World that fixes every choice
  of the server, the clock and the context, so a statement about all Worlds is one about all runs.
* **Store protocol** (`StoreProtocol`). Get, check and write as separate steps of any number of
  clients, interleaved with foreign writers, on a store that gives each write a new version.
* **Conversions** (`Decimals`, `ComputeTemplates`, `ClusterEvents`, `NodeSpecs`, `EnvVariables`,
  `Volumes`). Config maps and templates, events attributed by name, maps emptied of reserved keys,
  environment variables and volumes.

Where the code falls short of what one would expect of it, the model follows the code, and a lemma
gives the exact condition:

* Closing objects admits new instances beneath `not` (`CloseGainsUnderNotExactly`,
  `CloseWidensUnderNot`), and a property that is itself named "properties" costs instances that have
  no undeclared field (`LossesExactly`, `PhantomLosesAnInstance`).
* A mapping that YAML anchors put both under a key and into a list is closed in the list too
  (`CloseInPlace`, `SharedWithAListIsClosedThere`).
* The product behind the backoff no longer fits 64 bits past attempt 34 with the default settings;
  what is slept then is the intended value at eight attempts and nothing at all at the others
  (`BackoffIsCappedExactlyWhen`, `DefaultCappedExactlyWhen`).
* A sleep may start after the deadline; then it ends at once (`SleepIsBounded`, `SleepMayStartLate`).
* Applying a template again appends its tolerations again (`IterationRepeatsTolerationsOnly`).
* The client sleeps once more than the proxy when its attempts run out (`Simulation`).
* A delete removes the object that was checked exactly when nobody touched it in between
  (`DeleteRemovesWhatItReadExactlyWhenUntouched`, `DeleteMayRemoveForeignObject`).
* Same-named clusters of different namespaces share the last events fetched (`OwnEventsExactlyWhen`,
  `SameNameSharesEvents`).
* A second conversion of a node spec has lost image and template name (`ConvertTwice`).
* A secret volume that lists items, an ephemeral volume without a claim template, or any volume of a
  recognised kind that nobody mounts ends in a nil dereference (`PopulateVolumes`, `CrashingPods`).

`dafny verify dfyconfig.toml` checks everything. Proofs use `hide` to keep recursive definitions out
of goals that do not need them.

## Model

| member | source | states |
|---|---|---|
| SchemaPasses.CloseIdempotent | scripts/openapi2jsonschema.py:26-34 | closing objects twice, with either value of the root flag, is closing them once, on every JSON tree |
| SchemaPasses.ReplaceIdempotent | scripts/openapi2jsonschema.py:46-65 | replacing int-or-string nodes twice is replacing them once, on every JSON tree |
| SchemaPasses.PassesCommute | scripts/openapi2jsonschema.py:100-105 | the two passes commute on every JSON tree, whatever the root flag |
| SchemaPasses.WrittenIdempotent | scripts/openapi2jsonschema.py:100-105 | writing a schema that was already written changes nothing |
| SchemaPasses.ReplaceRemovesStored | scripts/openapi2jsonschema.py:46-65 | afterwards no mapping stored under a key and reached through mapping values and one-level lists has "format" equal to "int-or-string" |
| SchemaPasses.ReplaceFixesExactly | scripts/openapi2jsonschema.py:46-65 | the pass leaves a tree alone if and only if it has no such mapping; every other format stays |
| SchemaPasses.RootAndListElementsKeepTheFormat | scripts/openapi2jsonschema.py:46-65 | at the root and at direct elements of a list the format stays |
| SchemaPasses.CloseFixesExactly | scripts/openapi2jsonschema.py:26-34 | the pass leaves a tree alone if and only if every mapping with properties, reached through mapping values, has additionalProperties, the root excused if skipped; and it always leaves such a tree |
| SchemaPasses.ClosingExamples | scripts/openapi2jsonschema.py:16-24 | the results the script itself expects of closing |
| SchemaPasses.ReplacingExamples | scripts/openapi2jsonschema.py:36-44 | the results the script itself expects of replacing, for int-or-string and for every other format |
| SchemaInPlace.AdditionalProperties | scripts/openapi2jsonschema.py:26-34 | in any order of keys and however mappings are shared, the in-place recursion closes exactly the mappings reached through mapping values, each as if it had been closed once, and changes no other mapping |
| SchemaInPlace.CloseInPlace | scripts/openapi2jsonschema.py:26-34 | what is left behind is the closed tree if and only if no mapping still to be closed is reached both through mappings and inside a list; always if no mapping is shared |
| SchemaInPlace.ClosesExactlyWhen | scripts/openapi2jsonschema.py:26-34 | the same condition for every structure and either value of the root flag, on shapes |
| SchemaInPlace.SharedWithAListIsClosedThere | scripts/openapi2jsonschema.py:26-34 | a structure with one mapping under a key and in a list, where the pass leaves more behind than the closed tree |
| SchemaSemantics.CloseExact | scripts/openapi2jsonschema.py:26-34 | for every schema and instance: the closed schema accepts the instance if and only if the schema does when objects the pass closes admit declared fields only, tables that gain the phantom entry admit no field of that name, and schemas in lists mean what they say |
| SchemaSemantics.CloseOnlyNarrows | scripts/openapi2jsonschema.py:26-34 | with nothing left to close beneath `not`, every instance accepted after closing was accepted before |
| SchemaSemantics.CloseGainsUnderNotExactly | scripts/openapi2jsonschema.py:26-34 | beneath `not` the instances gained are exactly those the schema beneath accepts and, read as closed, does not |
| SchemaSemantics.CloseWidensUnderNot | scripts/openapi2jsonschema.py:26-34 | beneath `not` closing makes a rejected instance acceptable |
| SchemaSemantics.ForbiddenExactly | scripts/openapi2jsonschema.py:26-34 | what the pass forbids, for every schema and instance, is an undeclared field at a newly closed object or a field named after the phantom entry at a table that gains it |
| SchemaSemantics.LossesExactly | scripts/openapi2jsonschema.py:26-34 | with nothing left to close beneath `not`, an accepted instance is lost if and only if it has one of the two |
| SchemaSemantics.CloseLosesUndeclaredFields | scripts/openapi2jsonschema.py:26-34 | unless a table gains the phantom entry at an object that stays open, hence without a property named "properties", the instances lost are exactly those with an undeclared field at a newly closed object |
| SchemaSemantics.PhantomLosesAnInstance | scripts/openapi2jsonschema.py:26-34 | a schema with such a property and an accepted instance that is lost though it has no undeclared field at a newly closed object |
| SchemaSemantics.ReplaceExact | scripts/openapi2jsonschema.py:46-65 | the replaced schema, format ignored, accepts exactly what the original accepts when a stored int-or-string node means a string or an integer |
| SchemaSemantics.WrittenExact | scripts/openapi2jsonschema.py:100-105 | the written schema accepts an instance if and only if the original, read as closed and with int-or-string meaning a string or an integer, does, also beneath `not`, with and without DENY_ROOT_ADDITIONAL_PROPERTIES |
| MutableTree.GetOrCreate | apiserversdk/util/template.go:189-198 | the mapping under a key is found or made in place; the tree gains at most an empty object there and nothing else changes |
| MutableTree.Marshal | apiserversdk/util/template.go:151-158 | marshalling the root mapping yields the tree of the heap, with every write made through a sub-mapping |
| TemplateSpec.PatchesCompose | apiserversdk/util/template.go:180-275 | applying one template and then another to a group is applying one composed patch |
| TemplateSpec.IterationRepeatsTolerationsOnly | apiserversdk/util/template.go:199-272 | applying a template n times is applying it once with its tolerations repeated n times |
| TemplateSpec.LaterTemplateWins | apiserversdk/util/template.go:204-250 | the later template decides every resource key it writes, the earlier one keeps its other keys, all further keys are untouched, in limits and requests alike |
| TemplateSpec.ContainerFrame | apiserversdk/util/template.go:204-250 | in a container only limits and requests change, there only the keys written, with the same value on both sides |
| TemplateSpec.GroupFrame | apiserversdk/util/template.go:186-275 | elsewhere in the group only the annotation key, the containers and the tolerations change; the annotation names the template |
| TemplateSpec.PodSpecLists | apiserversdk/util/template.go:203-272 | containers keep their places and are patched one by one; existing tolerations stay first and the new ones follow |
| TemplateEffect.PatchedContainer | apiserversdk/util/template.go:182-247 | in limits and requests of a container, cpu is the decimal of the template's cpu and memory the decimal of its memory followed by its unit; in the container ray-head or ray-worker the accelerator, nvidia.com/gpu by default, holds the gpu count unless it is zero, and extended resources override both; every other key is as before |
| TemplateEffect.PatchedGroup | apiserversdk/util/template.go:180-275 | the annotation ray.io/compute-template names the template, every container is as above, and the list of tolerations is followed by one mapping of key, operator, value and effect for each toleration of the template; everything else in the group is as before |
| TemplateInPlace.SetExtended | apiserversdk/util/template.go:243-246 | limits and requests get all extended resources, the same for every order of the keys |
| TemplateInPlace.ApplyToContainer | apiserversdk/util/template.go:204-250 | the in-place rewrite of a container computes the patched container, with the values of the template key by key, and touches nothing outside it |
| TemplateInPlace.ApplyToGroup | apiserversdk/util/template.go:180-275 | the in-place rewrite of a group computes the patched group, with the template applied key by key, stays alias-free and touches only mappings of the group and new ones |
| Middleware.ClusterAllOrNothing | apiserversdk/util/template.go:83-109 | there is no result if and only if some group names a missing template; otherwise every group that names one has the template found for it applied in its own role, and nothing else changes |
| Middleware.RequestAllOrNothing | apiserversdk/util/template.go:28-126 | every request gets its one right answer: 400 if unreadable, its own bytes if spec is no mapping, 422 exactly if a template is missing, otherwise the request with every template applied under rayClusterSpec, rayClusterConfig or spec itself, or 500 if that cannot be encoded |
| Middleware.Handle | apiserversdk/util/template.go:24-127 | on the mutable request the handler has exactly one effect, the right answer as above, for all three layouts and every answer of the store; if that is a 400 or the original bytes, no mapping of the request was changed |
| Backoff.BackoffIsCappedExactlyWhen | apiserversdk/util/http.go:29-32 | the backoff is iterated multiplication capped at the maximum if and only if the product fits 64 bits or what 64 bits keep of it is at least the maximum |
| Backoff.CappedInRange | apiserversdk/util/http.go:29-32 | that value stays between the initial backoff, or the maximum if that is smaller, and the maximum |
| Backoff.CappedNondecreasing | apiserversdk/util/http.go:29-32 | and never decreases with the attempt |
| Backoff.DefaultFitsExactly | apiserversdk/util/config.go:5-16 | with the default settings the product fits if and only if the attempt is at most 34 |
| Backoff.DefaultCappedExactlyWhen | apiserversdk/util/config.go:5-16 | with the default settings, for attempts up to 62, the backoff is the capped value if and only if the attempt is at most 34 or one of 38, 42, 43, 46, 48, 51, 52 and 54; at the others it is not positive, and zero exactly from 56 on |
| RetryWorld.Sleep | apiserversdk/util/http.go:10-17 | a sleep is complete if its duration ends before the context does and otherwise ends with the context, or at once; in a tie either may win |
| ProxyRetry.RoundTrip | apiserversdk/proxy.go:128-208 | the loop yields the log of events and the result of the recursive account of a run, for every World and request body, although each send uses up the reader |
| ProxyRuns.SendsFrom | apiserversdk/proxy.go:152-162 | from any attempt on, the sends are within the attempts left and all carry the saved bytes |
| ProxyRuns.BodiesFinishedBeforeResend | apiserversdk/proxy.go:152-206 | before any later send every earlier response had a retryable status and its body was drained and closed, exactly once in the whole run |
| ProxyRuns.ResultFrom | apiserversdk/proxy.go:159-195 | a response returned without error is the last one received, ends the loop or uses up the attempts, and its body is untouched or was read in full and buffered again |
| ProxyRuns.RunDiscipline | apiserversdk/proxy.go:128-208 | all of this together for whole runs, with at most MaxRetry + 1 attempts; an unreadable request, and only that, fails before anything is sent; there is no result if and only if the request is readable and MaxRetry is negative |
| ProxyRuns.HowRunsEnd | apiserversdk/proxy.go:152-207 | every run goes on through attempts with status 408, 429, 500, 502, 503 or 504, each followed by its full backoff, to a last one that decides the result: the deadline error exactly if a retry is due and its backoff would end past the deadline, the cancellation exactly if that sleep is cut short, the errors of transport and body exactly in their cases, and otherwise the response |
| ProxyRuns.SleepIsBounded | apiserversdk/proxy.go:131-207 | a sleep is started only if its backoff fitted before the deadline when that was checked; it ends by the deadline if and only if it starts by it, and ends at once if it starts later; it is never longer than its backoff; all sleeps together last at most OverallTimeout |
| ProxyRuns.SleepMayStartLate | apiserversdk/proxy.go:197-205 | a run whose sleep starts after the deadline |
| CreateOnce.Conservation | apiserversdk/proxy.go:152-207 | creations and removals of the object balance with its presence before and after, whatever is sent |
| CreateOnce.SuccessMeansStored | apiserversdk/proxy.go:159-177 | if the loop returns a 2xx from a server that reports only creates it applied, the object exists with the bytes of the request |
| CreateOnce.CreatesAtMostOnce | apiserversdk/proxy.go:136-207 | however often a create is sent, at most one more object is made than others remove, with the original bytes; nothing is made over an existing object |
| ClientRetry.ExecuteRequest | apiserver/pkg/http/client.go:647-735 | the loop yields the log and outcome of the recursive account of a call, for every World |
| ClientRuns.RunIsBounded | apiserver/pkg/http/client.go:647-735 | at most MaxRetry + 1 sends of the same bytes; sleeps are checked and bounded by the deadline as in the proxy; all sleeps together last at most OverallTimeout |
| ClientRuns.HowCallsEnd | apiserver/pkg/http/client.go:689-734 | every call goes on through retryable attempts, each followed by its full backoff, to a last one that decides the outcome: the bytes of a successful response, the deadline error exactly if the backoff would end past the deadline, the cancellation exactly if the sleep is cut short, the status if it is not retryable or the attempts are used up, and the errors of transport and parsing in their cases |
| ClientRuns.Simulation | apiserver/pkg/http/client.go:689-734 | with as many attempts, the same answers and an ample deadline both loops end on the same attempt; on exhaustion the client sleeps exactly the last backoff more |
| ClientRuns.LoopsAgree | apiserver/pkg/http/client.go:689-734 | for whole calls: the same number of attempts and the same final status |
| StoreProtocol.ExecKeepsInv | apiserver/pkg/manager/resource_manager.go:250-274 | in every interleaving the version a client saw stands for the very object it saw, which was managed |
| StoreProtocol.UpdateOverwritesWhatItRead | apiserver/pkg/manager/resource_manager.go:250-274 | an accepted update overwrites exactly the object that was read and whose managed-by label was checked, with the labels and payload it sends |
| StoreProtocol.WhatRequestsLeave | apiserver/pkg/manager/resource_manager.go:250-335 | in every run: an accepted update or create stores the labels and payload it sends under a version nothing had before, an accepted delete removes the object, and all other objects stay; rejected requests and reads change no object |
| StoreProtocol.WhatReadsAllow | apiserver/pkg/manager/resource_manager.go:250-321 | in every run: a client goes on to update or delete exactly if the object is there with managed-by kuberay-apiserver, and to create exactly if its read found nothing or failed |
| StoreProtocol.NoTwoCommitsOfOneVersion | apiserver/pkg/manager/resource_manager.go:268-272 | two updates that read the same version of an object are never both accepted |
| StoreProtocol.UpdateCommitsExactlyWhenUntouched | apiserver/pkg/manager/resource_manager.go:250-274 | an update is accepted, and then stores what it sends, if and only if nobody wrote or deleted the object since it was read; otherwise it changes no object |
| StoreProtocol.DeleteRemovesWhatItReadExactlyWhenUntouched | apiserver/pkg/manager/resource_manager.go:303-314 | a delete removes the object that was checked if and only if nobody wrote or deleted it since; then it is managed; in any case the name is gone and the rest unchanged |
| StoreProtocol.DeleteMayRemoveForeignObject | apiserver/pkg/manager/resource_manager.go:143-157 | an interleaving in which a delete removes an object that was never managed |
| StoreProtocol.CreatesAreSeparatedByRemoval | apiserver/pkg/manager/resource_manager.go:317-335 | two creates of one name succeed only with a removal in between, however stale or failed the check before them |
| Decimals.FormatParses | apiserver/pkg/model/converter.go:436-438 | a 32-bit number written in decimal is read back as itself |
| Decimals.ParsesExactly | apiserver/pkg/model/converter.go:436-438 | any text is read as the number it writes, at most the largest of 32 bits; as 0 if it has a character that is no digit, unless the digits before it are out of range already |
| ComputeTemplates.ConfigMapRoundTrip | apiserver/pkg/model/converter.go:435-467 | a template stored as a config map is read back as it was, up to the default memory unit and an empty list of tolerations |
| ComputeTemplates.StoredUnderItsKeys | apiserver/pkg/util/cluster.go:835-885 | a template is stored exactly if its memory with its unit, Gi by default, is a quantity; each field is found under its own key, numbers in decimal |
| ComputeTemplates.ReadFromItsKeys | apiserver/pkg/model/converter.go:435-467 | what any config map, complete or not, is read as, key by key |
| ComputeTemplates.PopulateComputeTemplate | apiserver/pkg/manager/resource_manager.go:87-112 | fails if and only if some group's template is missing; otherwise maps exactly the groups' names to the stored templates as they are read key by key; fetches each name once and stops at the first missing one |
| ClusterEvents.ListClusters | apiserver/pkg/server/cluster_server.go:81-95 | keeps length and order; each cluster shows the last successful fetch made for its name, or nothing |
| ClusterEvents.OwnEventsExactlyWhen | apiserver/pkg/server/cluster_server.go:104-118 | a cluster shows its own fetch if and only if no other cluster of its name was fetched successfully later, or at all if its own failed |
| ClusterEvents.SameNameSharesEvents | apiserver/pkg/server/cluster_server.go:104-118 | two clusters of one name are both shown the events of the second |
| ClusterEvents.DistinctNamesOwnEvents | apiserver/pkg/server/cluster_server.go:72-95 | with distinct names every cluster shows its own events |
| NodeSpecs.ConvertTemplate | apiserver/pkg/model/converter.go:252-273 | image and template name are captured, reserved keys are deleted from the maps of the resource, and the same maps, with all user entries, are handed on unless empty |
| NodeSpecs.ConvertTemplates | apiserver/pkg/model/converter.go:301-328 | the same for a list of templates whose maps are pairwise distinct |
| NodeSpecs.ConvertTwice | apiserver/pkg/model/converter.go:252-273 | a second conversion keeps the user entries and finds neither image nor template name |
| NodeSpecs.WithoutPartitions | apiserver/pkg/model/converter.go:261-273 | reserved and user entries partition each map |
| EnvVariables.ConvertEnvVariables | apiserver/pkg/model/converter.go:374-433 | each of the two maps holds for each name the last entry of its own kind that is not reserved |
| EnvVariables.RefOf | apiserver/pkg/model/converter.go:390-426 | the reference kept names the kind, name and key of the first source there is, and there is none exactly if no source is known |
| EnvVariables.WorkersReserveMore | apiserver/pkg/model/converter.go:52-81 | every name reserved for the head is reserved for workers, and some only for workers |
| EnvVariables.DuplicateFreeSplitsOneToOne | apiserver/pkg/model/converter.go:374-433 | without duplicates and with known sources the maps are disjoint, free of reserved names, and in one-to-one correspondence with the other entries |
| Volumes.GetVolumeMount | apiserver/pkg/model/volumes.go:108-117 | the nested search finds the first mount of the volume in the concatenation of all containers' mounts |
| Volumes.FirstInIsFirst | apiserver/pkg/model/volumes.go:108-117 | such a mount is found if and only if there is one, and none before it has the name |
| Volumes.MountIsFirst | apiserver/pkg/model/volumes.go:108-117 | container by container: it is the first such mount of the first container that has one; if none is found, no container has one |
| Volumes.ConvertVolume | apiserver/pkg/model/volumes.go:14-104 | the branches for one volume crash exactly when it is not safe, and otherwise convert it by its kind or skip it |
| Volumes.PopulateVolumes | apiserver/pkg/model/volumes.go:9-106 | completes if and only if every volume is safe, and then lists the recognised volumes in order with their first mounts |
| Volumes.ListingKeeps | apiserver/pkg/model/volumes.go:9-106 | each volume with a source is listed after those before it, by its name, the path of its first mount and the first of its kinds in the order of the branches, with source, items, storage, read-only flag, propagation, path type, access mode and storage class as that source and mount say; no other volume is listed |
| Volumes.LastItemWins | apiserver/pkg/model/volumes.go:23-29 | a key is listed if and only if some item has it, with the path of the last such item |
| Volumes.CrashingPods | apiserver/pkg/model/volumes.go:14-104 | three pods that are not safe, and an unmounted volume without a source that is |

## Left out

- The RayCluster, RayJob and RayService reconcilers, the dashboard, the history server, the pod pool and the kubectl plugin are not part of this model.
- JSON and YAML decoding and encoding, HTTP transport and the Kubernetes server enter as parameters: an alias-free decoded structure, arbitrary answers, create by name, a new version for each write.
- The order of keys in JSON objects, and keys of Python mappings that are not strings, are not represented.
- SchemaInPlace.CloseInPlace: takes structures of finite depth; a YAML anchor inside the mapping it names, on which the recursion does not end, is not represented.
- Schema keywords outside type, required, properties, additionalProperties, items, allOf, anyOf, oneOf and not count as annotations; an empty allOf, anyOf or oneOf list constrains nothing.
- Backoff.BackoffIsCappedExactlyWhen: takes an integer factor and exact powers; rounding in math.Pow and the conversion of a power of 2^63 or more to an integer are not represented.
- A compute template whose list of tolerations holds a null entry, on which the rewrite would dereference a nil pointer, is not represented.
- Response bodies that the proxy returns unread are under a context that is cancelled when the call returns; what a later read of them yields is not represented.
- The error texts, log lines and HTTP headers of the middleware are not represented.
- StoreProtocol: finalizers, resource versions of lists and watches, and requests whose answer is lost are not represented.
- NodeSpecs.ConvertTemplate: takes annotations and labels that are two separate maps, as decoding makes them, and covers image, template name, annotations and labels; the remaining fields of head and worker groups are not represented.
- Request validators, pagination, job submission, URL building and event timestamps are not part of this model.
