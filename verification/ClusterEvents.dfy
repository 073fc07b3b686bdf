/** `ListCluster` and `ListAllClusters` of apiserver/pkg/server/cluster_server.go: events are fetched
    in one pass and handed out by cluster name in a second one. */
module ClusterEvents {
  import opened Basics

  datatype Cluster = Cluster(name: string, namespace: string)

  datatype Listed<E> = Listed(name: string, namespace: string, events: seq<E>)

  /** The last fetch that succeeded, among the first n, for a cluster of that name. */
  function LastFetch<E>(clusters: seq<Cluster>, fetch: nat -> Option<seq<E>>, n: nat, name: string): (from: Option<nat>)
    requires n <= |clusters|
    ensures from.Some? ==> from.value < n && clusters[from.value].name == name && fetch(from.value).Some?
  {
    if n == 0 then None
    else if clusters[n - 1].name == name && fetch(n - 1).Some? then Some(n - 1)
    else LastFetch(clusters, fetch, n - 1, name)
  }

  /** The events shown under a name: those of the last successful fetch, or none. */
  function Shown<E>(clusters: seq<Cluster>, fetch: nat -> Option<seq<E>>, name: string): seq<E> {
    var from := LastFetch(clusters, fetch, |clusters|, name);
    if from.Some? then fetch(from.value).value else []
  }

  /** `fetch(i)` is the answer when the events of cluster i are asked for; None is an error, also
      when there are no events. */
  method ListClusters<E>(clusters: seq<Cluster>, fetch: nat -> Option<seq<E>>) returns (listed: seq<Listed<E>>)
    ensures |listed| == |clusters|
    ensures forall i :: 0 <= i < |clusters| ==>
              listed[i] == Listed(clusters[i].name, clusters[i].namespace, Shown(clusters, fetch, clusters[i].name))
  {
    var byName: map<string, seq<E>> := map[];
    for n := 0 to |clusters|
      invariant forall name ::
                  var from := LastFetch(clusters, fetch, n, name);
                  && (name in byName <==> from.Some?)
                  && (name in byName ==> byName[name] == fetch(from.value).value)
    {
      if fetch(n).Some? {
        byName := byName[clusters[n].name := fetch(n).value];
      }
    }
    listed := [];
    for n := 0 to |clusters|
      invariant |listed| == n
      invariant forall i :: 0 <= i < n ==>
                  listed[i] == Listed(clusters[i].name, clusters[i].namespace, Shown(clusters, fetch, clusters[i].name))
    {
      var c := clusters[n];
      listed := listed + [Listed(c.name, c.namespace, if c.name in byName then byName[c.name] else [])];
    }
  }

  lemma {:induction false} LastFetchIsLast<E>(clusters: seq<Cluster>, fetch: nat -> Option<seq<E>>, n: nat,
                                              name: string)
    requires n <= |clusters|
    ensures var from := LastFetch(clusters, fetch, n, name);
            forall j :: 0 <= j < n && clusters[j].name == name && fetch(j).Some? ==> from.Some? && j <= from.value
  {
    if n == 0 {
    } else {
      LastFetchIsLast(clusters, fetch, n - 1, name);
    }
  }

  /** Cluster i is shown its own events, or none if fetching them failed, exactly when no other cluster
      of its name was fetched successfully after it, or at all in the latter case. */
  lemma OwnEventsExactlyWhen<E>(clusters: seq<Cluster>, fetch: nat -> Option<seq<E>>, i: nat)
    requires i < |clusters|
    ensures LastFetch(clusters, fetch, |clusters|, clusters[i].name) == (if fetch(i).Some? then Some(i) else None)
            <==> forall j :: 0 <= j < |clusters| && j != i && clusters[j].name == clusters[i].name && fetch(j).Some? ==>
                   fetch(i).Some? && j < i
  {
    LastFetchIsLast(clusters, fetch, |clusters|, clusters[i].name);
  }

  /** Two clusters of one name in different namespaces: both are shown the events of the second. */
  lemma SameNameSharesEvents()
    ensures var clusters := [Cluster("ray", "a"), Cluster("ray", "b")];
            var fetch := (i: nat) => Some([i]);
            Shown(clusters, fetch, clusters[0].name) == [1] != fetch(0).value
  {
  }

  /** Within a namespace names are distinct, and every cluster is shown its own events. */
  lemma DistinctNamesOwnEvents<E>(clusters: seq<Cluster>, fetch: nat -> Option<seq<E>>, i: nat)
    requires i < |clusters| && forall j, k :: 0 <= j < k < |clusters| ==> clusters[j].name != clusters[k].name
    ensures Shown(clusters, fetch, clusters[i].name) == if fetch(i).Some? then fetch(i).value else []
  {
    OwnEventsExactlyWhen(clusters, fetch, i);
  }
}
