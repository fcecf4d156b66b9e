/**
 * Single-link clustering as `cluster_spacing` evidently means it: a merge
 * gives the new leader to every vertex of the absorbed cluster, an edge
 * inside one cluster is passed over before the cluster count is looked at,
 * and the spacing is the cheapest edge between two clusters once `groups`
 * of them remain. Clusters are kept as one leader per vertex.
 */
module SingleLink {
  import opened Results
  import K = KClusterings

  /** How the scan ended, the leader of each vertex, and the number of clusters. */
  datatype LinkEnd = LinkEnd(stop: K.Stop, leaders: seq<nat>, clusters: nat)

  /** Every vertex led by `from` is led by `to` instead. */
  function Merge(leaders: seq<nat>, from: nat, to: nat): (r: seq<nat>)
    ensures |r| == |leaders|
  {
    seq(|leaders|, i requires 0 <= i < |leaders| => if leaders[i] == from then to else leaders[i])
  }

  /** The leaders in use: one per cluster. */
  function LeaderSet(leaders: seq<nat>): set<nat> {
    set i | 0 <= i < |leaders| :: leaders[i]
  }

  /** Both ends of `e` are vertices, in the same cluster. */
  predicate Internal(leaders: seq<nat>, e: K.Edge) {
    e.head < |leaders| && e.tail < |leaders| && leaders[e.head] == leaders[e.tail]
  }

  /** Both ends of `e` are vertices, in different clusters. */
  predicate Crossing(leaders: seq<nat>, e: K.Edge) {
    e.head < |leaders| && e.tail < |leaders| && leaders[e.head] != leaders[e.tail]
  }

  /** Every vertex its own leader. */
  function Singletons(n: nat): (leaders: seq<nat>)
    ensures |leaders| == n
  {
    seq(n, i requires 0 <= i < n => i)
  }

  /** The scan over the sorted edges from edge `i` on. */
  function Scan(edges: seq<K.Edge>, i: nat, leaders: seq<nat>, clusters: nat, groups: nat): (r: Result<LinkEnd>)
    requires i <= |edges|
    ensures r.Ok? ==> |r.value.leaders| == |leaders|
    ensures r.Ok? && r.value.stop.Stopped? ==> i <= r.value.stop.at < |edges|
    decreases |edges| - i
  {
    if i == |edges| then Ok(LinkEnd(K.RanOut, leaders, clusters))
    else
      var e := edges[i];
      if e.head >= |leaders| || e.tail >= |leaders| then Err(IndexOutOfBounds)
      else if leaders[e.head] == leaders[e.tail] then Scan(edges, i + 1, leaders, clusters, groups)
      else if clusters <= groups then Ok(LinkEnd(K.Stopped(i), leaders, clusters))
      else Scan(edges, i + 1, Merge(leaders, leaders[e.tail], leaders[e.head]), clusters - 1, groups)
  }

  function Clustering(groups: nat, vs: seq<K.Vertex>): Result<LinkEnd> {
    Scan(K.SortedEdges(vs), 0, Singletons(|vs|), |vs|, groups)
  }

  /** The corrected `cluster_spacing(groups, g)`. */
  function Spacing(groups: nat, vs: seq<K.Vertex>): (r: Result<int>)
    ensures |vs| == 0 ==> r == Ok(0)
    ensures r.Ok? && r.value != 0 ==> exists e :: e in K.AllEdges(vs) && e.cost == r.value
  {
    match Clustering(groups, vs)
    case Err(p) => Err(p)
    case Ok(end) =>
      if end.stop.Stopped? then
        K.SortByCostPermutes(K.AllEdges(vs));
        assert K.SortedEdges(vs)[end.stop.at] in multiset(K.AllEdges(vs));
        Ok(K.SortedEdges(vs)[end.stop.at].cost)
      else Ok(0)
  }

  lemma MergeKeepsInternal(leaders: seq<nat>, from: nat, to: nat, e: K.Edge)
    requires Internal(leaders, e)
    ensures Internal(Merge(leaders, from, to), e)
  {
  }

  /** Merging two clusters removes exactly the absorbed leader. */
  lemma MergeLeaderSet(leaders: seq<nat>, a: nat, b: nat)
    requires a < |leaders| && b < |leaders| && leaders[a] != leaders[b]
    ensures LeaderSet(Merge(leaders, leaders[b], leaders[a])) == LeaderSet(leaders) - {leaders[b]}
    ensures |LeaderSet(Merge(leaders, leaders[b], leaders[a]))| == |LeaderSet(leaders)| - 1
  {
    var merged := Merge(leaders, leaders[b], leaders[a]);
    forall x | x in LeaderSet(leaders) - {leaders[b]}
      ensures x in LeaderSet(merged)
    {
      var i :| 0 <= i < |leaders| && leaders[i] == x;
      assert merged[i] == x;
    }
    assert merged[a] == leaders[a];
  }

  lemma {:induction false} SingletonsLeaderSet(n: nat)
    ensures |LeaderSet(Singletons(n))| == n
    decreases n
  {
    if n > 0 {
      SingletonsLeaderSet(n - 1);
      var init := Singletons(n - 1);
      assert LeaderSet(Singletons(n)) == LeaderSet(init) + {n - 1} by {
        forall x | x in LeaderSet(Singletons(n))
          ensures x in LeaderSet(init) + {n - 1}
        {
          if x < n - 1 {
            assert init[x] == x;
          }
        }
        forall x | x in LeaderSet(init)
          ensures x in LeaderSet(Singletons(n))
        {
          var i :| 0 <= i < n - 1 && init[i] == x;
          assert Singletons(n)[i] == x;
        }
        assert Singletons(n)[n - 1] == n - 1;
      }
      assert n - 1 !in LeaderSet(init);
    }
  }

  /**
   * Along the scan the count is the number of clusters, every edge passed
   * is inside a cluster, and the edge it stops at joins two clusters.
   */
  lemma {:induction false} ScanInvariant(edges: seq<K.Edge>, i: nat, leaders: seq<nat>, clusters: nat, groups: nat)
    requires i <= |edges| && Scan(edges, i, leaders, clusters, groups).Ok?
    requires clusters == |LeaderSet(leaders)|
    requires forall j :: 0 <= j < i ==> Internal(leaders, edges[j])
    ensures var end := Scan(edges, i, leaders, clusters, groups).value;
      && end.clusters == |LeaderSet(end.leaders)|
      && (end.stop.RanOut? ==> forall j :: 0 <= j < |edges| ==> Internal(end.leaders, edges[j]))
      && (end.stop.Stopped? ==> forall j :: 0 <= j < end.stop.at ==> Internal(end.leaders, edges[j]))
      && (end.stop.Stopped? ==> Crossing(end.leaders, edges[end.stop.at]))
      && (end.stop.Stopped? ==> end.clusters == if clusters <= groups then clusters else groups)
    decreases |edges| - i
  {
    if i < |edges| {
      var e := edges[i];
      if leaders[e.head] == leaders[e.tail] {
        ScanInvariant(edges, i + 1, leaders, clusters, groups);
      } else if groups < clusters {
        var merged := Merge(leaders, leaders[e.tail], leaders[e.head]);
        MergeLeaderSet(leaders, e.head, e.tail);
        forall j | 0 <= j < i + 1
          ensures Internal(merged, edges[j])
        {
          if j < i {
            MergeKeepsInternal(leaders, leaders[e.tail], leaders[e.head], edges[j]);
          }
        }
        ScanInvariant(edges, i + 1, merged, clusters - 1, groups);
      }
    }
  }

  /** An edge between two clusters lies at or after the stop, so it costs at least the edge there. */
  lemma CrossingAfterStop(edges: seq<K.Edge>, at: nat, leaders: seq<nat>, e: K.Edge)
    requires K.SortedByCost(edges) && at < |edges|
    requires forall j :: 0 <= j < at ==> Internal(leaders, edges[j])
    requires e in edges && Crossing(leaders, e)
    ensures edges[at].cost <= e.cost
  {
    var j :| 0 <= j < |edges| && edges[j] == e;
  }

  /**
   * When the corrected scan stops, `groups` clusters remain, or every
   * vertex alone when `groups` is at least the number of vertices.
   */
  lemma StoppedWithGroups(groups: nat, vs: seq<K.Vertex>, end: LinkEnd)
    requires Clustering(groups, vs) == Ok(end) && end.stop.Stopped?
    ensures |LeaderSet(end.leaders)| == end.clusters == (if |vs| <= groups then |vs| else groups)
  {
    SingletonsLeaderSet(|vs|);
    ScanInvariant(K.SortedEdges(vs), 0, Singletons(|vs|), |vs|, groups);
  }

  /** The corrected spacing is the cost of an edge of the graph between two clusters. */
  lemma SpacingIsCrossingEdge(groups: nat, vs: seq<K.Vertex>, end: LinkEnd)
    requires Clustering(groups, vs) == Ok(end) && end.stop.Stopped?
    ensures exists e :: e in K.AllEdges(vs) && Crossing(end.leaders, e) && Spacing(groups, vs) == Ok(e.cost)
  {
    var edges := K.SortedEdges(vs);
    SingletonsLeaderSet(|vs|);
    ScanInvariant(edges, 0, Singletons(|vs|), |vs|, groups);
    K.SortByCostPermutes(K.AllEdges(vs));
    assert edges[end.stop.at] in multiset(edges);
  }

  /** No edge between two clusters is cheaper than the corrected spacing. */
  lemma NoCheaperCrossingEdge(groups: nat, vs: seq<K.Vertex>, end: LinkEnd)
    requires Clustering(groups, vs) == Ok(end) && end.stop.Stopped?
    ensures forall e :: e in K.AllEdges(vs) && Crossing(end.leaders, e) ==> Spacing(groups, vs).value <= e.cost
  {
    var edges := K.SortedEdges(vs);
    SingletonsLeaderSet(|vs|);
    ScanInvariant(edges, 0, Singletons(|vs|), |vs|, groups);
    K.SortByCostSorted(K.AllEdges(vs));
    K.SortByCostPermutes(K.AllEdges(vs));
    forall e | e in K.AllEdges(vs) && Crossing(end.leaders, e)
      ensures edges[end.stop.at].cost <= e.cost
    {
      assert e in multiset(edges);
      CrossingAfterStop(edges, end.stop.at, end.leaders, e);
    }
  }

  /** When the corrected scan runs out of edges, no edge joins two clusters and the result is 0. */
  lemma SpacingWhenEdgesRunOut(groups: nat, vs: seq<K.Vertex>, end: LinkEnd)
    requires Clustering(groups, vs) == Ok(end) && end.stop.RanOut?
    ensures |LeaderSet(end.leaders)| == end.clusters
    ensures Spacing(groups, vs) == Ok(0)
    ensures forall e :: e in K.AllEdges(vs) ==> !Crossing(end.leaders, e)
  {
    var edges := K.SortedEdges(vs);
    SingletonsLeaderSet(|vs|);
    ScanInvariant(edges, 0, Singletons(|vs|), |vs|, groups);
    K.SortByCostPermutes(K.AllEdges(vs));
    forall e | e in K.AllEdges(vs)
      ensures !Crossing(end.leaders, e)
    {
      assert e in multiset(edges);
    }
  }
}
