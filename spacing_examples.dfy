/**
 * A five-vertex graph on which `cluster_spacing` as written and the
 * corrected single-link spacing disagree. Vertex `i` stores one edge:
 *
 *   0 -> 1 (cost 1), 1 -> 0 (cost 3), 2 -> 1 (cost 2), 3 -> 2 (cost 5), 4 -> 3 (cost 7)
 *
 * Single-link clustering joins {0, 1, 2} with the edges of cost 1 and 2;
 * the edge of cost 3 then lies inside that cluster, and the edges of cost
 * 5 and 7 join the remaining vertices one by one.
 */
module SpacingExamples {
  import opened Results
  import K = KClusterings
  import SingleLink

  const E1 := K.Edge(1, 0, 1)
  const E3 := K.Edge(3, 1, 0)
  const E2 := K.Edge(2, 2, 1)
  const E5 := K.Edge(5, 3, 2)
  const E7 := K.Edge(7, 4, 3)

  /** A vertex numbered `i` with leader `leader` and edge list `edges`. */
  function V(i: nat, leader: nat, edges: seq<K.Edge>): K.Vertex {
    K.Vertex(i, false, leader, edges)
  }

  function Example(): seq<K.Vertex> {
    [V(0, 0, [E1]), V(1, 1, [E3]), V(2, 2, [E2]), V(3, 3, [E5]), V(4, 4, [E7])]
  }

  lemma ExampleAllEdges(vs: seq<K.Vertex>)
    requires vs == Example()
    ensures K.AllEdges(vs) == [E1, E3, E2, E5, E7]
  {
    assert vs[..1] == [vs[0]];
    assert K.AllEdges(vs[..1]) == [E1] by {
      assert vs[..1][..0] == [];
    }
    assert K.AllEdges(vs[..2]) == [E1, E3] by {
      assert vs[..2][..1] == vs[..1];
    }
    assert K.AllEdges(vs[..3]) == [E1, E3, E2] by {
      assert vs[..3][..2] == vs[..2];
    }
    assert K.AllEdges(vs[..4]) == [E1, E3, E2, E5] by {
      assert vs[..4][..3] == vs[..3];
    }
    assert vs[..5][..4] == vs[..4];
    assert vs[..5] == vs;
  }

  /** Sorting one more edge inserts it into the sorted others. */
  lemma SortByCostSnoc(es: seq<K.Edge>, e: K.Edge)
    ensures K.SortByCost(es + [e]) == K.Insert(K.SortByCost(es), e)
  {
    assert (es + [e])[..|es|] == es;
  }

  /** An edge no cheaper than the last of the sorted others goes at the end. */
  lemma SortSnocLast(es: seq<K.Edge>, e: K.Edge, sorted: seq<K.Edge>)
    requires K.SortByCost(es) == sorted
    requires |sorted| == 0 || sorted[|sorted| - 1].cost <= e.cost
    ensures K.SortByCost(es + [e]) == sorted + [e]
  {
    SortByCostSnoc(es, e);
  }

  /** An edge cheaper than the second of two sorted edges, and no cheaper than the first, goes between them. */
  lemma InsertSecond(a: K.Edge, b: K.Edge, c: K.Edge)
    requires a.cost <= c.cost < b.cost
    ensures K.Insert([a, b], c) == [a, c, b]
  {
    assert [a, b][..1] == [a];
    assert K.Insert([a], c) == [a, c];
  }

  /** Five edges whose costs put the third between the first and the second sort into that order. */
  lemma SortFive(a: K.Edge, b: K.Edge, c: K.Edge, d: K.Edge, f: K.Edge)
    requires a.cost < c.cost < b.cost < d.cost < f.cost
    ensures K.SortByCost([a, b, c, d, f]) == [a, c, b, d, f]
  {
    var ab, abc, abcd, acb := [a, b], [a, b, c], [a, b, c, d], [a, c, b];
    assert K.SortByCost([a]) == [a] by {
      SortSnocLast([], a, []);
      assert [] + [a] == [a];
    }
    assert K.SortByCost(ab) == ab by {
      SortSnocLast([a], b, [a]);
      assert [a] + [b] == ab;
    }
    assert K.SortByCost(abc) == acb by {
      SortByCostSnoc(ab, c);
      assert ab + [c] == abc;
      InsertSecond(a, b, c);
    }
    assert K.SortByCost(abcd) == acb + [d] by {
      SortSnocLast(abc, d, acb);
      assert abc + [d] == abcd;
    }
    SortSnocLast(abcd, f, acb + [d]);
    assert abcd + [f] == [a, b, c, d, f];
    assert acb + [d] + [f] == [a, c, b, d, f];
  }

  lemma SortExampleEdges(es: seq<K.Edge>)
    requires es == [E1, E3, E2, E5, E7]
    ensures K.SortByCost(es) == [E1, E2, E3, E5, E7]
  {
    SortFive(E1, E3, E2, E5, E7);
  }

  lemma ExampleSortedEdges(vs: seq<K.Vertex>)
    requires vs == Example()
    ensures K.SortedEdges(vs) == [E1, E2, E3, E5, E7]
  {
    ExampleAllEdges(vs);
    SortExampleEdges(K.AllEdges(vs));
  }

  /** `build(5)`, and the forest after each of the first three merges as written. */
  function Forest0(): seq<K.Vertex> {
    [V(0, 0, []), V(1, 1, []), V(2, 2, []), V(3, 3, []), V(4, 4, [])]
  }

  function Forest1(): seq<K.Vertex> {
    [V(0, 0, [E1]), V(1, 0, []), V(2, 2, []), V(3, 3, []), V(4, 4, [])]
  }

  function Forest2(): seq<K.Vertex> {
    [V(0, 0, [E1]), V(1, 2, []), V(2, 2, [E2]), V(3, 3, []), V(4, 4, [])]
  }

  /** Vertex 0 keeps leader 0 after the second merge, so the edge 1 -> 0 looks like it joins two clusters. */
  function Forest3(): seq<K.Vertex> {
    [V(0, 2, [E1]), V(1, 2, [E3]), V(2, 2, [E2]), V(3, 3, []), V(4, 4, [])]
  }

  lemma AsWrittenStart(vs: seq<K.Vertex>, groups: nat)
    requires vs == Example()
    ensures K.Clustering(groups, vs) == K.Scan([E1, E2, E3, E5, E7], 0, Forest0(), 5, groups)
  {
    ExampleSortedEdges(vs);
    assert K.UsizeAsI32(5) == 5;
    assert K.FreshVertices(5) == Forest0();
  }

  lemma AsWrittenFirstMerges(edges: seq<K.Edge>, groups: nat)
    requires edges == [E1, E2, E3, E5, E7] && groups < 4
    ensures K.Scan(edges, 0, Forest0(), 5, groups) == K.Scan(edges, 2, Forest2(), 3, groups)
  {
    assert K.Tails([]) == [];
    var r0 := Forest0()[1 := V(1, 0, [])];
    assert K.RelabelFrom(Forest0(), 1, 0, 5) == Ok(r0);
    assert [] + [E1] == [E1];
    assert K.AddEdge(r0, E1) == Forest1();
    var r1 := Forest1()[1 := V(1, 2, [])];
    assert K.RelabelFrom(Forest1(), 1, 2, 5) == Ok(r1);
    assert [] + [E2] == [E2];
    assert K.AddEdge(r1, E2) == Forest2();
  }

  lemma AsWrittenThirdMerge(edges: seq<K.Edge>, groups: nat)
    requires edges == [E1, E2, E3, E5, E7] && groups < 3
    ensures K.Scan(edges, 2, Forest2(), 3, groups) == K.Scan(edges, 3, Forest3(), 2, groups)
  {
    var relabelled := Forest2()[0 := V(0, 2, [E1])];
    assert K.Tails([]) == [];
    assert relabelled[1 := relabelled[1].(leader := 2)] == relabelled;
    assert K.RelabelFrom(relabelled, 1, 2, 4) == Ok(relabelled);
    assert [1 as nat][..0] == [];
    assert K.Tails([E1]) == [1];
    assert K.RelabelFrom(Forest2(), 0, 2, 5) == Ok(relabelled);
    assert [] + [E3] == [E3];
    assert K.AddEdge(relabelled, E3) == Forest3();
  }

  /** The merge after Forest3 as written starts update_leaders at 2, whose edge leads into the cycle 1 -> 0 -> 1. */
  lemma Forest3Overflows()
    ensures K.RelabelFrom(Forest3(), 2, 3, 5) == Err(StackOverflow)
  {
    var relabelled := Forest3()[2 := V(2, 3, [E2])];
    assert K.Tails([E1]) == [1] && K.Tails([E3]) == [0] && K.Tails([E2]) == [1];
    K.TwoCycleOverflows(relabelled, 1, 0, 3, 4);
    assert [1 as nat][..0] == [];
  }

  /**
   * With three groups, `cluster_spacing` as written returns 3, the cost of
   * the edge 1 -> 0, although by then 0 and 1 are in one cluster; the
   * corrected spacing is 5, and the edge of cost 3 is inside a cluster.
   */
  lemma AsWrittenReportsInternalEdge(vs: seq<K.Vertex>)
    requires vs == Example()
    ensures K.Spacing(3, vs) == Ok(3)
    ensures SingleLink.Spacing(3, vs) == Ok(5)
    ensures SingleLink.Internal(SingleLink.Clustering(3, vs).value.leaders, E3)
  {
    AsWrittenStart(vs, 3);
    AsWrittenFirstMerges([E1, E2, E3, E5, E7], 3);
    ExampleSortedEdges(vs);
    CorrectedStart(vs, 3);
    CorrectedMerges([E1, E2, E3, E5, E7], 3);
  }

  /**
   * With two groups the edge 1 -> 0 is counted as a merge, so the scan as
   * written stops one edge early and returns 5; the corrected spacing is 7.
   */
  lemma AsWrittenMiscounts(vs: seq<K.Vertex>)
    requires vs == Example()
    ensures K.Spacing(2, vs) == Ok(5)
    ensures SingleLink.Spacing(2, vs) == Ok(7)
  {
    AsWrittenStart(vs, 2);
    AsWrittenFirstMerges([E1, E2, E3, E5, E7], 2);
    AsWrittenThirdMerge([E1, E2, E3, E5, E7], 2);
    ExampleSortedEdges(vs);
    CorrectedStart(vs, 2);
    CorrectedMerges([E1, E2, E3, E5, E7], 2);
    assert SingleLink.Merge([2, 2, 2, 3, 4], 2, 3) == [3, 3, 3, 3, 4];
  }

  /**
   * With one group the forest as written holds the cycle 0 -> 1 -> 0, and
   * the next merge sends update_leaders round it for ever; the corrected
   * scan joins everything and returns 0.
   */
  lemma AsWrittenNeverReturns(vs: seq<K.Vertex>)
    requires vs == Example()
    ensures K.Spacing(1, vs) == Err(StackOverflow)
    ensures SingleLink.Spacing(1, vs) == Ok(0)
  {
    AsWrittenStart(vs, 1);
    AsWrittenFirstMerges([E1, E2, E3, E5, E7], 1);
    AsWrittenThirdMerge([E1, E2, E3, E5, E7], 1);
    Forest3Overflows();
    CorrectedStart(vs, 1);
    CorrectedJoinsAll([E1, E2, E3, E5, E7]);
  }

  lemma CorrectedStart(vs: seq<K.Vertex>, groups: nat)
    requires vs == Example()
    ensures SingleLink.Clustering(groups, vs) == SingleLink.Scan([E1, E2, E3, E5, E7], 0, [0, 1, 2, 3, 4], 5, groups)
  {
    ExampleSortedEdges(vs);
    assert SingleLink.Singletons(5) == [0, 1, 2, 3, 4];
  }

  /** The corrected scan joins {0, 1, 2} with the first two edges and passes over the third. */
  lemma CorrectedMerges(edges: seq<K.Edge>, groups: nat)
    requires edges == [E1, E2, E3, E5, E7] && groups < 4
    ensures SingleLink.Scan(edges, 0, [0, 1, 2, 3, 4], 5, groups) == SingleLink.Scan(edges, 3, [2, 2, 2, 3, 4], 3, groups)
  {
    assert SingleLink.Merge([0, 1, 2, 3, 4], 1, 0) == [0, 0, 2, 3, 4];
    assert SingleLink.Scan(edges, 0, [0, 1, 2, 3, 4], 5, groups) == SingleLink.Scan(edges, 1, [0, 0, 2, 3, 4], 4, groups);
    assert SingleLink.Merge([0, 0, 2, 3, 4], 0, 2) == [2, 2, 2, 3, 4];
    assert SingleLink.Scan(edges, 1, [0, 0, 2, 3, 4], 4, groups) == SingleLink.Scan(edges, 2, [2, 2, 2, 3, 4], 3, groups);
  }

  lemma CorrectedJoinsAll(edges: seq<K.Edge>)
    requires edges == [E1, E2, E3, E5, E7]
    ensures SingleLink.Scan(edges, 0, [0, 1, 2, 3, 4], 5, 1) == Ok(SingleLink.LinkEnd(K.RanOut, [4, 4, 4, 4, 4], 1))
  {
    CorrectedMerges(edges, 1);
    assert SingleLink.Merge([2, 2, 2, 3, 4], 2, 3) == [3, 3, 3, 3, 4];
    assert SingleLink.Scan(edges, 3, [2, 2, 2, 3, 4], 3, 1) == SingleLink.Scan(edges, 4, [3, 3, 3, 3, 4], 2, 1);
    assert SingleLink.Merge([3, 3, 3, 3, 4], 3, 4) == [4, 4, 4, 4, 4];
    assert SingleLink.Scan(edges, 4, [3, 3, 3, 3, 4], 2, 1) == SingleLink.Scan(edges, 5, [4, 4, 4, 4, 4], 1, 1);
  }
}
