/**
 * The `k_clusterings` crate: single-link clustering of a graph into a given
 * number of groups, Kruskal style. The edges are sorted by cost; an edge
 * whose endpoints have different leaders merges two clusters by relabelling
 * leaders, and once few enough clusters remain the cost of the next edge is
 * reported as the spacing.
 *
 * Vertices and edges are addressed by index into the graph's vertex list.
 */
module KClusterings {
  import opened Results
  import opened RustStr

  /** An edge stored at its `head` vertex, pointing to `tail`. */
  datatype Edge = Edge(cost: int, head: nat, tail: nat)

  datatype Ordering = Less | Equal | Greater

  /** `Ord::cmp` for edges (also their `partial_cmp`): by cost alone. */
  function Cmp(a: Edge, b: Edge): (r: Ordering)
    ensures r == Less <==> a.cost < b.cost
    ensures r == Greater <==> b.cost < a.cost
  {
    if a.cost < b.cost then Less else if a.cost == b.cost then Equal else Greater
  }

  /** `PartialEq::eq` for edges: by cost alone; head and tail are ignored. */
  predicate EdgeEq(a: Edge, b: Edge)
    ensures EdgeEq(a, b) <==> Cmp(a, b) == Equal
  {
    a.cost == b.cost
  }

  function Reverse(o: Ordering): Ordering {
    match o
    case Less => Greater
    case Equal => Equal
    case Greater => Less
  }

  /**
   * The laws `Ord` asks of an implementation hold: comparing the other way
   * round reverses the answer, `Equal` is exactly `eq`, and `<=` is
   * transitive.
   */
  lemma CmpIsTotalOrder(a: Edge, b: Edge, c: Edge)
    ensures Cmp(a, b) == Reverse(Cmp(b, a))
    ensures Cmp(a, b) == Equal <==> EdgeEq(a, b)
    ensures Cmp(a, b) != Greater && Cmp(b, c) != Greater ==> Cmp(a, c) != Greater
  {
  }

  /** A vertex; its `label` field is called `name` here, `label` being a Dafny keyword. */
  datatype Vertex = Vertex(name: int, explored: bool, leader: nat, edges: seq<Edge>)

  /** What `build(size)` appends: vertex `i` labelled and led by `i`, unexplored, without edges. */
  function FreshVertices(size: int): (vs: seq<Vertex>)
    ensures |vs| == if size > 0 then size else 0
    ensures forall i :: 0 <= i < |vs| ==> vs[i].name == i && vs[i].leader == i && !vs[i].explored && vs[i].edges == []
  {
    seq(if size > 0 then size else 0, i requires 0 <= i => Vertex(i, false, i, []))
  }

  class Graph {
    var vertices: seq<Vertex>

    /** `Graph::new`: no vertices. */
    constructor ()
      ensures vertices == []
    {
      vertices := [];
    }

    /** `build`: appends `size` fresh vertices numbered from 0; the ones present stay as they are. */
    method Build(size: int)
      modifies this
      ensures vertices == old(vertices) + FreshVertices(size)
    {
      var i := 0;
      while i < size
        invariant 0 <= i && (size >= 0 ==> i <= size) && (size < 0 ==> i == 0)
        invariant vertices == old(vertices) + FreshVertices(i)
      {
        assert FreshVertices(i + 1) == FreshVertices(i) + [Vertex(i, false, i, [])];
        vertices := vertices + [Vertex(i, false, i, [])];
        i := i + 1;
      }
    }

    /**
     * `split_line::<i32>`: the line split on single spaces, each piece
     * trimmed and parsed; a piece that does not parse panics.
     */
    static function SplitLine(line: string): (r: Result<seq<int>>)
      ensures r.Ok? <==> AllParse(Split(line, ' '))
      ensures r.Ok? ==> ParsesTo(Split(line, ' '), r.value)
      ensures r.Err? ==> r.panic == InvalidInput
    {
      ParseTrimmed(Split(line, ' '))
    }
  }

  /** Every piece, once trimmed, is an `i32`. */
  predicate AllParse(pieces: seq<string>) {
    forall k :: 0 <= k < |pieces| ==> ParseI32(Trim(pieces[k])).Some?
  }

  /** `ns` are the pieces, trimmed and parsed, in order. */
  predicate ParsesTo(pieces: seq<string>, ns: seq<int>) {
    |ns| == |pieces| && forall k :: 0 <= k < |pieces| ==> ParseI32(Trim(pieces[k])) == Some(ns[k])
  }

  /** Each piece trimmed and parsed, in order; the first that fails panics. */
  function ParseTrimmed(pieces: seq<string>): (r: Result<seq<int>>)
    ensures r.Ok? <==> AllParse(pieces)
    ensures r.Ok? ==> ParsesTo(pieces, r.value)
    ensures r.Err? ==> r.panic == InvalidInput
    decreases |pieces|
  {
    if |pieces| == 0 then Ok([])
    else
      var first := ParseI32(Trim(pieces[0]));
      var rest := ParseTrimmed(pieces[1..]);
      ParsedPieces(pieces, first, rest);
      if first.None? then Err(InvalidInput)
      else if rest.Err? then Err(rest.panic)
      else Ok([first.value] + rest.value)
  }

  /** How parsing the first piece and the others makes up parsing them all. */
  lemma ParsedPieces(pieces: seq<string>, first: Option<int>, rest: Result<seq<int>>)
    requires |pieces| > 0 && first == ParseI32(Trim(pieces[0]))
    requires rest.Ok? <==> AllParse(pieces[1..])
    requires rest.Ok? ==> ParsesTo(pieces[1..], rest.value)
    ensures AllParse(pieces) <==> first.Some? && rest.Ok?
    ensures first.Some? && rest.Ok? ==> ParsesTo(pieces, [first.value] + rest.value)
  {
    AllParseCons(pieces);
    if first.Some? && rest.Ok? {
      ParsesToCons(pieces, first.value, rest.value);
    }
  }

  lemma AllParseCons(pieces: seq<string>)
    requires |pieces| > 0
    ensures AllParse(pieces) <==> ParseI32(Trim(pieces[0])).Some? && AllParse(pieces[1..])
  {
    var tail := pieces[1..];
    if AllParse(pieces) {
      forall k | 0 <= k < |tail|
        ensures ParseI32(Trim(tail[k])).Some?
      {
        assert tail[k] == pieces[k + 1];
      }
    }
  }

  lemma ParsesToCons(pieces: seq<string>, n: int, ns: seq<int>)
    requires |pieces| > 0 && ParseI32(Trim(pieces[0])) == Some(n)
    requires ParsesTo(pieces[1..], ns)
    ensures ParsesTo(pieces, [n] + ns)
  {
    var tail, all := pieces[1..], [n] + ns;
    assert |all| == |pieces| && all[0] == n;
    forall k | 0 < k < |pieces|
      ensures pieces[k] == tail[k - 1] && all[k] == ns[k - 1]
    {
    }
  }

  function Rendered(ns: seq<int>): (pieces: seq<string>)
    ensures |pieces| == |ns|
  {
    seq(|ns|, k requires 0 <= k < |ns| => FormatI32(ns[k]))
  }

  /** Each rendered number is free of spaces and reads back, trimmed, as itself. */
  lemma RenderedParses(ns: seq<int>)
    requires forall k :: 0 <= k < |ns| ==> InI32(ns[k])
    ensures forall k :: 0 <= k < |ns| ==> ' ' !in Rendered(ns)[k]
    ensures AllParse(Rendered(ns)) && ParsesTo(Rendered(ns), ns)
  {
    var pieces := Rendered(ns);
    forall k | 0 <= k < |pieces|
      ensures ' ' !in pieces[k] && ParseI32(Trim(pieces[k])) == Some(ns[k])
    {
      assert Trim(pieces[k]) == pieces[k];
      ParseFormatI32(ns[k]);
    }
  }

  /** A line of `i32`s rendered and separated by single spaces reads back as those numbers. */
  lemma SplitLineRoundTrip(ns: seq<int>)
    requires |ns| >= 1
    requires forall k :: 0 <= k < |ns| ==> InI32(ns[k])
    ensures Graph.SplitLine(Join(Rendered(ns), ' ')) == Ok(ns)
  {
    var pieces := Rendered(ns);
    RenderedParses(ns);
    SplitJoin(pieces, ' ');
    ParsesToUnique(pieces, Graph.SplitLine(Join(pieces, ' ')).value, ns);
  }

  /** The pieces determine what they parse to. */
  lemma ParsesToUnique(pieces: seq<string>, ns: seq<int>, ms: seq<int>)
    requires ParsesTo(pieces, ns) && ParsesTo(pieces, ms)
    ensures ns == ms
  {
    assert forall k :: 0 <= k < |ns| ==> Some(ns[k]) == ParseI32(Trim(pieces[k])) == Some(ms[k]);
  }

  /** The crate's `it_works` test: `build(2)`, then an edge of cost 10 each way between the two vertices. */
  method ItWorks() returns (name: int, leader: nat, cost: int, tailName: int)
    ensures name == 1 && leader == 1 && cost == 10 && tailName == 1
  {
    var g := new Graph();
    g.Build(2);
    g.vertices := AddEdge(g.vertices, Edge(10, 0, 1));
    g.vertices := AddEdge(g.vertices, Edge(10, 1, 0));
    name, leader := g.vertices[1].name, g.vertices[1].leader;
    var e := g.vertices[0].edges[0];
    cost, tailName := e.cost, g.vertices[e.tail].name;
  }

  // ---------------------------------------------------------------------------
  // update_leaders

  /** The tails of a vertex's edges, in order. */
  function Tails(edges: seq<Edge>): (ts: seq<nat>)
    ensures |ts| == |edges| && forall k :: 0 <= k < |edges| ==> ts[k] == edges[k].tail
  {
    seq(|edges|, k requires 0 <= k < |edges| => edges[k].tail)
  }

  /**
   * `update_leaders(g, start, leader)` on the vertex list `vs`, allowed
   * `fuel` nested calls: `start` takes `leader`, then so does, recursively,
   * the tail of each edge stored at `start`. There is no visited check, so
   * the recursion never ends on a cycle; running out of fuel stands for that
   * stack overflow.
   */
  function RelabelFrom(vs: seq<Vertex>, start: nat, leader: nat, fuel: nat): (r: Result<seq<Vertex>>)
    ensures r.Ok? ==> |r.value| == |vs|
    decreases fuel, 0, 0
  {
    if fuel == 0 then Err(StackOverflow)
    else if start >= |vs| then Err(IndexOutOfBounds)
    else RelabelAll(vs[start := vs[start].(leader := leader)], Tails(vs[start].edges), leader, fuel - 1)
  }

  /** The `for t in tails` loop of `update_leaders`: one recursive call per tail, in order. */
  function RelabelAll(vs: seq<Vertex>, tails: seq<nat>, leader: nat, fuel: nat): (r: Result<seq<Vertex>>)
    ensures r.Ok? ==> |r.value| == |vs|
    decreases fuel, 1, |tails|
  {
    if |tails| == 0 then Ok(vs)
    else
      match RelabelAll(vs, tails[..|tails| - 1], leader, fuel)
      case Err(p) => Err(p)
      case Ok(vs') => RelabelFrom(vs', tails[|tails| - 1], leader, fuel)
  }

  lemma {:induction false} RelabelAllFailureStays(vs: seq<Vertex>, tails: seq<nat>, leader: nat, fuel: nat, j: nat)
    requires j <= |tails| && RelabelAll(vs, tails[..j], leader, fuel).Err?
    ensures RelabelAll(vs, tails, leader, fuel) == RelabelAll(vs, tails[..j], leader, fuel)
    decreases |tails| - j
  {
    if j < |tails| {
      assert tails[..|tails| - 1][..j] == tails[..j];
      RelabelAllFailureStays(vs, tails[..|tails| - 1], leader, fuel, j);
    } else {
      assert tails[..j] == tails;
    }
  }

  /**
   * `update_leaders`, on the graph in place; the depth bound `fuel` is
   * described at RelabelFrom. On success the vertex list is RelabelFrom's.
   */
  method UpdateLeaders(g: Graph, start: nat, leader: nat, fuel: nat) returns (status: Result<()>)
    modifies g
    ensures status.Ok? <==> RelabelFrom(old(g.vertices), start, leader, fuel).Ok?
    ensures status.Err? ==> status.panic == RelabelFrom(old(g.vertices), start, leader, fuel).panic
    ensures status.Ok? ==> g.vertices == RelabelFrom(old(g.vertices), start, leader, fuel).value
    decreases fuel
  {
    if fuel == 0 {
      return Err(StackOverflow);
    }
    if start >= |g.vertices| {
      return Err(IndexOutOfBounds);
    }
    g.vertices := g.vertices[start := g.vertices[start].(leader := leader)];
    var tails := Tails(g.vertices[start].edges);
    ghost var first := g.vertices;
    var i := 0;
    while i < |tails|
      invariant 0 <= i <= |tails|
      invariant RelabelAll(first, tails[..i], leader, fuel - 1) == Ok(g.vertices)
    {
      assert tails[..i + 1][..i] == tails[..i];
      var s := UpdateLeaders(g, tails[i], leader, fuel - 1);
      if s.Err? {
        RelabelAllFailureStays(first, tails, leader, fuel - 1, i + 1);
        return s;
      }
      i := i + 1;
    }
    assert tails[..i] == tails;
    return Ok(());
  }

  /**
   * Two vertices whose only edges lead to each other make update_leaders
   * recurse forever: whatever depth is allowed, it is used up.
   */
  lemma {:induction false} TwoCycleOverflows(vs: seq<Vertex>, a: nat, b: nat, leader: nat, fuel: nat)
    requires a < |vs| && b < |vs|
    requires Tails(vs[a].edges) == [b] && Tails(vs[b].edges) == [a]
    ensures RelabelFrom(vs, a, leader, fuel) == Err(StackOverflow)
    decreases fuel
  {
    if fuel > 0 {
      var first := vs[a := vs[a].(leader := leader)];
      assert first[b].edges == vs[b].edges;
      TwoCycleOverflows(first, b, a, leader, fuel - 1);
      assert [b][..0] == [];
      assert RelabelAll(first, [b], leader, fuel - 1) == RelabelFrom(first, b, leader, fuel - 1);
    }
  }

  /** The vertex list with `leader` given to the vertices in `s` and nothing else changed. */
  function Relabelled(vs: seq<Vertex>, s: set<nat>, leader: nat): (vs': seq<Vertex>)
    ensures |vs'| == |vs|
  {
    seq(|vs|, i requires 0 <= i < |vs| => if i in s then vs[i].(leader := leader) else vs[i])
  }

  /** The vertices `update_leaders` reaches from `start` within `fuel` nested calls. */
  function ReachFrom(vs: seq<Vertex>, start: nat, fuel: nat): set<nat>
    decreases fuel, 0, 0
  {
    if fuel == 0 || start >= |vs| then {}
    else {start} + ReachAll(vs, Tails(vs[start].edges), fuel - 1)
  }

  function ReachAll(vs: seq<Vertex>, tails: seq<nat>, fuel: nat): set<nat>
    decreases fuel, 1, |tails|
  {
    if |tails| == 0 then {}
    else ReachAll(vs, tails[..|tails| - 1], fuel) + ReachFrom(vs, tails[|tails| - 1], fuel)
  }

  predicate SameEdges(vs: seq<Vertex>, vs': seq<Vertex>) {
    |vs| == |vs'| && forall i :: 0 <= i < |vs| ==> vs[i].edges == vs'[i].edges
  }

  /** Which vertices are reached depends on the edges only, not on the leaders. */
  lemma {:induction false} ReachFromSameEdges(vs: seq<Vertex>, vs': seq<Vertex>, start: nat, fuel: nat)
    requires SameEdges(vs, vs')
    ensures ReachFrom(vs, start, fuel) == ReachFrom(vs', start, fuel)
    decreases fuel, 0, 0
  {
    if fuel > 0 && start < |vs| {
      ReachAllSameEdges(vs, vs', Tails(vs[start].edges), fuel - 1);
    }
  }

  lemma {:induction false} ReachAllSameEdges(vs: seq<Vertex>, vs': seq<Vertex>, tails: seq<nat>, fuel: nat)
    requires SameEdges(vs, vs')
    ensures ReachAll(vs, tails, fuel) == ReachAll(vs', tails, fuel)
    decreases fuel, 1, |tails|
  {
    if |tails| > 0 {
      ReachAllSameEdges(vs, vs', tails[..|tails| - 1], fuel);
      ReachFromSameEdges(vs, vs', tails[|tails| - 1], fuel);
    }
  }

  /** One step of update_leaders: `start` relabelled, then the loop over its tails. */
  lemma RelabelFromUnfolds(vs: seq<Vertex>, start: nat, leader: nat, fuel: nat)
    requires RelabelFrom(vs, start, leader, fuel).Ok?
    ensures fuel > 0 && start < |vs|
    ensures RelabelFrom(vs, start, leader, fuel)
      == RelabelAll(vs[start := vs[start].(leader := leader)], Tails(vs[start].edges), leader, fuel - 1)
    ensures ReachFrom(vs, start, fuel) == {start} + ReachAll(vs, Tails(vs[start].edges), fuel - 1)
    ensures SameEdges(vs[start := vs[start].(leader := leader)], vs)
  {
  }

  /** Relabelling `start` and then the set `s` relabels `{start} + s`. */
  lemma RelabelledAfterUpdate(vs: seq<Vertex>, start: nat, leader: nat, s: set<nat>)
    requires start < |vs|
    ensures Relabelled(vs[start := vs[start].(leader := leader)], s, leader) == Relabelled(vs, {start} + s, leader)
  {
  }

  lemma RelabelledTwice(vs: seq<Vertex>, a: set<nat>, b: set<nat>, leader: nat)
    ensures Relabelled(Relabelled(vs, a, leader), b, leader) == Relabelled(vs, a + b, leader)
  {
  }

  /**
   * What update_leaders does, independently of the order of its calls: the
   * vertices reached from `start` along edge tails take `leader`; every
   * other field of every vertex, edge lists included, is unchanged.
   */
  lemma {:induction false} RelabelFromReaches(vs: seq<Vertex>, start: nat, leader: nat, fuel: nat)
    requires RelabelFrom(vs, start, leader, fuel).Ok?
    ensures RelabelFrom(vs, start, leader, fuel).value == Relabelled(vs, ReachFrom(vs, start, fuel), leader)
    decreases fuel, 0, 0
  {
    var first := vs[start := vs[start].(leader := leader)];
    var tails := Tails(vs[start].edges);
    RelabelFromUnfolds(vs, start, leader, fuel);
    RelabelAllReaches(first, tails, leader, fuel - 1);
    ReachAllSameEdges(first, vs, tails, fuel - 1);
    RelabelledAfterUpdate(vs, start, leader, ReachAll(vs, tails, fuel - 1));
  }

  lemma {:induction false} RelabelAllReaches(vs: seq<Vertex>, tails: seq<nat>, leader: nat, fuel: nat)
    requires RelabelAll(vs, tails, leader, fuel).Ok?
    ensures RelabelAll(vs, tails, leader, fuel).value == Relabelled(vs, ReachAll(vs, tails, fuel), leader)
    decreases fuel, 1, |tails|
  {
    if |tails| > 0 {
      var init, last := tails[..|tails| - 1], tails[|tails| - 1];
      RelabelAllReaches(vs, init, leader, fuel);
      var mid := RelabelAll(vs, init, leader, fuel).value;
      RelabelFromReaches(mid, last, leader, fuel);
      ReachFromSameEdges(mid, vs, last, fuel);
      RelabelledTwice(vs, ReachAll(vs, init, fuel), ReachFrom(vs, last, fuel), leader);
    }
  }

  // ---------------------------------------------------------------------------
  // Collecting and sorting the edges

  /** Every edge of the graph, vertex by vertex, each vertex's edges in order. */
  function AllEdges(vs: seq<Vertex>): (es: seq<Edge>)
    decreases |vs|
  {
    if |vs| == 0 then [] else AllEdges(vs[..|vs| - 1]) + vs[|vs| - 1].edges
  }

  /** An edge belongs to the graph exactly when some vertex stores it. */
  lemma {:induction false} AllEdgesMembers(vs: seq<Vertex>, e: Edge)
    ensures e in AllEdges(vs) <==> exists i :: 0 <= i < |vs| && e in vs[i].edges
    decreases |vs|
  {
    if |vs| > 0 {
      var init := vs[..|vs| - 1];
      AllEdgesMembers(init, e);
      if e in AllEdges(init) {
        var i :| 0 <= i < |init| && e in init[i].edges;
        assert vs[i] == init[i];
      }
      if exists i :: 0 <= i < |vs| && e in vs[i].edges {
        var i :| 0 <= i < |vs| && e in vs[i].edges;
        if i < |init| {
          assert init[i] == vs[i];
        }
      }
    }
  }

  lemma {:induction false} AllEdgesSameEdges(vs: seq<Vertex>, vs': seq<Vertex>)
    requires SameEdges(vs, vs')
    ensures AllEdges(vs) == AllEdges(vs')
    decreases |vs|
  {
    if |vs| > 0 {
      AllEdgesSameEdges(vs[..|vs| - 1], vs'[..|vs| - 1]);
    }
  }

  lemma {:induction false} AllEdgesFresh(size: int)
    ensures AllEdges(FreshVertices(size)) == []
    decreases if size > 0 then size else 0
  {
    if size > 0 {
      assert FreshVertices(size)[..size - 1] == FreshVertices(size - 1);
      AllEdgesFresh(size - 1);
    }
  }

  /** What the merge step pushes: `e` appended to the edges stored at its head. */
  function AddEdge(vs: seq<Vertex>, e: Edge): (vs': seq<Vertex>)
    requires e.head < |vs|
    ensures |vs'| == |vs|
    ensures vs'[e.head].edges == vs[e.head].edges + [e] && vs'[e.head].leader == vs[e.head].leader
    ensures forall i {:trigger vs'[i]} :: 0 <= i < |vs| ==>
      && vs'[i].name == vs[i].name && vs'[i].explored == vs[i].explored && vs'[i].leader == vs[i].leader
      && (i != e.head ==> vs'[i].edges == vs[i].edges)
  {
    vs[e.head := vs[e.head].(edges := vs[e.head].edges + [e])]
  }

  /** Adding an edge adds exactly that edge to the graph's edges. */
  lemma {:induction false} AllEdgesAddEdge(vs: seq<Vertex>, e: Edge)
    requires e.head < |vs|
    ensures multiset(AllEdges(AddEdge(vs, e))) == multiset(AllEdges(vs)) + multiset{e}
    ensures |AllEdges(AddEdge(vs, e))| == |AllEdges(vs)| + 1
    decreases |vs|
  {
    var n := |vs|;
    if e.head == n - 1 {
      AddEdgeAtLast(vs, e);
    } else {
      AllEdgesAddEdge(vs[..n - 1], e);
      AddEdgeBeforeLast(vs, e);
    }
  }

  /** An edge added at the last vertex comes last among the graph's edges. */
  lemma AddEdgeAtLast(vs: seq<Vertex>, e: Edge)
    requires e.head == |vs| - 1
    ensures AllEdges(AddEdge(vs, e)) == AllEdges(vs) + [e]
  {
    var n := |vs|;
    var vs' := AddEdge(vs, e);
    assert vs'[..n - 1] == vs[..n - 1];
    assert vs'[n - 1].edges == vs[n - 1].edges + [e];
    calc {
      AllEdges(vs');
      AllEdges(vs[..n - 1]) + (vs[n - 1].edges + [e]);
      AllEdges(vs[..n - 1]) + vs[n - 1].edges + [e];
      AllEdges(vs) + [e];
    }
  }

  /** An edge added before the last vertex is added to the edges of the vertices before it. */
  lemma AddEdgeBeforeLast(vs: seq<Vertex>, e: Edge)
    requires e.head < |vs| - 1
    requires multiset(AllEdges(AddEdge(vs[..|vs| - 1], e))) == multiset(AllEdges(vs[..|vs| - 1])) + multiset{e}
    requires |AllEdges(AddEdge(vs[..|vs| - 1], e))| == |AllEdges(vs[..|vs| - 1])| + 1
    ensures multiset(AllEdges(AddEdge(vs, e))) == multiset(AllEdges(vs)) + multiset{e}
    ensures |AllEdges(AddEdge(vs, e))| == |AllEdges(vs)| + 1
  {
    var n := |vs|;
    var init, last := vs[..n - 1], vs[n - 1];
    var vs', init' := AddEdge(vs, e), AddEdge(init, e);
    assert AllEdges(vs) == AllEdges(init) + last.edges by {
      assert vs == init + [last];
      AllEdgesSnoc(init, last);
    }
    assert AllEdges(vs') == AllEdges(init') + last.edges by {
      assert vs == init + [last];
      AllEdgesAddEdgeSnoc(init, last, e);
    }
    AppendGained(AllEdges(init), AllEdges(init'), last.edges, e);
  }

  lemma AllEdgesAddEdgeSnoc(vs: seq<Vertex>, v: Vertex, e: Edge)
    requires e.head < |vs|
    ensures AllEdges(AddEdge(vs + [v], e)) == AllEdges(AddEdge(vs, e)) + v.edges
  {
    AddEdgeSnoc(vs, v, e);
    AllEdgesSnoc(AddEdge(vs, e), v);
  }

  lemma AddEdgeSnoc(vs: seq<Vertex>, v: Vertex, e: Edge)
    requires e.head < |vs|
    ensures AddEdge(vs + [v], e) == AddEdge(vs, e) + [v]
  {
    assert (vs + [v])[e.head] == vs[e.head];
  }

  lemma AllEdgesSnoc(vs: seq<Vertex>, v: Vertex)
    ensures AllEdges(vs + [v]) == AllEdges(vs) + v.edges
  {
    assert (vs + [v])[..|vs|] == vs;
  }

  lemma AppendGained(a: seq<Edge>, a': seq<Edge>, b: seq<Edge>, e: Edge)
    requires multiset(a') == multiset(a) + multiset{e} && |a'| == |a| + 1
    ensures multiset(a' + b) == multiset(a + b) + multiset{e} && |a' + b| == |a + b| + 1
  {
  }

  predicate SortedByCost(es: seq<Edge>) {
    forall i, j :: 0 <= i < j < |es| ==> es[i].cost <= es[j].cost
  }

  /** The edges of `es` with cost `c`, in their order in `es`. */
  function WithCost(es: seq<Edge>, c: int): seq<Edge>
    decreases |es|
  {
    if |es| == 0 then []
    else WithCost(es[..|es| - 1], c) + (if es[|es| - 1].cost == c then [es[|es| - 1]] else [])
  }

  lemma {:induction false} WithCostAppend(xs: seq<Edge>, ys: seq<Edge>, c: int)
    ensures WithCost(xs + ys, c) == WithCost(xs, c) + WithCost(ys, c)
    decreases |ys|
  {
    if |ys| > 0 {
      assert (xs + ys)[..|xs + ys| - 1] == xs + ys[..|ys| - 1];
      WithCostAppend(xs, ys[..|ys| - 1], c);
    } else {
      assert xs + ys == xs;
    }
  }

  /** `e` placed after the last edge of `sorted` whose cost is at most its own. */
  function Insert(sorted: seq<Edge>, e: Edge): (r: seq<Edge>)
    ensures |r| == |sorted| + 1
    decreases |sorted|
  {
    if |sorted| == 0 || sorted[|sorted| - 1].cost <= e.cost then sorted + [e]
    else Insert(sorted[..|sorted| - 1], e) + [sorted[|sorted| - 1]]
  }

  /**
   * `sort_by(|a, b| a.cmp(b))`: a stable sort by cost, written as an
   * insertion sort. Its properties are SortByCostSorted,
   * SortByCostPermutes and SortByCostStable.
   */
  function SortByCost(es: seq<Edge>): (r: seq<Edge>)
    ensures |r| == |es|
    decreases |es|
  {
    if |es| == 0 then [] else Insert(SortByCost(es[..|es| - 1]), es[|es| - 1])
  }

  lemma {:induction false} InsertPermutes(sorted: seq<Edge>, e: Edge)
    ensures multiset(Insert(sorted, e)) == multiset(sorted) + multiset{e}
    decreases |sorted|
  {
    if |sorted| > 0 && sorted[|sorted| - 1].cost > e.cost {
      var init := sorted[..|sorted| - 1];
      InsertPermutes(init, e);
      assert sorted == init + [sorted[|sorted| - 1]];
    }
  }

  lemma {:induction false} InsertSorted(sorted: seq<Edge>, e: Edge)
    requires SortedByCost(sorted)
    ensures SortedByCost(Insert(sorted, e))
    decreases |sorted|
  {
    if |sorted| > 0 && sorted[|sorted| - 1].cost > e.cost {
      var init, last := sorted[..|sorted| - 1], sorted[|sorted| - 1];
      InsertSorted(init, e);
      InsertPermutes(init, e);
      var front := Insert(init, e);
      forall k | 0 <= k < |front|
        ensures front[k].cost <= last.cost
      {
        assert front[k] in multiset(init) + multiset{e};
        if front[k] in init {
          var j :| 0 <= j < |init| && init[j] == front[k];
          assert sorted[j] == front[k];
        }
      }
    }
  }

  lemma WithCostSingle(x: Edge, c: int)
    ensures WithCost([x], c) == if x.cost == c then [x] else []
  {
    assert [x][..0] == [];
  }

  lemma {:induction false} InsertStable(sorted: seq<Edge>, e: Edge, c: int)
    ensures WithCost(Insert(sorted, e), c) == WithCost(sorted, c) + WithCost([e], c)
    decreases |sorted|
  {
    if |sorted| == 0 || sorted[|sorted| - 1].cost <= e.cost {
      WithCostAppend(sorted, [e], c);
    } else {
      InsertStable(sorted[..|sorted| - 1], e, c);
      InsertStableStep(sorted, e, c);
    }
  }

  /** Inserting before a dearer last edge: one of `e` and that edge has a cost other than `c`. */
  lemma InsertStableStep(sorted: seq<Edge>, e: Edge, c: int)
    requires |sorted| > 0 && sorted[|sorted| - 1].cost > e.cost
    requires var init := sorted[..|sorted| - 1];
      WithCost(Insert(init, e), c) == WithCost(init, c) + WithCost([e], c)
    ensures WithCost(Insert(sorted, e), c) == WithCost(sorted, c) + WithCost([e], c)
  {
    var init, last := sorted[..|sorted| - 1], sorted[|sorted| - 1];
    assert Insert(sorted, e) == Insert(init, e) + [last];
    assert sorted == init + [last];
    WithCostSwap(init, Insert(init, e), e, last, c);
  }

  /** Appending an edge whose cost differs from `e`'s keeps `e`'s filtered part after the others. */
  lemma WithCostSwap(init: seq<Edge>, front: seq<Edge>, e: Edge, last: Edge, c: int)
    requires e.cost != last.cost
    requires WithCost(front, c) == WithCost(init, c) + WithCost([e], c)
    ensures WithCost(front + [last], c) == WithCost(init + [last], c) + WithCost([e], c)
  {
    WithCostAppend(front, [last], c);
    WithCostAppend(init, [last], c);
    WithCostSingle(e, c);
    WithCostSingle(last, c);
  }

  /** The sort orders by cost. */
  lemma {:induction false} SortByCostSorted(es: seq<Edge>)
    ensures SortedByCost(SortByCost(es))
    decreases |es|
  {
    if |es| > 0 {
      SortByCostSorted(es[..|es| - 1]);
      InsertSorted(SortByCost(es[..|es| - 1]), es[|es| - 1]);
    }
  }

  /** The sort neither loses nor invents edges. */
  lemma {:induction false} SortByCostPermutes(es: seq<Edge>)
    ensures multiset(SortByCost(es)) == multiset(es)
    decreases |es|
  {
    if |es| > 0 {
      var init, last := es[..|es| - 1], es[|es| - 1];
      SortByCostPermutes(init);
      InsertPermutes(SortByCost(init), last);
      assert es == init + [last];
      calc {
        multiset(SortByCost(es));
        multiset(Insert(SortByCost(init), last));
        multiset(SortByCost(init)) + multiset{last};
        multiset(init) + multiset{last};
        multiset(init + [last]);
      }
    }
  }

  /** The sort is stable: edges of equal cost keep their relative order. */
  lemma {:induction false} SortByCostStable(es: seq<Edge>, c: int)
    ensures WithCost(SortByCost(es), c) == WithCost(es, c)
    decreases |es|
  {
    if |es| > 0 {
      var init, last := es[..|es| - 1], es[|es| - 1];
      SortByCostStable(init, c);
      InsertStable(SortByCost(init), last, c);
      WithCostSingle(last, c);
    }
  }

  // ---------------------------------------------------------------------------
  // cluster_spacing

  /** `n as i32` for a `usize`: the low 32 bits read as a two's-complement number. */
  function UsizeAsI32(n: nat): (r: int)
    ensures InI32(r)
    ensures (r - n) % 0x1_0000_0000 == 0
    ensures n <= I32_MAX ==> r == n
  {
    var low := n % 0x1_0000_0000;
    if low <= I32_MAX then low else low - 0x1_0000_0000
  }

  /** Why the scan over the sorted edges ended. */
  datatype Stop =
    | Stopped(at: nat)  // the `break` at edge `at`, once few enough clusters remained
    | RanOut            // every edge was looked at

  /** The state when the scan ends: why, the forest `t` built so far, and the cluster count. */
  datatype ScanEnd = ScanEnd(stop: Stop, forest: seq<Vertex>, clusters: nat)

  /**
   * The `for e in &edges` loop of `cluster_spacing` from edge `i` on, with
   * the forest `t` and the count `clusters`. `update_leaders` is given one
   * nested call per vertex of the forest; needing more means the recursion
   * follows a cycle and never returns.
   */
  function Scan(edges: seq<Edge>, i: nat, forest: seq<Vertex>, clusters: nat, groups: nat): (r: Result<ScanEnd>)
    requires i <= |edges|
    ensures r.Ok? ==> |r.value.forest| == |forest|
    ensures r.Ok? && r.value.stop.Stopped? ==> i <= r.value.stop.at < |edges|
    decreases |edges| - i
  {
    if i == |edges| then Ok(ScanEnd(RanOut, forest, clusters))
    else if clusters <= groups then Ok(ScanEnd(Stopped(i), forest, clusters))
    else
      var e := edges[i];
      if e.head >= |forest| || e.tail >= |forest| then Err(IndexOutOfBounds)
      else if forest[e.head].leader == forest[e.tail].leader then Scan(edges, i + 1, forest, clusters, groups)
      else
        match RelabelFrom(forest, e.tail, forest[e.head].leader, |forest|)
        case Err(p) => Err(p)
        case Ok(relabelled) => Scan(edges, i + 1, AddEdge(relabelled, e), clusters - 1, groups)
  }

  /** The edges `cluster_spacing` scans: all of the graph's, sorted by cost. */
  function SortedEdges(vs: seq<Vertex>): seq<Edge> {
    SortByCost(AllEdges(vs))
  }

  /** The scan `cluster_spacing(groups, g)` runs, from the forest `build` makes. */
  function Clustering(groups: nat, vs: seq<Vertex>): (r: Result<ScanEnd>)
    ensures r.Ok? ==> r.value.clusters <= |vs|
    ensures r.Ok? && r.value.stop.Stopped? ==> r.value.stop.at < |AllEdges(vs)|
  {
    var r := Scan(SortedEdges(vs), 0, FreshVertices(UsizeAsI32(|vs|)), |vs|, groups);
    if r.Ok? then ScanStops(SortedEdges(vs), 0, FreshVertices(UsizeAsI32(|vs|)), |vs|, groups); r else r
  }

  /** The value `cluster_spacing(groups, g)` returns: the edge the scan stopped at, or 0. */
  function Spacing(groups: nat, vs: seq<Vertex>): (r: Result<int>)
    ensures |vs| == 0 ==> r == Ok(0)
    ensures r.Ok? && r.value != 0 ==> exists e :: e in AllEdges(vs) && e.cost == r.value
  {
    match Clustering(groups, vs)
    case Err(p) => Err(p)
    case Ok(end) =>
      if end.stop.Stopped? then
        SortByCostPermutes(AllEdges(vs));
        assert SortedEdges(vs)[end.stop.at] in multiset(AllEdges(vs));
        Ok(SortedEdges(vs)[end.stop.at].cost)
      else Ok(0)
  }

  /** update_leaders never changes an edge list. */
  lemma RelabelFromKeepsEdges(vs: seq<Vertex>, start: nat, leader: nat, fuel: nat)
    requires RelabelFrom(vs, start, leader, fuel).Ok?
    ensures SameEdges(vs, RelabelFrom(vs, start, leader, fuel).value)
  {
    RelabelFromReaches(vs, start, leader, fuel);
  }

  /** One merge of the scan: `t` gains edge `e` and loses a cluster. */
  lemma ScanMerges(edges: seq<Edge>, k: nat, forest: seq<Vertex>, clusters: nat, groups: nat)
    requires k < |edges| && groups < clusters
    requires edges[k].head < |forest| && edges[k].tail < |forest|
    requires forest[edges[k].head].leader != forest[edges[k].tail].leader
    requires RelabelFrom(forest, edges[k].tail, forest[edges[k].head].leader, |forest|).Ok?
    ensures var relabelled := RelabelFrom(forest, edges[k].tail, forest[edges[k].head].leader, |forest|).value;
      && Scan(edges, k, forest, clusters, groups) == Scan(edges, k + 1, AddEdge(relabelled, edges[k]), clusters - 1, groups)
      && |AllEdges(AddEdge(relabelled, edges[k]))| == |AllEdges(forest)| + 1
  {
    var relabelled := RelabelFrom(forest, edges[k].tail, forest[edges[k].head].leader, |forest|).value;
    RelabelFromKeepsEdges(forest, edges[k].tail, forest[edges[k].head].leader, |forest|);
    AllEdgesSameEdges(forest, relabelled);
    AllEdgesAddEdge(relabelled, edges[k]);
  }

  /** The first loops of `cluster_spacing`: a copy of every edge of `g`, vertex by vertex. */
  method CollectEdges(g: Graph) returns (edges: seq<Edge>)
    ensures edges == AllEdges(g.vertices)
  {
    edges := [];
    var i := 0;
    while i < |g.vertices|
      invariant i <= |g.vertices|
      invariant edges == AllEdges(g.vertices[..i])
    {
      var v := g.vertices[i];
      var j := 0;
      while j < |v.edges|
        invariant j <= |v.edges|
        invariant edges == AllEdges(g.vertices[..i]) + v.edges[..j]
      {
        var e := v.edges[j];
        edges := edges + [Edge(e.cost, e.head, e.tail)];
        j := j + 1;
      }
      assert g.vertices[..i + 1][..i] == g.vertices[..i];
      assert v.edges[..j] == v.edges;
      i := i + 1;
    }
    assert g.vertices[..i] == g.vertices;
  }

  /**
   * `cluster_spacing`: copies every edge of `g`, sorts them, builds the
   * forest `t` and scans; `g` is only read. Along the scan every merge adds
   * one edge to `t` and removes one cluster.
   */
  method ClusterSpacing(groups: nat, g: Graph) returns (r: Result<int>)
    ensures r == Spacing(groups, g.vertices)
  {
    var t := new Graph();
    var edges: seq<Edge>;
    var clusters: nat := |g.vertices|;
    var minSpacing := 0;

    t.Build(UsizeAsI32(clusters));
    assert t.vertices == FreshVertices(UsizeAsI32(clusters));
    AllEdgesFresh(UsizeAsI32(clusters));

    edges := CollectEdges(g);
    edges := SortByCost(edges);

    ghost var n := |g.vertices|;
    ghost var goal := Clustering(groups, g.vertices);
    var k := 0;
    while k < |edges|
      invariant k <= |edges|
      invariant Scan(edges, k, t.vertices, clusters, groups) == goal
      invariant clusters + |AllEdges(t.vertices)| == n
      invariant minSpacing == 0
    {
      var e := edges[k];
      if clusters <= groups {
        minSpacing := e.cost;
        break;
      }
      if e.head >= |t.vertices| {
        return Err(IndexOutOfBounds);
      }
      var leader := t.vertices[e.head].leader;
      if e.tail >= |t.vertices| {
        return Err(IndexOutOfBounds);
      }
      if leader != t.vertices[e.tail].leader {
        ghost var before := t.vertices;
        var status := UpdateLeaders(t, e.tail, leader, |t.vertices|);
        if status.Err? {
          return Err(status.panic);
        }
        ScanMerges(edges, k, before, clusters, groups);
        assert Edge(e.cost, e.head, e.tail) == e;
        t.vertices := AddEdge(t.vertices, Edge(e.cost, e.head, e.tail));
        clusters := clusters - 1;
      }
      k := k + 1;
    }
    return Ok(minSpacing);
  }

  /** Every merge of the scan trades one cluster for one edge of the forest. */
  lemma {:induction false} ScanCountsMerges(edges: seq<Edge>, i: nat, forest: seq<Vertex>, clusters: nat, groups: nat)
    requires i <= |edges| && Scan(edges, i, forest, clusters, groups).Ok?
    ensures var end := Scan(edges, i, forest, clusters, groups).value;
      end.clusters + |AllEdges(end.forest)| == clusters + |AllEdges(forest)|
    decreases |edges| - i
  {
    if i < |edges| && groups < clusters {
      var e := edges[i];
      if forest[e.head].leader == forest[e.tail].leader {
        ScanCountsMerges(edges, i + 1, forest, clusters, groups);
      } else {
        ScanMerges(edges, i, forest, clusters, groups);
        var relabelled := RelabelFrom(forest, e.tail, forest[e.head].leader, |forest|).value;
        ScanCountsMerges(edges, i + 1, AddEdge(relabelled, e), clusters - 1, groups);
      }
    }
  }

  /**
   * The scan merges while more than `groups` clusters remain and never goes
   * below `groups`; when it stops early exactly `groups` clusters remain,
   * or as many as it started with if that was no more than `groups`.
   */
  lemma {:induction false} ScanStops(edges: seq<Edge>, i: nat, forest: seq<Vertex>, clusters: nat, groups: nat)
    requires i <= |edges| && Scan(edges, i, forest, clusters, groups).Ok?
    ensures var end := Scan(edges, i, forest, clusters, groups).value;
      && end.clusters <= clusters
      && (groups <= clusters ==> groups <= end.clusters)
      && (end.stop.Stopped? ==> end.clusters == if clusters <= groups then clusters else groups)
      && (end.stop.Stopped? && clusters <= groups ==> end.stop.at == i)
    decreases |edges| - i
  {
    if i < |edges| && groups < clusters {
      var e := edges[i];
      if forest[e.head].leader == forest[e.tail].leader {
        ScanStops(edges, i + 1, forest, clusters, groups);
      } else {
        ScanMerges(edges, i, forest, clusters, groups);
        var relabelled := RelabelFrom(forest, e.tail, forest[e.head].leader, |forest|).value;
        ScanStops(edges, i + 1, AddEdge(relabelled, e), clusters - 1, groups);
      }
    }
  }

  /**
   * What `cluster_spacing` builds: a forest holding one edge per merge, and,
   * when it stops early, exactly `groups` clusters (all `|vs|` vertices
   * apart when `groups` is not below that).
   */
  lemma ClusteringMerges(groups: nat, vs: seq<Vertex>)
    requires Clustering(groups, vs).Ok?
    ensures var end := Clustering(groups, vs).value;
      && end.clusters + |AllEdges(end.forest)| == |vs|
      && (end.stop.Stopped? ==> end.clusters == if |vs| <= groups then |vs| else groups)
  {
    var forest := FreshVertices(UsizeAsI32(|vs|));
    AllEdgesFresh(UsizeAsI32(|vs|));
    ScanCountsMerges(SortedEdges(vs), 0, forest, |vs|, groups);
    ScanStops(SortedEdges(vs), 0, forest, |vs|, groups);
  }

  /**
   * The spacing returned is 0 when the scan ran out of edges, and otherwise
   * the cost of an edge of the graph that is at least the cost of every
   * edge scanned before it.
   */
  lemma SpacingIsNextEdge(groups: nat, vs: seq<Vertex>)
    requires Clustering(groups, vs).Ok?
    ensures var end := Clustering(groups, vs).value;
      && (end.stop.RanOut? ==> Spacing(groups, vs) == Ok(0))
      && (end.stop.Stopped? ==>
            && SortedEdges(vs)[end.stop.at] in AllEdges(vs)
            && Spacing(groups, vs) == Ok(SortedEdges(vs)[end.stop.at].cost)
            && forall j :: 0 <= j < end.stop.at ==> SortedEdges(vs)[j].cost <= SortedEdges(vs)[end.stop.at].cost)
  {
    var end := Clustering(groups, vs).value;
    if end.stop.Stopped? {
      SortByCostSorted(AllEdges(vs));
      SortByCostPermutes(AllEdges(vs));
      assert SortedEdges(vs)[end.stop.at] in multiset(SortedEdges(vs));
    }
  }

  /**
   * With at least as many groups as vertices nothing is merged and the
   * spacing is the cheapest edge of the graph.
   */
  lemma SpacingWithoutMerges(groups: nat, vs: seq<Vertex>)
    requires |vs| <= groups && |AllEdges(vs)| > 0
    ensures Spacing(groups, vs).Ok?
    ensures exists e :: e in AllEdges(vs) && e.cost == Spacing(groups, vs).value
    ensures forall e :: e in AllEdges(vs) ==> Spacing(groups, vs).value <= e.cost
  {
    var edges := SortedEdges(vs);
    SortByCostSorted(AllEdges(vs));
    SortByCostPermutes(AllEdges(vs));
    assert |edges| == |multiset(edges)| == |AllEdges(vs)|;
    assert Clustering(groups, vs) == Ok(ScanEnd(Stopped(0), FreshVertices(UsizeAsI32(|vs|)), |vs|));
    assert edges[0] in multiset(edges);
    forall e | e in AllEdges(vs)
      ensures edges[0].cost <= e.cost
    {
      assert e in multiset(edges);
      var j :| 0 <= j < |edges| && edges[j] == e;
    }
  }
}
