/** `find_cycles`: the depth-first search over the crate dependency graph. */
module Cycles {

  /** Each crate with its dependencies in the order in which they are visited. */
  type Graph = map<string, seq<string>>

  predicate Edge(g: Graph, a: string, b: string) {
    a in g && b in g[a]
  }

  predicate Closed(g: Graph) {
    forall n, d :: n in g && d in g[n] ==> d in g
  }

  predicate IsPath(g: Graph, p: seq<string>) {
    forall i :: 0 <= i < |p| - 1 ==> Edge(g, p[i], p[i + 1])
  }

  predicate ClosedWalk(g: Graph, w: seq<string>) {
    |w| >= 2 && w[0] == w[|w| - 1] && IsPath(g, w)
  }

  ghost predicate Acyclic(g: Graph) {
    forall w :: !ClosedWalk(g, w)
  }

  /** The edge is the last one of a reported cycle. */
  ghost predicate Closes(cycles: seq<seq<string>>, a: string, b: string) {
    exists i :: 0 <= i < |cycles| && |cycles[i]| >= 2 && cycles[i][|cycles[i]| - 2] == a && cycles[i][|cycles[i]| - 1] == b
  }

  /** Every crate in `order` comes after all of its dependencies, but for the edges that close a reported cycle. */
  ghost predicate Topological(g: Graph, order: seq<string>, cycles: seq<seq<string>>) {
    forall i, d :: 0 <= i < |order| && order[i] in g && d in g[order[i]] ==> d in order[..i] || Closes(cycles, order[i], d)
  }

  /** No edge of the path closes a reported cycle. */
  ghost predicate Avoids(p: seq<string>, cycles: seq<seq<string>>) {
    forall i :: 0 <= i < |p| - 1 ==> !Closes(cycles, p[i], p[i + 1])
  }

  function FirstIndex(order: seq<string>, n: string): (i: nat)
    requires n in order
    ensures i < |order| && order[i] == n
    ensures forall j :: 0 <= j < i ==> order[j] != n
  {
    if order[0] == n then 0 else 1 + FirstIndex(order[1..], n)
  }

  /** Along a path that closes nothing, positions in a topological order go strictly down. */
  lemma {:induction false} PathDescends(g: Graph, order: seq<string>, cycles: seq<seq<string>>, p: seq<string>)
    requires Topological(g, order, cycles) && IsPath(g, p) && Avoids(p, cycles) && |p| >= 2
    requires forall i :: 0 <= i < |p| ==> p[i] in order
    ensures FirstIndex(order, p[|p| - 1]) < FirstIndex(order, p[0])
  {
    var i := FirstIndex(order, p[0]);
    assert Edge(g, p[0], p[1]) && !Closes(cycles, p[0], p[1]);
    assert p[1] in order[..i];
    var j :| 0 <= j < i && order[..i][j] == p[1];
    assert order[j] == p[1] && FirstIndex(order, p[1]) <= j;
    if |p| > 2 {
      TailAvoids(g, cycles, p);
      PathDescends(g, order, cycles, p[1..]);
    }
  }

  lemma TailAvoids(g: Graph, cycles: seq<seq<string>>, p: seq<string>)
    requires IsPath(g, p) && Avoids(p, cycles) && |p| > 2
    ensures IsPath(g, p[1..]) && Avoids(p[1..], cycles)
  {
    forall k | 0 <= k < |p| - 2
      ensures Edge(g, p[1..][k], p[1..][k + 1]) && !Closes(cycles, p[1..][k], p[1..][k + 1])
    {
      assert Edge(g, p[k + 1], p[k + 2]) && !Closes(cycles, p[k + 1], p[k + 2]);
    }
  }

  /** Some edge of the walk closes a reported cycle. */
  ghost predicate Touched(w: seq<string>, cycles: seq<seq<string>>) {
    exists i :: 0 <= i < |w| - 1 && Closes(cycles, w[i], w[i + 1])
  }

  /** Once every crate has its place, each closed walk of the graph runs through the last edge of a reported cycle. */
  lemma EveryWalkIsTouched(g: Graph, order: seq<string>, cycles: seq<seq<string>>, w: seq<string>)
    requires Closed(g) && Topological(g, order, cycles) && ClosedWalk(g, w)
    requires forall n :: n in g ==> n in order
    ensures Touched(w, cycles)
  {
    if !Touched(w, cycles) {
      forall i | 0 <= i < |w|
        ensures w[i] in order
      {
        if i < |w| - 1 {
          assert Edge(g, w[i], w[i + 1]);
        } else {
          assert Edge(g, w[i - 1], w[i]);
        }
      }
      PathDescends(g, order, cycles, w);
    }
  }

  class CycleFinder {
    const graph: Graph
    var visiting: seq<string>
    var visited: set<string>
    var cycles: seq<seq<string>>
    ghost var order: seq<string>  // the visited crates in the order in which they were finished

    ghost predicate Valid()
      reads this
    {
      && Closed(graph)
      && IsPath(graph, visiting)
      && (forall i :: 0 <= i < |visiting| ==> visiting[i] in graph && visiting[i] !in visited)
      && (forall i :: 0 <= i < |cycles| ==> ClosedWalk(graph, cycles[i]))
      && (forall n :: n in visited <==> n in order)
      && Topological(graph, order, cycles)
    }

    ghost function Unseen(): set<string>
      reads this
    {
      graph.Keys - visited - set n | n in visiting
    }

    constructor (g: Graph)
      requires Closed(g)
      ensures Valid() && graph == g && visiting == [] && visited == {} && cycles == []
    {
      graph, visiting, visited, cycles, order := g, [], {}, [], [];
    }

    /** The crate is on the current path: what follows it on the path closes a cycle. */
    method RecordCycle(node: string)
      requires Valid() && node in visiting
      requires Edge(graph, visiting[|visiting| - 1], node)
      modifies this`cycles
      ensures Valid() && cycles == old(cycles) + [visiting[FirstIndex(visiting, node)..] + [node]]
    {
      var at := FirstIndex(visiting, node);
      var cycle := visiting[at..] + [node];
      assert IsPath(graph, cycle) by {
        forall i | 0 <= i < |cycle| - 1
          ensures Edge(graph, cycle[i], cycle[i + 1])
        {
          if i < |cycle| - 2 {
            assert Edge(graph, visiting[at + i], visiting[at + i + 1]);
          }
        }
      }
      cycles := cycles + [cycle];
      ClosesStill(old(cycles), cycles);
    }

    method Visit(node: string)
      requires Valid() && node in graph
      requires visiting != [] ==> Edge(graph, visiting[|visiting| - 1], node)
      modifies this
      ensures Valid() && visiting == old(visiting)
      ensures old(visited) <= visited && old(cycles) <= cycles
      ensures node in visited || (visiting != [] && Closes(cycles, visiting[|visiting| - 1], node))
      decreases Unseen()
    {
      if node in visiting {
        RecordCycle(node);
        CycleCloses(cycles, visiting, FirstIndex(visiting, node), node);
        return;
      }
      if node in visited {
        return;
      }
      visiting := visiting + [node];
      assert node in old(Unseen()) && node !in Unseen();
      var deps := graph[node];
      for i := 0 to |deps|
        invariant Valid() && visiting == old(visiting) + [node]
        invariant old(visited) <= visited && old(cycles) <= cycles
        invariant forall j :: 0 <= j < i ==> deps[j] in visited || Closes(cycles, node, deps[j])
      {
        assert visiting[|visiting| - 1] == node;
        ghost var reported := cycles;
        Visit(deps[i]);
        ClosesStill(reported, cycles);
      }
      Finish(node);
    }

    /** Leave the crate: all its dependencies have been followed. */
    method Finish(node: string)
      requires Valid() && visiting != [] && visiting[|visiting| - 1] == node
      requires forall i :: 0 <= i < |visiting| - 1 ==> visiting[i] != node
      requires forall d :: d in graph[node] ==> d in visited || Closes(cycles, node, d)
      modifies this`visiting, this`visited, this`order
      ensures Valid() && visiting == old(visiting)[..|old(visiting)| - 1] && visited == old(visited) + {node}
    {
      visiting := visiting[..|visiting| - 1];
      visited := visited + {node};
      assert Topological(graph, order + [node], cycles) by {
        assert forall i :: 0 <= i < |order| ==> (order + [node])[..i] == order[..i];
        assert (order + [node])[..|order|] == order;
      }
      order := order + [node];
    }
  }

  lemma CycleCloses(cycles: seq<seq<string>>, path: seq<string>, at: nat, node: string)
    requires at < |path| && cycles != [] && cycles[|cycles| - 1] == path[at..] + [node]
    ensures Closes(cycles, path[|path| - 1], node)
  {
    var cycle := path[at..] + [node];
    assert cycle[|cycle| - 2] == path[|path| - 1] && cycle[|cycle| - 1] == node;
  }

  lemma ClosesStill(before: seq<seq<string>>, after: seq<seq<string>>)
    requires before <= after
    ensures forall a, b :: Closes(before, a, b) ==> Closes(after, a, b)
  {
    forall a, b | Closes(before, a, b)
      ensures Closes(after, a, b)
    {
      var i :| 0 <= i < |before| && |before[i]| >= 2 && before[i][|before[i]| - 2] == a && before[i][|before[i]| - 1] == b;
      assert after[i] == before[i];
    }
  }

  /**
   * The search ends on every closed finite graph. Everything that it reports is a closed walk of the graph, and every closed
   * walk of the graph runs through the last edge of one that it reports; so it reports nothing exactly when there is none.
   */
  method FindCycles(graph: Graph, roots: seq<string>) returns (cycles: seq<seq<string>>)
    requires Closed(graph)
    requires forall n :: n in roots <==> n in graph
    ensures forall i :: 0 <= i < |cycles| ==> ClosedWalk(graph, cycles[i])
    ensures forall w :: ClosedWalk(graph, w) ==> Touched(w, cycles)
    ensures cycles == [] <==> Acyclic(graph)
  {
    var finder := new CycleFinder(graph);
    for i := 0 to |roots|
      invariant finder.Valid() && finder.graph == graph && finder.visiting == []
      invariant forall j :: 0 <= j < i ==> roots[j] in finder.visited
    {
      finder.Visit(roots[i]);
    }
    cycles := finder.cycles;
    forall w | ClosedWalk(graph, w)
      ensures Touched(w, cycles)
    {
      EveryWalkIsTouched(graph, finder.order, cycles, w);
    }
    if cycles != [] {
      assert ClosedWalk(graph, cycles[0]);
    }
  }
}
