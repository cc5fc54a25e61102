/** Directed graphs as finite edge sets, and reachability by paths. */
module Graph {
  ghost predicate IsPath<T>(edges: set<(T, T)>, path: seq<T>) {
    path != [] && forall i :: 0 <= i < |path| - 1 ==> (path[i], path[i + 1]) in edges
  }

  ghost predicate Connects<T>(edges: set<(T, T)>, path: seq<T>, from: T, to: T) {
    IsPath(edges, path) && path[0] == from && path[|path| - 1] == to
  }

  /** Some path, possibly of length zero, leads from `from` to `to`. */
  ghost predicate Reachable<T(!new)>(edges: set<(T, T)>, from: T, to: T) {
    exists path: seq<T> :: Connects(edges, path, from, to)
  }

  ghost predicate ClosedUnder<T(!new)>(nodes: set<T>, edges: set<(T, T)>) {
    forall e :: e in edges && e.0 in nodes ==> e.1 in nodes
  }

  lemma ReachesItself<T(!new)>(edges: set<(T, T)>, x: T)
    ensures Reachable(edges, x, x)
  {
    assert Connects(edges, [x], x, x);
  }

  lemma ReachStep<T(!new)>(edges: set<(T, T)>, x: T, y: T, z: T)
    requires Reachable(edges, x, y) && (y, z) in edges
    ensures Reachable(edges, x, z)
  {
    var path :| Connects(edges, path, x, y);
    var longer := path + [z];
    assert forall i :: 0 <= i < |path| ==> longer[i] == path[i];
    assert Connects(edges, longer, x, z);
  }

  lemma {:induction false} ReachTransitive<T(!new)>(edges: set<(T, T)>, x: T, y: T, z: T)
    requires Reachable(edges, x, y) && Reachable(edges, y, z)
    ensures Reachable(edges, x, z)
  {
    var path :| Connects(edges, path, y, z);
    ReachAlong(edges, x, path);
  }

  lemma {:induction false} ReachAlong<T(!new)>(edges: set<(T, T)>, x: T, path: seq<T>)
    requires IsPath(edges, path) && Reachable(edges, x, path[0])
    ensures Reachable(edges, x, path[|path| - 1])
    decreases |path|
  {
    if |path| > 1 {
      var n := |path| - 1;
      var init := path[..n];
      assert forall i :: 0 <= i < n ==> init[i] == path[i];
      ReachAlong(edges, x, init);
      ReachStep(edges, x, path[n - 1], path[n]);
    }
  }

  /** A closed set containing the start contains everything reachable. */
  lemma {:induction false} PathStaysInside<T(!new)>(nodes: set<T>, edges: set<(T, T)>, path: seq<T>)
    requires ClosedUnder(nodes, edges) && IsPath(edges, path) && path[0] in nodes
    ensures path[|path| - 1] in nodes
    decreases |path|
  {
    if |path| > 1 {
      assert (path[0], path[1]) in edges;
      var rest := path[1..];
      assert forall i :: 0 <= i < |rest| ==> rest[i] == path[i + 1];
      PathStaysInside(nodes, edges, rest);
    }
  }

  lemma ClosedContainsReachable<T(!new)>(nodes: set<T>, edges: set<(T, T)>, x: T, y: T)
    requires ClosedUnder(nodes, edges) && x in nodes && Reachable(edges, x, y)
    ensures y in nodes
  {
    var path :| Connects(edges, path, x, y);
    PathStaysInside(nodes, edges, path);
  }

  // ---------------------------------------------------------------- bottom components

  /** Everything reachable from `x`; only `x` and edge targets can be. */
  ghost function ReachSet<T(!new)>(edges: set<(T, T)>, x: T): set<T> {
    set y | y in (set e | e in edges :: e.1) + {x} && Reachable(edges, x, y)
  }

  lemma ReachSetIsExact<T(!new)>(edges: set<(T, T)>, x: T, y: T)
    ensures y in ReachSet(edges, x) <==> Reachable(edges, x, y)
  {
    if Reachable(edges, x, y) {
      var path :| Connects(edges, path, x, y);
      if |path| > 1 {
        var e := (path[|path| - 2], path[|path| - 1]);
        assert e in edges;
      }
    }
  }

  /** From every node one can descend to a node that everything it reaches can reach back. */
  lemma BottomNode<T(!new)>(edges: set<(T, T)>, x: T) returns (bottom: T)
    ensures Reachable(edges, x, bottom)
    ensures forall y :: Reachable(edges, bottom, y) ==> Reachable(edges, y, bottom)
    decreases ReachSet(edges, x)
  {
    ReachesItself(edges, x);
    if y :| Reachable(edges, x, y) && !Reachable(edges, y, x) {
      forall z | z in ReachSet(edges, y) ensures z in ReachSet(edges, x) {
        ReachSetIsExact(edges, y, z);
        ReachTransitive(edges, x, y, z);
        ReachSetIsExact(edges, x, z);
      }
      ReachSetIsExact(edges, x, x);
      ReachSetIsExact(edges, y, x);
      bottom := BottomNode(edges, y);
      ReachTransitive(edges, x, y, bottom);
    } else {
      bottom := x;
    }
  }
}
