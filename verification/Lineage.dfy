/**
 The correction lineage of a session: the undirected graph of parent links, and the
 fixpoint by which both stores find everything a deletion must take with it.
 */
module Lineage {
  import opened Basics

  /** The stored sessions, and a link from each that records a parent to that parent's id. */
  datatype Graph = Graph(nodes: set<Id>, links: set<(Id, Id)>) {
    ghost predicate Valid() {
      forall link :: link in links ==> link.0 in nodes
    }
  }

  ghost predicate Adjacent(g: Graph, a: Id, b: Id) {
    (a, b) in g.links || (b, a) in g.links
  }

  /** A walk along parent links that starts at `root` and otherwise visits stored sessions. */
  ghost predicate IsWalk(g: Graph, root: Id, walk: seq<Id>) {
    && |walk| > 0
    && walk[0] == root
    && (forall i :: 0 <= i < |walk| ==> walk[i] in g.nodes + {root})
    && (forall i :: 0 <= i < |walk| - 1 ==> Adjacent(g, walk[i], walk[i + 1]))
  }

  ghost predicate Linked(g: Graph, root: Id, x: Id) {
    exists walk :: IsWalk(g, root, walk) && walk[|walk| - 1] == x
  }

  /** The connected component of `root`, which need not be stored itself. */
  ghost function Component(g: Graph, root: Id): set<Id> {
    set x | x in g.nodes + {root} && Linked(g, root, x)
  }

  /** One round of the loop: children of the lineage, and stored parents of its members. */
  function Related(g: Graph, lineage: set<Id>): set<Id> {
    (set link | link in g.links && link.1 in lineage :: link.0)
    + (set link | link in g.links && link.0 in lineage && link.1 in g.nodes :: link.1)
  }

  lemma RootIsLinked(g: Graph, root: Id)
    ensures Linked(g, root, root)
  {
    assert IsWalk(g, root, [root]);
  }

  lemma RelatedIsLinked(g: Graph, root: Id, lineage: set<Id>, x: Id)
    requires g.Valid()
    requires lineage <= Component(g, root)
    requires x in Related(g, lineage)
    ensures x in Component(g, root)
  {
    var y :| y in lineage && Adjacent(g, y, x);
    var walk :| IsWalk(g, root, walk) && walk[|walk| - 1] == y;
    assert IsWalk(g, root, walk + [x]);
  }

  lemma {:induction false} WalkStaysInside(g: Graph, root: Id, lineage: set<Id>, walk: seq<Id>)
    requires g.Valid()
    requires root in lineage && Related(g, lineage) <= lineage
    requires IsWalk(g, root, walk)
    ensures walk[|walk| - 1] in lineage
    decreases |walk|
  {
    if |walk| > 1 {
      var before := walk[..|walk| - 1];
      assert IsWalk(g, root, before);
      WalkStaysInside(g, root, lineage, before);
      assert Adjacent(g, walk[|walk| - 2], walk[|walk| - 1]);
      if walk[|walk| - 1] != root {
        assert walk[|walk| - 1] in Related(g, lineage);
      }
    }
  }

  /** A closed lineage that contains only linked sessions is the whole component. */
  lemma ClosedIsComponent(g: Graph, root: Id, lineage: set<Id>)
    requires g.Valid()
    requires root in lineage && lineage <= Component(g, root)
    requires Related(g, lineage) <= lineage
    ensures lineage == Component(g, root)
  {
    forall x | x in Component(g, root) ensures x in lineage {
      var walk :| IsWalk(g, root, walk) && walk[|walk| - 1] == x;
      WalkStaysInside(g, root, lineage, walk);
    }
  }

  /** The `while True` loop of both stores' `delete`. */
  method FindLineage(g: Graph, root: Id) returns (lineage: set<Id>)
    requires g.Valid()
    ensures lineage == Component(g, root)
  {
    RootIsLinked(g, root);
    lineage := {root};
    while true
      invariant root in lineage && lineage <= Component(g, root)
      decreases g.nodes + {root} - lineage
    {
      var related := Related(g, lineage);
      forall x | x in related ensures x in Component(g, root) {
        RelatedIsLinked(g, root, lineage, x);
      }
      if related <= lineage {
        break;
      }
      ghost var x :| x in related && x !in lineage;
      assert x in g.nodes + {root} - lineage;
      lineage := lineage + related;
    }
    ClosedIsComponent(g, root, lineage);
  }

  lemma LinkedNeighbour(g: Graph, root: Id, a: Id, b: Id)
    requires b in Component(g, root) && a in g.nodes && Adjacent(g, a, b)
    ensures a in Component(g, root)
  {
    var walk :| IsWalk(g, root, walk) && walk[|walk| - 1] == b;
    assert IsWalk(g, root, walk + [a]);
  }

  /** No survivor of the deletion has a deleted stored parent or a deleted child. */
  lemma SurvivorsHaveNoDeletedKin(g: Graph, root: Id, a: Id, b: Id)
    requires g.Valid()
    requires a in g.nodes && a !in Component(g, root)
    requires Adjacent(g, a, b)
    ensures b !in Component(g, root)
  {
    if b in Component(g, root) {
      LinkedNeighbour(g, root, a, b);
    }
  }

  /** Deleting from any member of a stored component takes the same sessions. */
  lemma ComponentOfMember(g: Graph, root: Id, other: Id)
    requires g.Valid()
    requires root in g.nodes && other in Component(g, root)
    ensures Component(g, other) == Component(g, root)
  {
    var walk :| IsWalk(g, root, walk) && walk[|walk| - 1] == other;
    var back := seq(|walk|, i requires 0 <= i < |walk| => walk[|walk| - 1 - i]);
    forall i | 0 <= i < |back| - 1 ensures Adjacent(g, back[i], back[i + 1]) {
      assert Adjacent(g, walk[|walk| - 2 - i], walk[|walk| - 1 - i]);
    }
    assert IsWalk(g, other, back);
    forall x ensures x in Component(g, other) <==> x in Component(g, root) {
      if x in Component(g, root) {
        var there :| IsWalk(g, root, there) && there[|there| - 1] == x;
        assert IsWalk(g, other, back + there[1..]);
        assert (back + there[1..])[|back + there[1..]| - 1] == x;
      }
      if x in Component(g, other) {
        var there :| IsWalk(g, other, there) && there[|there| - 1] == x;
        assert IsWalk(g, root, walk + there[1..]);
        assert (walk + there[1..])[|walk + there[1..]| - 1] == x;
      }
    }
  }
}
