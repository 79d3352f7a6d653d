// Undirected connectivity: the reference relation the union-find is measured against.

/** Incident ids are UUIDs ordered by their string form. That order is total and agrees with
    the numeric value of the id, so a natural number stands for an id. */
module Connectivity {

  type Id = nat
  type Edge = (Id, Id)

  ghost predicate Adjacent(edges: set<Edge>, a: Id, b: Id) {
    (a, b) in edges || (b, a) in edges
  }

  ghost predicate IsPath(edges: set<Edge>, p: seq<Id>, a: Id, b: Id) {
    && |p| > 0
    && p[0] == a
    && p[|p| - 1] == b
    && forall i :: 0 <= i < |p| - 1 ==> Adjacent(edges, p[i], p[i + 1])
  }

  /** Some walk along the edges, in either direction, leads from `a` to `b`. */
  ghost predicate Connected(edges: set<Edge>, a: Id, b: Id) {
    exists p :: IsPath(edges, p, a, b)
  }

  ghost predicate Within(edges: set<Edge>, ids: set<Id>) {
    forall e {:trigger e in edges} :: e in edges ==> e.0 in ids && e.1 in ids
  }

  lemma ConnectedRefl(edges: set<Edge>, a: Id)
    ensures Connected(edges, a, a)
  {
    assert IsPath(edges, [a], a, a);
  }

  lemma ConnectedEdge(edges: set<Edge>, a: Id, b: Id)
    requires Adjacent(edges, a, b)
    ensures Connected(edges, a, b)
  {
    assert IsPath(edges, [a, b], a, b);
  }

  lemma ConnectedTrans(edges: set<Edge>, a: Id, b: Id, c: Id)
    requires Connected(edges, a, b) && Connected(edges, b, c)
    ensures Connected(edges, a, c)
  {
    var p :| IsPath(edges, p, a, b);
    var q :| IsPath(edges, q, b, c);
    var r := p + q[1..];
    assert IsPath(edges, r, a, c);
  }

  lemma ConnectedSym(edges: set<Edge>, a: Id, b: Id)
    requires Connected(edges, a, b)
    ensures Connected(edges, b, a)
  {
    var p :| IsPath(edges, p, a, b);
    var r := seq(|p|, i requires 0 <= i < |p| => p[|p| - 1 - i]);
    forall i | 0 <= i < |r| - 1 ensures Adjacent(edges, r[i], r[i + 1]) {
      assert Adjacent(edges, p[|p| - 2 - i], p[|p| - 2 - i + 1]);
    }
    assert IsPath(edges, r, b, a);
  }

  lemma ConnectedMono(edges: set<Edge>, more: set<Edge>, a: Id, b: Id)
    requires edges <= more
    requires Connected(edges, a, b)
    ensures Connected(more, a, b)
  {
    var p :| IsPath(edges, p, a, b);
    assert IsPath(more, p, a, b);
  }

  /** Replacing every edge by a walk in another graph keeps everything connected. */
  lemma {:induction false} ConnectedThrough(edges: set<Edge>, other: set<Edge>, a: Id, b: Id)
    requires forall e :: e in edges ==> Connected(other, e.0, e.1)
    requires Connected(edges, a, b)
    ensures Connected(other, a, b)
  {
    var p :| IsPath(edges, p, a, b);
    PathThrough(edges, other, p, a, b);
  }

  lemma {:induction false} PathThrough(edges: set<Edge>, other: set<Edge>, p: seq<Id>, a: Id, b: Id)
    requires forall e :: e in edges ==> Connected(other, e.0, e.1)
    requires IsPath(edges, p, a, b)
    ensures Connected(other, a, b)
    decreases |p|
  {
    if |p| == 1 {
      ConnectedRefl(other, a);
    } else {
      assert Adjacent(edges, p[0], p[1]);
      if (p[0], p[1]) in edges {
        assert Connected(other, (p[0], p[1]).0, (p[0], p[1]).1);
      } else {
        assert Connected(other, (p[1], p[0]).0, (p[1], p[0]).1);
        ConnectedSym(other, p[1], p[0]);
      }
      PathThrough(edges, other, p[1..], p[1], b);
      ConnectedTrans(other, a, p[1], b);
    }
  }

  /** A set closed under adjacency is never left by a walk. */
  lemma {:induction false} ConnectedStays(edges: set<Edge>, s: iset<Id>, a: Id, b: Id)
    requires forall x, y :: x in s && Adjacent(edges, x, y) ==> y in s
    requires a in s && Connected(edges, a, b)
    ensures b in s
  {
    var p :| IsPath(edges, p, a, b);
    PathStays(edges, s, p, a, b);
  }

  lemma {:induction false} PathStays(edges: set<Edge>, s: iset<Id>, p: seq<Id>, a: Id, b: Id)
    requires forall x, y :: x in s && Adjacent(edges, x, y) ==> y in s
    requires a in s && IsPath(edges, p, a, b)
    ensures b in s
    decreases |p|
  {
    if |p| > 1 {
      assert Adjacent(edges, p[0], p[1]);
      PathStays(edges, s, p[1..], p[1], b);
    }
  }
}
