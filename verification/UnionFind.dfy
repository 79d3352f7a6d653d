// The union-find of the retention cleanup: a parent map whose roots are the smallest ids.

module UnionFind {
  import opened Connectivity

  /** Every parent is a known id and never exceeds its child, so walks to a root end. */
  ghost predicate Ordered(parent: map<Id, Id>) {
    forall x {:trigger parent[x]} :: x in parent ==> parent[x] in parent && parent[x] <= x
  }

  ghost function Root(parent: map<Id, Id>, x: Id): (r: Id)
    requires Ordered(parent) && x in parent
    ensures r in parent && parent[r] == r && r <= x
    decreases x
  {
    if parent[x] == x then x else Root(parent, parent[x])
  }

  /** The ids sharing `x`'s root. */
  ghost function ClassOf(parent: map<Id, Id>, x: Id): set<Id>
    requires Ordered(parent) && x in parent
  {
    set y | y in parent && Root(parent, y) == Root(parent, x)
  }

  ghost predicate Pair(a: Id, b: Id, lo: Id, hi: Id) {
    (a == lo && b == hi) || (a == hi && b == lo)
  }

  ghost predicate Agree(parent: map<Id, Id>, edges: set<Edge>, a: Id, b: Id)
    requires Ordered(parent) && a in parent && b in parent
  {
    Root(parent, a) == Root(parent, b) <==> Connected(edges, a, b)
  }

  /** Having the same root is exactly being connected by the edges united so far. */
  ghost predicate Refines(parent: map<Id, Id>, edges: set<Edge>) {
    && Ordered(parent)
    && Within(edges, parent.Keys)
    && forall a, b {:trigger Agree(parent, edges, a, b)} ::
         a in parent && b in parent ==> Agree(parent, edges, a, b)
  }

  lemma {:induction false} RootIsFixed(parent: map<Id, Id>, r: Id)
    requires Ordered(parent) && r in parent && parent[r] == r
    ensures Root(parent, r) == r
  {
  }

  /** Adding an unknown id as its own parent moves no root. */
  lemma {:induction false} RootAfterAdd(parent: map<Id, Id>, added: Id, x: Id)
    requires Ordered(parent) && added !in parent && x in parent
    ensures Ordered(parent[added := added])
    ensures Root(parent[added := added], x) == Root(parent, x)
    decreases x
  {
    if parent[x] != x {
      RootAfterAdd(parent, added, parent[x]);
    }
  }

  /** Hanging the larger of two roots under the smaller redirects exactly its class. */
  lemma {:induction false} RootAfterLink(parent: map<Id, Id>, lo: Id, hi: Id, x: Id)
    requires Ordered(parent) && x in parent
    requires lo in parent && hi in parent && parent[lo] == lo && parent[hi] == hi && lo < hi
    ensures Ordered(parent[hi := lo])
    ensures Root(parent[hi := lo], x) == if Root(parent, x) == hi then lo else Root(parent, x)
    decreases x
  {
    if parent[x] == x {
      RootIsFixed(parent, x);
    } else {
      RootAfterLink(parent, lo, hi, parent[x]);
    }
  }

  /** An id no edge touches is connected to itself alone. */
  lemma {:induction false} IsolatedAlone(edges: set<Edge>, ids: set<Id>, added: Id, x: Id)
    requires Within(edges, ids) && added !in ids
    ensures Connected(edges, added, x) <==> x == added
    ensures Connected(edges, x, added) <==> x == added
  {
    ConnectedRefl(edges, added);
    if Connected(edges, x, added) {
      ConnectedSym(edges, x, added);
    }
    if Connected(edges, added, x) {
      var p :| IsPath(edges, p, added, x);
      assert |p| > 1 ==> Adjacent(edges, p[0], p[1]);
    }
  }

  lemma {:induction false} RefinesAfterAdd(parent: map<Id, Id>, edges: set<Edge>, added: Id)
    requires Refines(parent, edges) && added !in parent
    ensures Refines(parent[added := added], edges)
  {
    var p' := parent[added := added];
    forall x | x in p' ensures Root(p', x) == if x == added then added else Root(parent, x) {
      if x == added { RootIsFixed(p', x); } else { RootAfterAdd(parent, added, x); }
    }
    forall a, b | a in p' && b in p' ensures Agree(p', edges, a, b) {
      IsolatedAlone(edges, parent.Keys, added, a);
      IsolatedAlone(edges, parent.Keys, added, b);
      assert a != added && b != added ==> Agree(parent, edges, a, b);
    }
  }

  /** One new edge: connected afterwards is connected before, or through the edge. */
  lemma {:induction false} ConnectedWithEdge(edges: set<Edge>, a: Id, b: Id, x: Id, y: Id)
    ensures Connected(edges + {(a, b)}, x, y) <==>
              || Connected(edges, x, y)
              || (Connected(edges, x, a) && Connected(edges, b, y))
              || (Connected(edges, x, b) && Connected(edges, a, y))
  {
    var more := edges + {(a, b)};
    if Connected(edges, x, y) { ConnectedMono(edges, more, x, y); }
    ConnectedEdge(more, a, b);
    ConnectedEdge(more, b, a);
    if Connected(edges, x, a) && Connected(edges, b, y) {
      ConnectedMono(edges, more, x, a); ConnectedMono(edges, more, b, y);
      ConnectedTrans(more, x, a, b); ConnectedTrans(more, x, b, y);
    }
    if Connected(edges, x, b) && Connected(edges, a, y) {
      ConnectedMono(edges, more, x, b); ConnectedMono(edges, more, a, y);
      ConnectedTrans(more, x, b, a); ConnectedTrans(more, x, a, y);
    }
    if Connected(more, x, y) {
      var p :| IsPath(more, p, x, y);
      PathWithEdge(edges, a, b, p, x, y);
    }
  }

  lemma {:induction false} PathWithEdge(edges: set<Edge>, a: Id, b: Id, p: seq<Id>, x: Id, y: Id)
    requires IsPath(edges + {(a, b)}, p, x, y)
    ensures || Connected(edges, x, y)
            || (Connected(edges, x, a) && Connected(edges, b, y))
            || (Connected(edges, x, b) && Connected(edges, a, y))
    decreases |p|
  {
    ConnectedRefl(edges, x);
    if |p| > 1 {
      var z := p[1];
      assert Adjacent(edges + {(a, b)}, p[0], p[1]);
      PathWithEdge(edges, a, b, p[1..], z, y);
      if Adjacent(edges, x, z) {
        ConnectedEdge(edges, x, z);
        if Connected(edges, z, y) { ConnectedTrans(edges, x, z, y); }
        if Connected(edges, z, a) { ConnectedTrans(edges, x, z, a); }
        if Connected(edges, z, b) { ConnectedTrans(edges, x, z, b); }
      } else {
        assert (x == a && z == b) || (x == b && z == a);
      }
    }
  }

  lemma {:induction false} AgreeAfterLink(parent: map<Id, Id>, edges: set<Edge>, a: Id, b: Id, lo: Id, hi: Id, x: Id, y: Id)
    requires Refines(parent, edges) && a in parent && b in parent && x in parent && y in parent
    requires lo < hi && Pair(Root(parent, a), Root(parent, b), lo, hi)
    ensures Ordered(parent[hi := lo]) && Agree(parent[hi := lo], edges + {(a, b)}, x, y)
  {
    RootAfterLink(parent, lo, hi, x);
    RootAfterLink(parent, lo, hi, y);
    ConnectedWithEdge(edges, a, b, x, y);
    assert Agree(parent, edges, x, y) && Agree(parent, edges, x, a) && Agree(parent, edges, b, y);
    assert Agree(parent, edges, x, b) && Agree(parent, edges, a, y);
  }

  lemma {:induction false} AgreeAfterLoop(parent: map<Id, Id>, edges: set<Edge>, a: Id, b: Id, x: Id, y: Id)
    requires Refines(parent, edges) && a in parent && b in parent && x in parent && y in parent
    requires Root(parent, a) == Root(parent, b)
    ensures Agree(parent, edges + {(a, b)}, x, y)
  {
    ConnectedWithEdge(edges, a, b, x, y);
    assert Agree(parent, edges, x, y) && Agree(parent, edges, x, a) && Agree(parent, edges, b, y);
    assert Agree(parent, edges, x, b) && Agree(parent, edges, a, y);
  }

  lemma {:induction false} RefinesAfterLink(parent: map<Id, Id>, edges: set<Edge>, a: Id, b: Id, lo: Id, hi: Id)
    requires Refines(parent, edges) && a in parent && b in parent
    requires lo < hi && Pair(Root(parent, a), Root(parent, b), lo, hi)
    ensures Refines(parent[hi := lo], edges + {(a, b)})
  {
    var p' := parent[hi := lo];
    AgreeAfterLink(parent, edges, a, b, lo, hi, a, b);
    forall x, y | x in p' && y in p' ensures Agree(p', edges + {(a, b)}, x, y) {
      AgreeAfterLink(parent, edges, a, b, lo, hi, x, y);
    }
  }

  lemma {:induction false} RefinesAfterLoop(parent: map<Id, Id>, edges: set<Edge>, a: Id, b: Id)
    requires Refines(parent, edges) && a in parent && b in parent
    requires Root(parent, a) == Root(parent, b)
    ensures Refines(parent, edges + {(a, b)})
  {
    forall x, y | x in parent && y in parent ensures Agree(parent, edges + {(a, b)}, x, y) {
      AgreeAfterLoop(parent, edges, a, b, x, y);
    }
  }

  /** `_Sets`: the parent dictionary, mutated in place by `Find` and `Union`. */
  class Sets {
    var parent: map<Id, Id>
    ghost var edges: set<Edge>  // everything united so far

    ghost predicate Valid() reads this { Refines(parent, edges) }

    constructor ()
      ensures Valid() && parent == map[] && edges == {}
    {
      parent, edges := map[], {};
    }

    /** `setdefault(x, x)`. */
    method Add(x: Id)
      requires Valid()
      modifies this`parent
      ensures Valid() && parent.Keys == old(parent).Keys + {x}
      ensures x in old(parent) ==> parent == old(parent)
    {
      if x !in parent {
        RefinesAfterAdd(parent, edges, x);
        parent := parent[x := x];
      }
    }

    /** The walk up the parents. */
    method Climb(x: Id) returns (root: Id)
      requires Valid() && x in parent
      ensures root == Root(parent, x)
    {
      root := x;
      while parent[root] != root
        invariant root in parent && Root(parent, root) == Root(parent, x)
        decreases root
      {
        root := parent[root];
      }
    }

    method Find(x: Id) returns (root: Id)
      requires Valid()
      modifies this`parent
      ensures Valid() && parent.Keys == old(parent).Keys + {x}
      ensures x in old(parent) ==> parent == old(parent)
      ensures root == Root(parent, x)
    {
      Add(x);
      root := Climb(x);
    }

    method Union(a: Id, b: Id)
      requires Valid()
      modifies this
      ensures Valid()
      ensures edges == old(edges) + {(a, b)}
      ensures parent.Keys == old(parent).Keys + {a} + {b}
    {
      Add(a);
      Add(b);
      UniteKnown(a, b);
    }

    /** Links the two roots, the larger under the smaller. */
    method UniteKnown(a: Id, b: Id)
      requires Valid() && a in parent && b in parent
      modifies this
      ensures Valid() && edges == old(edges) + {(a, b)} && parent.Keys == old(parent).Keys
    {
      var ra := Climb(a);
      var rb := Climb(b);
      if ra == rb {
        RefinesAfterLoop(parent, edges, a, b);
        edges := edges + {(a, b)};
      } else {
        Hang(if ra < rb then ra else rb, if ra < rb then rb else ra, a, b);
      }
    }

    /** `parent[hi] = lo`, recording the edge that united the two roots. */
    method Hang(lo: Id, hi: Id, ghost a: Id, ghost b: Id)
      requires Valid() && a in parent && b in parent
      requires lo < hi && Pair(Root(parent, a), Root(parent, b), lo, hi)
      modifies this
      ensures Valid()
      ensures edges == old(edges) + {(a, b)} && parent == old(parent)[hi := lo]
      ensures parent.Keys == old(parent).Keys
    {
      RefinesAfterLink(parent, edges, a, b, lo, hi);
      parent := parent[hi := lo];
      edges := edges + {(a, b)};
    }

    /** Root -> the ids of its set, for every set. */
    method Members() returns (out: map<Id, set<Id>>)
      requires Valid()
      modifies this`parent
      ensures Valid() && parent == old(parent)
      ensures IsMembers(parent, out, parent.Keys)
    {
      out := map[];
      var todo := parent.Keys;
      while todo != {}
        invariant Valid() && parent == old(parent) && todo <= parent.Keys
        invariant IsMembers(parent, out, parent.Keys - todo)
        decreases todo
      {
        var x :| x in todo;
        var r := Find(x);
        MembersStep(parent, out, parent.Keys - todo, x);
        out := out[r := (if r in out then out[r] else {}) + {x}];
        assert parent.Keys - (todo - {x}) == parent.Keys - todo + {x};
        todo := todo - {x};
      }
      assert parent.Keys - todo == parent.Keys;
    }
  }

  /** `out` maps each root of the ids in `seen` to exactly the seen ids with that root. */
  ghost predicate IsMembers(parent: map<Id, Id>, out: map<Id, set<Id>>, seen: set<Id>)
    requires Ordered(parent) && seen <= parent.Keys
  {
    && (forall x {:trigger Root(parent, x)} :: x in seen ==> Root(parent, x) in out && x in out[Root(parent, x)])
    && (forall r, x {:trigger x in out[r]} :: r in out && x in out[r] ==> x in seen && Root(parent, x) == r)
    && (forall r {:trigger out[r]} :: r in out ==> out[r] != {})
  }

  lemma {:induction false} MembersStep(parent: map<Id, Id>, out: map<Id, set<Id>>, seen: set<Id>, x: Id)
    requires Ordered(parent) && seen <= parent.Keys && x in parent && IsMembers(parent, out, seen)
    ensures var r := Root(parent, x);
            IsMembers(parent, out[r := (if r in out then out[r] else {}) + {x}], seen + {x})
  {
    var r := Root(parent, x);
    var out' := out[r := (if r in out then out[r] else {}) + {x}];
    forall y | y in seen + {x} ensures Root(parent, y) in out' && y in out'[Root(parent, y)] { }
  }

  /** The set listed for an id's root is its class. */
  lemma {:induction false} MembersAreClasses(parent: map<Id, Id>, out: map<Id, set<Id>>, x: Id)
    requires Ordered(parent) && IsMembers(parent, out, parent.Keys) && x in parent
    ensures Root(parent, x) in out && out[Root(parent, x)] == ClassOf(parent, x)
  {
  }
}
