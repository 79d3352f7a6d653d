// Merge groups: the components of the undirected merge-pointer graph.

module MergeGraph {
  import opened Connectivity
  import UF = UnionFind

  ghost predicate Reached(wanted: set<Id>, edges: set<Edge>, m: Id) {
    exists i :: i in wanted && Connected(edges, i, m)
  }

  /** Exactly the incidents connected to a wanted one are keys, each with its whole component. */
  ghost predicate IsGroups(wanted: set<Id>, edges: set<Edge>, groups: map<Id, set<Id>>) {
    && (forall m {:trigger Reached(wanted, edges, m)} :: m in groups <==> Reached(wanted, edges, m))
    && (forall m, x {:trigger x in groups[m]} :: m in groups ==> (x in groups[m] <==> Connected(edges, m, x)))
  }

  /** The groups partition the known incidents. */
  ghost predicate Partitions(groups: map<Id, set<Id>>) {
    && (forall m {:trigger groups[m]} :: m in groups ==> m in groups[m])
    && (forall m, x {:trigger x in groups[m]} :: m in groups && x in groups[m] ==> x in groups && groups[x] == groups[m])
  }

  lemma {:induction false} GroupMate(wanted: set<Id>, edges: set<Edge>, groups: map<Id, set<Id>>, m: Id, x: Id)
    requires IsGroups(wanted, edges, groups) && m in groups && Connected(edges, m, x)
    ensures x in groups && groups[x] == groups[m]
  {
    assert Reached(wanted, edges, m);
    var i :| i in wanted && Connected(edges, i, m);
    ConnectedTrans(edges, i, m, x);
    ConnectedSym(edges, m, x);
    assert Reached(wanted, edges, x);
    forall y ensures y in groups[x] <==> y in groups[m] {
      if Connected(edges, x, y) { ConnectedTrans(edges, m, x, y); }
      if Connected(edges, m, y) { ConnectedTrans(edges, x, m, y); }
    }
  }

  lemma {:induction false} GroupsPartition(wanted: set<Id>, edges: set<Edge>, groups: map<Id, set<Id>>)
    requires IsGroups(wanted, edges, groups)
    ensures wanted <= groups.Keys && Partitions(groups)
  {
    forall i | i in wanted ensures i in groups {
      ConnectedRefl(edges, i);
      assert Reached(wanted, edges, i);
    }
    forall m | m in groups ensures m in groups[m] {
      ConnectedRefl(edges, m);
    }
    forall m, x | m in groups && x in groups[m] ensures x in groups && groups[x] == groups[m] {
      assert Connected(edges, m, x);
      GroupMate(wanted, edges, groups, m, x);
    }
  }

  /** A class of the union-find is a connected component of its edges. */
  lemma {:induction false} ClassIsComponent(parent: map<Id, Id>, edges: set<Edge>, m: Id, x: Id)
    requires UF.Refines(parent, edges) && m in parent
    ensures x in UF.ClassOf(parent, m) <==> Connected(edges, m, x)
  {
    if Connected(edges, m, x) {
      var known := iset y | y in parent;
      ConnectedStays(edges, known, m, x);
    }
    if x in parent {
      assert UF.Agree(parent, edges, m, x);
    }
  }

  /** Makes every wanted incident known, then follows every pointer. */
  method UnitePointers(wanted: set<Id>, pointers: set<Edge>) returns (sets: UF.Sets)
    ensures fresh(sets) && sets.Valid() && sets.edges == pointers && wanted <= sets.parent.Keys
  {
    sets := new UF.Sets();
    var todo := wanted;
    while todo != {}
      invariant sets.Valid() && sets.edges == {} && todo <= wanted && wanted - todo <= sets.parent.Keys
      modifies sets
      decreases todo
    {
      var i :| i in todo;
      var _ := sets.Find(i);
      todo := todo - {i};
    }
    var rest := pointers;
    while rest != {}
      invariant sets.Valid() && rest <= pointers && wanted <= sets.parent.Keys
      invariant sets.edges == pointers - rest
      modifies sets
      decreases rest
    {
      var p :| p in rest;
      sets.Union(p.0, p.1);
      rest := rest - {p};
    }
  }

  /** `_merge_groups`: the components, along the merge pointers, of the wanted incidents. */
  method MergeGroups(wanted: set<Id>, pointers: set<Edge>) returns (groups: map<Id, set<Id>>)
    ensures IsGroups(wanted, pointers, groups)
  {
    var sets: UF.Sets := UnitePointers(wanted, pointers);
    var members := sets.Members();
    ghost var parent := sets.parent;
    groups := map[];
    var todo := wanted;
    while todo != {}
      invariant sets.Valid() && sets.parent == parent && todo <= wanted
      invariant IsGroups(wanted - todo, pointers, groups)
      modifies sets`parent
      decreases todo
    {
      var i :| i in todo;
      var root := sets.Find(i);
      MembersAreComponents(parent, pointers, members, i);
      GroupsStep(pointers, groups, wanted - todo, i, members[root]);
      groups := WithGroup(groups, members[root]);
      assert wanted - (todo - {i}) == (wanted - todo) + {i};
      todo := todo - {i};
    }
    assert wanted - todo == wanted;
  }

  lemma {:induction false} MembersAreComponents(parent: map<Id, Id>, edges: set<Edge>, members: map<Id, set<Id>>, i: Id)
    requires UF.Refines(parent, edges) && UF.IsMembers(parent, members, parent.Keys) && i in parent
    ensures UF.Root(parent, i) in members
    ensures forall x {:trigger x in members[UF.Root(parent, i)]} :: x in members[UF.Root(parent, i)] <==> Connected(edges, i, x)
  {
    UF.MembersAreClasses(parent, members, i);
    forall x ensures x in UF.ClassOf(parent, i) <==> Connected(edges, i, x) {
      ClassIsComponent(parent, edges, i, x);
    }
  }

  /** Each member of `group` mapped to it. */
  function WithGroup(groups: map<Id, set<Id>>, group: set<Id>): map<Id, set<Id>> {
    groups + map m | m in group :: group
  }

  lemma {:induction false} GroupsStep(edges: set<Edge>, groups: map<Id, set<Id>>, seen: set<Id>, i: Id, c: set<Id>)
    requires IsGroups(seen, edges, groups)
    requires forall x {:trigger x in c} :: x in c <==> Connected(edges, i, x)
    ensures IsGroups(seen + {i}, edges, WithGroup(groups, c))
  {
    var g := WithGroup(groups, c);
    forall m ensures m in g <==> Reached(seen + {i}, edges, m) {
      if m in c { assert i in seen + {i} && Connected(edges, i, m); }
      if Reached(seen, edges, m) {
        var j :| j in seen && Connected(edges, j, m);
        assert j in seen + {i};
      }
    }
    forall m, x | m in g ensures x in g[m] <==> Connected(edges, m, x) {
      if m in c { ComponentMate(edges, i, m, x); }
    }
  }

  lemma {:induction false} ComponentMate(edges: set<Edge>, i: Id, m: Id, x: Id)
    requires Connected(edges, i, m)
    ensures Connected(edges, i, x) <==> Connected(edges, m, x)
  {
    ConnectedSym(edges, i, m);
    if Connected(edges, i, x) { ConnectedTrans(edges, m, i, x); }
    if Connected(edges, m, x) { ConnectedTrans(edges, i, m, x); }
  }
}
