// Which incidents must be locked and rechecked together so that a payload row can be emptied.

module CleanupUnits {
  import opened Connectivity
  import opened MergeGraph
  import UF = UnionFind

  /** A present payload row and the incidents it belongs to. */
  datatype Row = Row(key: nat, incidents: seq<Id>)

  /** One transaction's worth of work: incidents to lock and the rows to clean. */
  datatype Unit = Unit(members: set<Id>, rows: seq<Row>)

  ghost predicate Attributed(groups: map<Id, set<Id>>, rows: seq<Row>) {
    forall k {:trigger rows[k]} :: 0 <= k < |rows| ==>
      rows[k].incidents != [] && forall i {:trigger i in rows[k].incidents} :: i in rows[k].incidents ==> i in groups
  }

  // ------------------------------------------------ what may put two incidents together

  /** Both own the row, or both belong to the merge group of one of its owners. */
  ghost predicate RowRelates(groups: map<Id, set<Id>>, row: Row, a: Id, b: Id) {
    || (a in row.incidents && b in row.incidents)
    || exists i :: i in row.incidents && i in groups && a in groups[i] && b in groups[i]
  }

  ghost predicate Related(groups: map<Id, set<Id>>, rows: seq<Row>, a: Id, b: Id) {
    exists k :: 0 <= k < |rows| && RowRelates(groups, rows[k], a, b)
  }

  ghost function Relation(groups: map<Id, set<Id>>, rows: seq<Row>): set<Edge> {
    set a, b | a in groups && b in groups && Related(groups, rows, a, b) :: (a, b)
  }

  /** Everything one row pulls into the unit of its first owner. */
  ghost predicate Pulls(groups: map<Id, set<Id>>, row: Row, x: Id) {
    exists i :: i in row.incidents && i in groups && x in groups[i]
  }

  lemma {:induction false} PulledIsConnected(groups: map<Id, set<Id>>, rows: seq<Row>, k: nat, x: Id)
    requires Partitions(groups) && Attributed(groups, rows) && k < |rows| && Pulls(groups, rows[k], x)
    ensures Connected(Relation(groups, rows), rows[k].incidents[0], x)
  {
    var first := rows[k].incidents[0];
    var i :| i in rows[k].incidents && i in groups && x in groups[i];
    assert RowRelates(groups, rows[k], first, i) && RowRelates(groups, rows[k], i, x);
    assert Related(groups, rows, first, i) && Related(groups, rows, i, x);
    assert first in groups && x in groups;
    assert (first, i) in Relation(groups, rows) && (i, x) in Relation(groups, rows);
    ConnectedEdge(Relation(groups, rows), first, i);
    ConnectedEdge(Relation(groups, rows), i, x);
    ConnectedTrans(Relation(groups, rows), first, i, x);
  }

  /** The edges drawn while walking the rows: sound for the relation, and complete for the rows walked. */
  ghost predicate Drawn(groups: map<Id, set<Id>>, rows: seq<Row>, done: nat, edges: set<Edge>)
    requires done <= |rows|
  {
    && (forall e {:trigger e in edges} :: e in edges ==>
          exists k :: 0 <= k < |rows| && FromRow(groups, rows[k], e))
    && (forall k: nat, x: Id {:trigger Pulls(groups, rows[k], x)} ::
          0 <= k < done && rows[k].incidents != [] && Pulls(groups, rows[k], x) ==>
          (rows[k].incidents[0], x) in edges)
  }

  ghost predicate FromRow(groups: map<Id, set<Id>>, row: Row, e: Edge) {
    row.incidents != [] && e.0 == row.incidents[0] && Pulls(groups, row, e.1)
  }

  lemma {:induction false} DrawnIsRelation(groups: map<Id, set<Id>>, rows: seq<Row>, edges: set<Edge>, a: Id, b: Id)
    requires Partitions(groups) && Attributed(groups, rows) && Drawn(groups, rows, |rows|, edges)
    ensures Connected(edges, a, b) <==> Connected(Relation(groups, rows), a, b)
  {
    var relation := Relation(groups, rows);
    forall e | e in edges ensures Connected(relation, e.0, e.1) {
      var k :| 0 <= k < |rows| && FromRow(groups, rows[k], e);
      PulledIsConnected(groups, rows, k, e.1);
    }
    forall e | e in relation ensures Connected(edges, e.0, e.1) {
      var k :| 0 <= k < |rows| && RowRelates(groups, rows[k], e.0, e.1);
      RelatedIsDrawn(groups, rows, edges, k, e.0, e.1);
    }
    if Connected(edges, a, b) { ConnectedThrough(edges, relation, a, b); }
    if Connected(relation, a, b) { ConnectedThrough(relation, edges, a, b); }
  }

  lemma {:induction false} RelatedIsDrawn(groups: map<Id, set<Id>>, rows: seq<Row>, edges: set<Edge>, k: nat, a: Id, b: Id)
    requires Partitions(groups) && Attributed(groups, rows) && Drawn(groups, rows, |rows|, edges)
    requires k < |rows| && RowRelates(groups, rows[k], a, b)
    ensures Connected(edges, a, b)
  {
    var first := rows[k].incidents[0];
    assert Pulls(groups, rows[k], a) && Pulls(groups, rows[k], b);
    assert (first, a) in edges && (first, b) in edges;
    ConnectedEdge(edges, a, first);
    ConnectedEdge(edges, first, b);
    ConnectedTrans(edges, a, first, b);
  }

  // ------------------------------------------------ drawing the edges

  /** `after` is `before` with an edge from `first` to every member of `group` not in `todo`, and no others. */
  ghost predicate Star(before: set<Edge>, after: set<Edge>, first: Id, group: set<Id>, todo: set<Id>) {
    && before <= after
    && (forall x {:trigger x in group} :: x in group && x !in todo ==> (first, x) in after)
    && (forall e {:trigger e in after} :: e in after && e !in before ==> e.0 == first && e.1 in group)
  }

  lemma {:induction false} StarStep(before: set<Edge>, after: set<Edge>, first: Id, group: set<Id>, todo: set<Id>, m: Id)
    requires Star(before, after, first, group, todo) && m in group
    ensures Star(before, after + {(first, m)}, first, group, todo - {m})
  {
  }

  /** `union(first, i)` and `union(first, m)` for every member of `i`'s group. */
  method Join(sets: UF.Sets, first: Id, i: Id, groups: map<Id, set<Id>>)
    requires sets.Valid() && i in groups && i in groups[i]
    modifies sets
    ensures sets.Valid() && Star(old(sets.edges), sets.edges, first, groups[i], {})
  {
    var group := groups[i];
    StarStep(sets.edges, sets.edges, first, group, group, i);
    sets.Union(first, i);
    var todo := group;
    while todo != {}
      invariant sets.Valid() && todo <= group && Star(old(sets.edges), sets.edges, first, group, todo)
      modifies sets
      decreases todo
    {
      var m :| m in todo;
      StarStep(old(sets.edges), sets.edges, first, group, todo, m);
      sets.Union(first, m);
      todo := todo - {m};
    }
  }

  /** New edges all leave the row's first owner for incidents the row pulls. */
  ghost predicate OnlyFromRow(before: set<Edge>, after: set<Edge>, groups: map<Id, set<Id>>, row: Row) {
    && before <= after
    && forall e {:trigger e in after} :: e in after && e !in before ==> FromRow(groups, row, e)
  }

  lemma {:induction false} PullsCovered(groups: map<Id, set<Id>>, row: Row, edges: set<Edge>, x: Id)
    requires row.incidents != [] && Pulls(groups, row, x) && forall i :: i in row.incidents ==> i in groups
    requires forall y {:trigger y in groups[row.incidents[0]]} ::
        y in groups[row.incidents[0]] ==> (row.incidents[0], y) in edges
    requires forall j, y {:trigger y in groups[row.incidents[j]]} ::
        1 <= j < |row.incidents| && y in groups[row.incidents[j]] ==> (row.incidents[0], y) in edges
    ensures (row.incidents[0], x) in edges
  {
  }

  ghost predicate GroupDrawn(start: set<Edge>, edges: set<Edge>, row: Row, groups: map<Id, set<Id>>, todo: set<Id>)
    requires row.incidents != [] && row.incidents[0] in groups
  {
    && OnlyFromRow(start, edges, groups, row)
    && forall x {:trigger x in groups[row.incidents[0]]} ::
         x in groups[row.incidents[0]] && x !in todo ==> (row.incidents[0], x) in edges
  }

  lemma {:induction false} GroupDrawnStep(start: set<Edge>, before: set<Edge>, edges: set<Edge>, row: Row, groups: map<Id, set<Id>>,
                                          todo: set<Id>, i: Id)
    requires Partitions(groups) && row.incidents != [] && row.incidents[0] in groups && i in groups[row.incidents[0]]
    requires GroupDrawn(start, before, row, groups, todo) && Star(before, edges, row.incidents[0], groups[i], {})
    ensures GroupDrawn(start, edges, row, groups, todo - {i})
  {
  }

  /** The first owner's own merge group. */
  method DrawGroup(sets: UF.Sets, row: Row, groups: map<Id, set<Id>>)
    requires sets.Valid() && Partitions(groups) && row.incidents != [] && row.incidents[0] in groups
    modifies sets
    ensures sets.Valid() && GroupDrawn(old(sets.edges), sets.edges, row, groups, {})
  {
    var first := row.incidents[0];
    var todo := groups[first];
    while todo != {}
      invariant sets.Valid() && todo <= groups[first] && GroupDrawn(old(sets.edges), sets.edges, row, groups, todo)
      modifies sets
      decreases todo
    {
      var i :| i in todo;
      ghost var before := sets.edges;
      Join(sets, first, i, groups);
      GroupDrawnStep(old(sets.edges), before, sets.edges, row, groups, todo, i);
      todo := todo - {i};
    }
  }

  /** The groups of the other owners. */
  method DrawOwners(sets: UF.Sets, row: Row, groups: map<Id, set<Id>>)
    requires sets.Valid() && Partitions(groups) && row.incidents != []
    requires forall i :: i in row.incidents ==> i in groups
    modifies sets
    ensures sets.Valid() && OnlyFromRow(old(sets.edges), sets.edges, groups, row)
    ensures forall j, x {:trigger x in groups[row.incidents[j]]} ::
        1 <= j < |row.incidents| && x in groups[row.incidents[j]] ==> (row.incidents[0], x) in sets.edges
  {
    for k := 1 to |row.incidents|
      invariant sets.Valid() && OnlyFromRow(old(sets.edges), sets.edges, groups, row)
      invariant forall j, x {:trigger x in groups[row.incidents[j]]} ::
          1 <= j < k && x in groups[row.incidents[j]] ==> (row.incidents[0], x) in sets.edges
      modifies sets
    {
      assert row.incidents[k] in row.incidents;
      Join(sets, row.incidents[0], row.incidents[k], groups);
    }
  }

  /** All the edges one row draws, starting from its first owner. */
  method DrawRow(sets: UF.Sets, row: Row, groups: map<Id, set<Id>>)
    requires sets.Valid() && Partitions(groups) && row.incidents != []
    requires forall i :: i in row.incidents ==> i in groups
    modifies sets
    ensures sets.Valid() && OnlyFromRow(old(sets.edges), sets.edges, groups, row)
    ensures forall x: Id {:trigger Pulls(groups, row, x)} :: Pulls(groups, row, x) ==> (row.incidents[0], x) in sets.edges
  {
    DrawGroup(sets, row, groups);
    DrawOwners(sets, row, groups);
    ghost var edges := sets.edges;
    forall x: Id | Pulls(groups, row, x) ensures (row.incidents[0], x) in edges {
      PullsCovered(groups, row, edges, x);
    }
  }

  method Draw(rows: seq<Row>, groups: map<Id, set<Id>>) returns (sets: UF.Sets)
    requires Partitions(groups) && Attributed(groups, rows)
    ensures fresh(sets) && sets.Valid() && Drawn(groups, rows, |rows|, sets.edges)
  {
    sets := new UF.Sets();
    for k := 0 to |rows|
      invariant sets.Valid() && Drawn(groups, rows, k, sets.edges)
      modifies sets
    {
      DrawRow(sets, rows[k], groups);
    }
  }

  // ------------------------------------------------ collecting the units

  /** The rows whose first owner is a member, in their order. */
  ghost function RowsOf(rows: seq<Row>, members: set<Id>): seq<Row> {
    if rows == [] then []
    else
      var last := rows[|rows| - 1];
      RowsOf(rows[..|rows| - 1], members)
      + if last.incidents != [] && last.incidents[0] in members then [last] else []
  }

  ghost predicate FirstsKnown(parent: map<Id, Id>, rows: seq<Row>) {
    forall k {:trigger rows[k]} :: 0 <= k < |rows| ==> rows[k].incidents != [] && rows[k].incidents[0] in parent
  }

  lemma {:induction false} DrawnFirsts(groups: map<Id, set<Id>>, rows: seq<Row>, edges: set<Edge>, parent: map<Id, Id>)
    requires Partitions(groups) && Attributed(groups, rows)
    requires Drawn(groups, rows, |rows|, edges) && Within(edges, parent.Keys)
    ensures FirstsKnown(parent, rows)
  {
    forall k | 0 <= k < |rows| ensures rows[k].incidents[0] in parent {
      var first := rows[k].incidents[0];
      assert first in rows[k].incidents && first in groups[first];
      assert Pulls(groups, rows[k], first);
      assert (first, first) in edges;
    }
  }

  /** Root -> the rows walked so far whose first owner has that root. */
  ghost predicate ByRoot(parent: map<Id, Id>, rows: seq<Row>, byRoot: map<Id, seq<Row>>)
    requires UF.Ordered(parent) && FirstsKnown(parent, rows)
  {
    RowsListed(parent, rows, byRoot.Keys) && EntriesAt(parent, rows, byRoot)
  }

  /** Each class listed so far, with exactly its rows. */
  ghost predicate EntriesAt(parent: map<Id, Id>, rows: seq<Row>, byRoot: map<Id, seq<Row>>)
    requires UF.Ordered(parent)
  {
    forall r {:trigger byRoot[r]} :: r in byRoot ==>
      r in parent && parent[r] == r && byRoot[r] == RowsOf(rows, UF.ClassOf(parent, r)) && byRoot[r] != []
  }

  /** Every row's class is listed. */
  ghost predicate RowsListed(parent: map<Id, Id>, rows: seq<Row>, roots: set<Id>)
    requires UF.Ordered(parent) && FirstsKnown(parent, rows)
  {
    forall k {:trigger rows[k]} :: 0 <= k < |rows| ==> UF.Root(parent, rows[k].incidents[0]) in roots
  }

  lemma {:induction false} EntriesStep(parent: map<Id, Id>, rows: seq<Row>, byRoot: map<Id, seq<Row>>, row: Row, root: Id)
    requires UF.Ordered(parent) && EntriesAt(parent, rows, byRoot)
    requires row.incidents != [] && row.incidents[0] in parent && root == UF.Root(parent, row.incidents[0])
    requires root !in byRoot ==> RowsOf(rows, UF.ClassOf(parent, row.incidents[0])) == []
    ensures EntriesAt(parent, rows + [row], byRoot[root := (if root in byRoot then byRoot[root] else []) + [row]])
  {
  }

  lemma {:induction false} ListedStep(parent: map<Id, Id>, rows: seq<Row>, roots: set<Id>, row: Row)
    requires UF.Ordered(parent) && FirstsKnown(parent, rows) && RowsListed(parent, rows, roots)
    requires row.incidents != [] && row.incidents[0] in parent
    ensures FirstsKnown(parent, rows + [row])
    ensures RowsListed(parent, rows + [row], roots + {UF.Root(parent, row.incidents[0])})
  {
  }

  /** A class that no walked row starts in has collected no row. */
  lemma {:induction false} NoRowsYet(parent: map<Id, Id>, rows: seq<Row>, r: Id)
    requires UF.Ordered(parent) && FirstsKnown(parent, rows) && r in parent
    requires forall k {:trigger rows[k]} :: 0 <= k < |rows| ==> UF.Root(parent, rows[k].incidents[0]) != UF.Root(parent, r)
    ensures RowsOf(rows, UF.ClassOf(parent, r)) == []
    decreases |rows|
  {
    if rows != [] {
      var shorter := rows[..|rows| - 1];
      forall k | 0 <= k < |shorter|
        ensures shorter[k].incidents != [] && shorter[k].incidents[0] in parent
        ensures UF.Root(parent, shorter[k].incidents[0]) != UF.Root(parent, r)
      {
        assert shorter[k] == rows[k];
      }
      NoRowsYet(parent, shorter, r);
    }
  }

  lemma {:induction false} CollectStep(parent: map<Id, Id>, rows: seq<Row>, byRoot: map<Id, seq<Row>>, row: Row, root: Id)
    requires UF.Ordered(parent) && FirstsKnown(parent, rows) && ByRoot(parent, rows, byRoot)
    requires row.incidents != [] && row.incidents[0] in parent && root == UF.Root(parent, row.incidents[0])
    ensures FirstsKnown(parent, rows + [row])
    ensures ByRoot(parent, rows + [row], byRoot[root := (if root in byRoot then byRoot[root] else []) + [row]])
  {
    if root !in byRoot { NoRowsYet(parent, rows, row.incidents[0]); }
    EntriesStep(parent, rows, byRoot, row, root);
    ListedStep(parent, rows, byRoot.Keys, row);
    assert byRoot[root := (if root in byRoot then byRoot[root] else []) + [row]].Keys == byRoot.Keys + {root};
  }

  method CollectRows(sets: UF.Sets, rows: seq<Row>) returns (byRoot: map<Id, seq<Row>>)
    requires sets.Valid() && FirstsKnown(sets.parent, rows)
    modifies sets`parent
    ensures sets.Valid() && sets.parent == old(sets.parent)
    ensures ByRoot(sets.parent, rows, byRoot)
  {
    ghost var parent := sets.parent;
    ghost var done: seq<Row> := [];
    byRoot := map[];
    for k := 0 to |rows|
      invariant sets.Valid() && sets.parent == parent && done == rows[..k]
      invariant FirstsKnown(parent, done) && ByRoot(parent, done, byRoot)
    {
      var root := sets.Find(rows[k].incidents[0]);
      CollectStep(parent, done, byRoot, rows[k], root);
      done := done + [rows[k]];
      byRoot := byRoot[root := (if root in byRoot then byRoot[root] else []) + [rows[k]]];
    }
    assert done == rows;
  }

  /** The least id of a non-empty set. */
  method LeastId(ids: set<Id>) returns (least: Id)
    requires ids != {}
    ensures least in ids && forall x :: x in ids ==> least <= x
  {
    least :| least in ids;
    var todo := ids - {least};
    while todo != {}
      invariant least in ids && todo <= ids
      invariant forall x :: x in ids && x !in todo ==> least <= x
      decreases todo
    {
      var x :| x in todo;
      if x < least { least := x; }
      todo := todo - {x};
    }
  }

  /** The units so far, one per root listed in ascending order. */
  ghost predicate UnitsAt(parent: map<Id, Id>, byRoot: map<Id, seq<Row>>, roots: seq<Id>, units: seq<Unit>)
    requires UF.Ordered(parent)
  {
    && |roots| == |units|
    && (forall i, j {:trigger roots[i], roots[j]} :: 0 <= i < j < |roots| ==> roots[i] < roots[j])
    && (forall k {:trigger units[k]} {:trigger roots[k]} :: 0 <= k < |roots| ==>
          roots[k] in byRoot && roots[k] in parent && parent[roots[k]] == roots[k]
          && units[k] == Unit(UF.ClassOf(parent, roots[k]), byRoot[roots[k]]))
  }

  lemma {:induction false} UnitsSnoc(parent: map<Id, Id>, byRoot: map<Id, seq<Row>>, roots: seq<Id>, units: seq<Unit>, r: Id)
    requires UF.Ordered(parent) && UnitsAt(parent, byRoot, roots, units)
    requires r in byRoot && r in parent && parent[r] == r && forall k :: 0 <= k < |roots| ==> roots[k] < r
    ensures UnitsAt(parent, byRoot, roots + [r], units + [Unit(UF.ClassOf(parent, r), byRoot[r])])
  {
  }

  ghost predicate ClassesAt(parent: map<Id, Id>, members: map<Id, set<Id>>, byRoot: map<Id, seq<Row>>)
    requires UF.Ordered(parent)
  {
    forall r {:trigger byRoot[r]} :: r in byRoot ==>
      r in parent && parent[r] == r && r in members && members[r] == UF.ClassOf(parent, r)
  }

  lemma {:induction false} RootsHaveClasses(parent: map<Id, Id>, rows: seq<Row>, members: map<Id, set<Id>>, byRoot: map<Id, seq<Row>>)
    requires UF.Ordered(parent) && UF.IsMembers(parent, members, parent.Keys)
    requires FirstsKnown(parent, rows) && ByRoot(parent, rows, byRoot)
    ensures ClassesAt(parent, members, byRoot)
  {
  }

  /** Lists the classes with their rows in ascending order of their roots. */
  method ListUnits(ghost parent: map<Id, Id>, members: map<Id, set<Id>>, byRoot: map<Id, seq<Row>>)
    returns (units: seq<Unit>, ghost roots: seq<Id>)
    requires UF.Ordered(parent) && ClassesAt(parent, members, byRoot)
    ensures UnitsAt(parent, byRoot, roots, units)
    ensures forall r :: r in byRoot ==> r in roots
  {
    units, roots := [], [];
    var todo := byRoot.Keys;
    while todo != {}
      invariant UnitsAt(parent, byRoot, roots, units) && todo <= byRoot.Keys
      invariant forall r {:trigger r in byRoot} :: r in byRoot ==> r in todo || r in roots
      invariant forall k, x {:trigger roots[k], x in todo} :: 0 <= k < |roots| && x in todo ==> roots[k] < x
      decreases todo
    {
      var r := LeastId(todo);
      var rows := byRoot[r];
      UnitsSnoc(parent, byRoot, roots, units, r);
      units := units + [Unit(members[r], rows)];
      roots := roots + [r];
      todo := todo - {r};
    }
  }

  // ------------------------------------------------ the units

  /** Every row starts in some unit. */
  ghost predicate Covers(rows: seq<Row>, units: seq<Unit>) {
    forall k {:trigger rows[k]} :: 0 <= k < |rows| ==> rows[k].incidents != [] && Located(units, rows[k].incidents[0])
  }

  ghost predicate Located(units: seq<Unit>, i: Id) {
    exists u :: 0 <= u < |units| && i in units[u].members
  }

  /** A unit holds exactly the rows that start in it, in their order, and at least one. */
  ghost predicate Contents(rows: seq<Row>, units: seq<Unit>) {
    forall u {:trigger units[u]} :: 0 <= u < |units| ==>
      units[u].rows != [] && units[u].rows == RowsOf(rows, units[u].members)
  }

  /** A unit is exactly one component of the relation. */
  ghost predicate Components(relation: set<Edge>, units: seq<Unit>) {
    forall u {:trigger units[u]} :: 0 <= u < |units| ==> IsComponent(relation, units[u].members)
  }

  ghost predicate IsComponent(edges: set<Edge>, members: set<Id>) {
    forall a: Id, b: Id {:trigger a in members, b in members} {:trigger a in members, Connected(edges, a, b)} ::
      a in members ==> (b in members <==> Connected(edges, a, b))
  }

  /** Units are disjoint and come in the order of their least members. */
  ghost predicate Apart(units: seq<Unit>) {
    forall u, v {:trigger units[u], units[v]} :: 0 <= u < v < |units| ==>
      units[u].members !! units[v].members && Below(units[u].members, units[v].members)
  }

  ghost predicate Below(lo: set<Id>, hi: set<Id>) {
    exists x :: x in lo && forall y :: y in hi ==> x < y
  }

  /** What `_units` delivers, stated over the relation alone. */
  ghost predicate IsUnits(groups: map<Id, set<Id>>, rows: seq<Row>, units: seq<Unit>) {
    Covers(rows, units) && Contents(rows, units) && Components(Relation(groups, rows), units) && Apart(units)
  }

  lemma {:induction false} UnitComponent(groups: map<Id, set<Id>>, rows: seq<Row>, parent: map<Id, Id>, edges: set<Edge>,
                                         r: Id, a: Id, b: Id)
    requires Partitions(groups) && Attributed(groups, rows) && Drawn(groups, rows, |rows|, edges)
    requires UF.Refines(parent, edges) && r in parent && a in UF.ClassOf(parent, r)
    ensures b in UF.ClassOf(parent, r) <==> Connected(Relation(groups, rows), a, b)
  {
    ClassIsComponent(parent, edges, r, a);
    ClassIsComponent(parent, edges, r, b);
    ComponentMate(edges, r, a, b);
    DrawnIsRelation(groups, rows, edges, a, b);
  }

  lemma {:induction false} RootsCover(rows: seq<Row>, parent: map<Id, Id>, byRoot: map<Id, seq<Row>>, roots: seq<Id>, units: seq<Unit>)
    requires UF.Ordered(parent) && FirstsKnown(parent, rows) && ByRoot(parent, rows, byRoot)
    requires UnitsAt(parent, byRoot, roots, units) && forall r :: r in byRoot ==> r in roots
    ensures Covers(rows, units) && Contents(rows, units)
  {
  }

  lemma {:induction false} RootsAreComponents(groups: map<Id, set<Id>>, rows: seq<Row>, parent: map<Id, Id>, edges: set<Edge>,
                                              byRoot: map<Id, seq<Row>>, roots: seq<Id>, units: seq<Unit>)
    requires Partitions(groups) && Attributed(groups, rows) && Drawn(groups, rows, |rows|, edges)
    requires UF.Refines(parent, edges) && UnitsAt(parent, byRoot, roots, units)
    ensures Components(Relation(groups, rows), units)
  {
    var relation := Relation(groups, rows);
    forall u | 0 <= u < |units| ensures IsComponent(relation, units[u].members) {
      var members := units[u].members;
      forall a: Id, b: Id | a in members ensures b in members <==> Connected(relation, a, b) {
        UnitComponent(groups, rows, parent, edges, roots[u], a, b);
      }
    }
  }

  lemma {:induction false} RootsApart(parent: map<Id, Id>, byRoot: map<Id, seq<Row>>, roots: seq<Id>, units: seq<Unit>)
    requires UF.Ordered(parent) && UnitsAt(parent, byRoot, roots, units)
    ensures Apart(units)
  {
    forall u, v | 0 <= u < v < |units|
      ensures units[u].members !! units[v].members && Below(units[u].members, units[v].members)
    {
      ClassesApart(parent, roots[u], roots[v]);
    }
  }

  lemma {:induction false} ClassesApart(parent: map<Id, Id>, lo: Id, hi: Id)
    requires UF.Ordered(parent) && lo in parent && hi in parent && parent[lo] == lo && parent[hi] == hi && lo < hi
    ensures UF.ClassOf(parent, lo) !! UF.ClassOf(parent, hi)
    ensures Below(UF.ClassOf(parent, lo), UF.ClassOf(parent, hi))
  {
    UF.RootIsFixed(parent, lo);
    UF.RootIsFixed(parent, hi);
    assert lo in UF.ClassOf(parent, lo);
  }

  /** `_units`: partitions the ready rows into the components of the relation. */
  method Units(groups: map<Id, set<Id>>, rows: seq<Row>) returns (units: seq<Unit>)
    requires Partitions(groups) && Attributed(groups, rows)
    ensures IsUnits(groups, rows, units)
  {
    var sets: UF.Sets := Draw(rows, groups);
    DrawnFirsts(groups, rows, sets.edges, sets.parent);
    var byRoot := CollectRows(sets, rows);
    var members := sets.Members();
    ghost var roots;
    RootsHaveClasses(sets.parent, rows, members, byRoot);
    units, roots := ListUnits(sets.parent, members, byRoot);
    RootsCover(rows, sets.parent, byRoot, roots, units);
    RootsAreComponents(groups, rows, sets.parent, sets.edges, byRoot, roots, units);
    RootsApart(sets.parent, byRoot, roots, units);
  }

  // ------------------------------------------------ what a unit guarantees

  ghost predicate SomeRowPulls(groups: map<Id, set<Id>>, rows: seq<Row>, x: Id) {
    exists k :: 0 <= k < |rows| && Pulls(groups, rows[k], x)
  }

  /** Nothing enters a unit that no row of the listing pulls in. */
  lemma {:induction false} MemberIsPulled(groups: map<Id, set<Id>>, rows: seq<Row>, units: seq<Unit>, u: nat, x: Id)
    requires Partitions(groups) && Attributed(groups, rows) && IsUnits(groups, rows, units)
    requires u < |units| && x in units[u].members
    ensures SomeRowPulls(groups, rows, x)
  {
    var members := units[u].members;
    assert units[u].rows == RowsOf(rows, members);
    var k := FirstRowOf(rows, members);
    var first := rows[k].incidents[0];
    assert IsComponent(Relation(groups, rows), members) && first in members;
    ReachedIsPulled(groups, rows, k, x);
  }

  lemma {:induction false} ReachedIsPulled(groups: map<Id, set<Id>>, rows: seq<Row>, k: nat, x: Id)
    requires Partitions(groups) && Attributed(groups, rows) && k < |rows|
    requires Connected(Relation(groups, rows), rows[k].incidents[0], x)
    ensures SomeRowPulls(groups, rows, x)
  {
    var relation := Relation(groups, rows);
    var pulled := iset y: Id | SomeRowPulls(groups, rows, y);
    var first := rows[k].incidents[0];
    assert first in rows[k].incidents && first in groups[first] && Pulls(groups, rows[k], first);
    forall a: Id, b: Id | a in pulled && Adjacent(relation, a, b) ensures b in pulled {
      AdjacentIsPulled(groups, rows, a, b);
    }
    ConnectedStays(relation, pulled, first, x);
  }

  lemma {:induction false} AdjacentIsPulled(groups: map<Id, set<Id>>, rows: seq<Row>, a: Id, b: Id)
    requires Partitions(groups) && Attributed(groups, rows) && Adjacent(Relation(groups, rows), a, b)
    ensures SomeRowPulls(groups, rows, b)
  {
  }

  ghost function FirstRowOf(rows: seq<Row>, members: set<Id>): (k: nat)
    requires RowsOf(rows, members) != []
    ensures k < |rows| && rows[k].incidents != [] && rows[k].incidents[0] in members
  {
    var n := |rows| - 1;
    if rows[n].incidents != [] && rows[n].incidents[0] in members then n
    else FirstRowOf(rows[..n], members)
  }

  lemma {:induction false} RowsOfContains(rows: seq<Row>, members: set<Id>, row: Row)
    requires row in RowsOf(rows, members)
    ensures row in rows && row.incidents != [] && row.incidents[0] in members
    decreases |rows|
  {
    var n := |rows| - 1;
    if row in RowsOf(rows[..n], members) {
      RowsOfContains(rows[..n], members, row);
    }
  }

  /** A unit holds every owner of its rows and the whole merge group of each of them. */
  lemma {:induction false} UnitHoldsOwners(groups: map<Id, set<Id>>, rows: seq<Row>, units: seq<Unit>, u: nat, row: Row, x: Id)
    requires Partitions(groups) && Attributed(groups, rows) && IsUnits(groups, rows, units)
    requires u < |units| && row in units[u].rows && Pulls(groups, row, x)
    ensures x in units[u].members
  {
    RowsOfContains(rows, units[u].members, row);
    var k :| 0 <= k < |rows| && rows[k] == row;
    PulledIsConnected(groups, rows, k, x);
  }

  /** A unit is closed under merge groups. */
  lemma {:induction false} UnitClosed(groups: map<Id, set<Id>>, rows: seq<Row>, units: seq<Unit>, u: nat, x: Id)
    requires Partitions(groups) && Attributed(groups, rows) && IsUnits(groups, rows, units)
    requires u < |units| && x in units[u].members
    ensures x in groups && groups[x] <= units[u].members
  {
    MemberIsPulled(groups, rows, units, u, x);
    var members := units[u].members;
    assert IsComponent(Relation(groups, rows), members);
    forall y | y in groups[x] ensures y in members {
      GroupMatesConnected(groups, rows, x, y);
    }
  }

  lemma {:induction false} GroupMatesConnected(groups: map<Id, set<Id>>, rows: seq<Row>, x: Id, y: Id)
    requires Partitions(groups) && SomeRowPulls(groups, rows, x) && x in groups && y in groups[x]
    ensures Connected(Relation(groups, rows), x, y)
  {
    var k :| 0 <= k < |rows| && Pulls(groups, rows[k], x);
    var i :| i in rows[k].incidents && i in groups && x in groups[i];
    assert RowRelates(groups, rows[k], x, y);
    assert Related(groups, rows, x, y) && (x, y) in Relation(groups, rows);
    ConnectedEdge(Relation(groups, rows), x, y);
  }

  /** Each row lies in exactly one unit. */
  lemma {:induction false} RowInOneUnit(groups: map<Id, set<Id>>, rows: seq<Row>, units: seq<Unit>, row: Row)
    requires Attributed(groups, rows) && IsUnits(groups, rows, units) && row in rows
    ensures exists u :: 0 <= u < |units| && row in units[u].rows
    ensures forall u, v :: 0 <= u < |units| && 0 <= v < |units| && row in units[u].rows && row in units[v].rows ==> u == v
  {
    var k :| 0 <= k < |rows| && rows[k] == row;
    var u :| 0 <= u < |units| && rows[k].incidents[0] in units[u].members;
    RowsOfKeeps(rows, units[u].members, k);
    assert row in units[u].rows;
    forall v, w | 0 <= v < |units| && 0 <= w < |units| && row in units[v].rows && row in units[w].rows ensures v == w {
      RowsOfContains(rows, units[v].members, row);
      RowsOfContains(rows, units[w].members, row);
    }
  }

  lemma {:induction false} RowsOfKeeps(rows: seq<Row>, members: set<Id>, k: nat)
    requires k < |rows| && rows[k].incidents != [] && rows[k].incidents[0] in members
    ensures rows[k] in RowsOf(rows, members)
    decreases |rows|
  {
    if k < |rows| - 1 {
      RowsOfKeeps(rows[..|rows| - 1], members, k);
    }
  }
}
