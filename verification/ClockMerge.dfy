// Recovery actions merged in event time: rows of the database clock, and queries of the Observer's.

module ClockMerge {
  import opened Outcomes

  datatype Kind = Control | Query | Persist | Ending

  /** `at` in microseconds. An observer event carries the Observer's own clock. */
  datatype Event = Event(at: Option<int>, position: nat, kind: Kind, observer: bool)

  const ORDER_SKEW: int := 60_000_000

  /** A row with the time it is sorted by. */
  datatype Item = Item(at: Option<int>, position: nat, index: nat)

  /** Rows without any time first, then by time, then by record position. */
  predicate Le(a: Item, b: Item) {
    match (a.at, b.at)
    case (None, None) => a.position <= b.position
    case (None, Some(_)) => true
    case (Some(_), None) => false
    case (Some(x), Some(y)) => x < y || (x == y && a.position <= b.position)
  }

  /** What `_actions` builds: queries are timed, record positions differ. */
  predicate WellFormed(events: seq<Event>) {
    && (forall i {:trigger events[i]} :: 0 <= i < |events| && events[i].observer ==> events[i].at.Some?)
    && (forall i, j {:trigger events[i], events[j]} :: 0 <= i < j < |events| ==> events[i].position != events[j].position)
  }

  /** A row's own time, or that of the last timed row of the database clock before it. */
  function Inherited(events: seq<Event>, i: nat): Option<int>
    requires i <= |events|
  {
    if i == 0 then None
    else if !events[i - 1].observer && events[i - 1].at.Some? then events[i - 1].at
    else Inherited(events, i - 1)
  }

  function ItemOf(events: seq<Event>, i: nat): Item
    requires i < |events|
  {
    Item(if events[i].observer then events[i].at else Inherited(events, i + 1), events[i].position, i)
  }

  // ------------------------------------------------ where a query belongs

  /** The row stands before the query: by its time outside the band, by its position inside. */
  predicate Precedes(e: Item, q: Item)
    requires q.at.Some?
  {
    if e.at.None? then e.position < q.position
    else if e.at.value < q.at.value - ORDER_SKEW then true
    else if e.at.value > q.at.value + ORDER_SKEW then false
    else e.position < q.position
  }

  predicate InBand(e: Item, q: Item)
    requires q.at.Some?
  {
    e.at.Some? && q.at.value - ORDER_SKEW <= e.at.value <= q.at.value + ORDER_SKEW
  }

  predicate IsRow(events: seq<Event>, i: nat) { i < |events| && !events[i].observer }

  predicate IsQuery(events: seq<Event>, i: nat) { i < |events| && events[i].observer && events[i].at.Some? }

  /** Some row that precedes the query is not before this one. */
  ghost predicate Reaches(events: seq<Event>, e: nat, q: nat)
    requires e < |events| && IsQuery(events, q)
  {
    exists x: nat :: IsRow(events, x) && Le(ItemOf(events, e), ItemOf(events, x)) && Precedes(ItemOf(events, x), ItemOf(events, q))
  }

  /** Query `q` is placed behind a row that query `p` is not placed behind. */
  ghost predicate ReachesFurther(events: seq<Event>, p: nat, q: nat)
    requires IsQuery(events, p) && IsQuery(events, q)
  {
    exists e: nat {:trigger IsRow(events, e)} :: IsRow(events, e) && Reaches(events, e, q) && !Reaches(events, e, p)
  }

  /** The order the merge is to have, without reference to how it is computed. */
  ghost predicate Comes(events: seq<Event>, a: nat, b: nat)
    requires WellFormed(events) && a < |events| && b < |events|
  {
    if !events[a].observer then
      if !events[b].observer then Le(ItemOf(events, a), ItemOf(events, b)) && a != b
      else Reaches(events, a, b)
    else if !events[b].observer then !Reaches(events, b, a)
    else
      || ReachesFurther(events, a, b)
      || (!ReachesFurther(events, b, a) && Le(ItemOf(events, a), ItemOf(events, b)) && a != b)
  }

  /** Row and query whose order the two clocks cannot tell. */
  ghost predicate Confused(events: seq<Event>, e: nat, q: nat)
    requires WellFormed(events)
  {
    && IsRow(events, e) && IsQuery(events, q) && events[e].kind in {Control, Ending} && events[e].at.Some?
    && InBand(ItemOf(events, e), ItemOf(events, q))
  }

  // ------------------------------------------------ what that order gives

  /** Rows of the database clock keep their own order; a query comes after every row over a skew
      earlier and before every row over a skew later, and inside the band after every row of a
      lower position. */
  lemma {:induction false} QueryIsPlaced(events: seq<Event>, e: nat, q: nat)
    requires WellFormed(events) && IsRow(events, e) && IsQuery(events, q)
    ensures var x, y := ItemOf(events, e), ItemOf(events, q);
            && (x.at.Some? && x.at.value < y.at.value - ORDER_SKEW ==> Comes(events, e, q))
            && (InBand(x, y) && x.position < y.position ==> Comes(events, e, q))
            && (x.at.None? && x.position < y.position ==> Comes(events, e, q))
            && (x.at.Some? && x.at.value > y.at.value + ORDER_SKEW ==> Comes(events, q, e) && !Comes(events, e, q))
  {
  }

  /** A query that is not earlier in time and later in position never overtakes another. */
  lemma {:induction false} QueriesKeepOrder(events: seq<Event>, p: nat, q: nat)
    requires WellFormed(events) && IsQuery(events, p) && IsQuery(events, q)
    requires events[p].at.value <= events[q].at.value && events[p].position < events[q].position
    ensures Comes(events, p, q)
  {
  }

  /** Two events never come before each other. */
  lemma {:induction false} ComesOneWay(events: seq<Event>, a: nat, b: nat)
    requires WellFormed(events) && a < |events| && b < |events|
    ensures !(Comes(events, a, b) && Comes(events, b, a))
  {
  }

  // ------------------------------------------------ rows without a time

  /** The last row before `i` with a time of its own. */
  ghost predicate LastTimed(events: seq<Event>, i: nat, j: nat) {
    && j < i <= |events| && IsRow(events, j) && events[j].at.Some?
    && forall k: nat {:trigger IsRow(events, k)} :: j < k < i && IsRow(events, k) ==> events[k].at.None?
  }

  lemma {:induction false} InheritedFrom(events: seq<Event>, i: nat, j: nat)
    requires LastTimed(events, i, j)
    ensures Inherited(events, i) == events[j].at
    decreases i
  {
    if j < i - 1 {
      assert IsRow(events, i - 1) <==> !events[i - 1].observer;
      InheritedFrom(events, i - 1, j);
    }
  }

  lemma {:induction false} NothingInherited(events: seq<Event>, i: nat)
    requires i <= |events| && forall k: nat {:trigger IsRow(events, k)} :: k < i && IsRow(events, k) ==> events[k].at.None?
    ensures Inherited(events, i).None?
    decreases i
  {
    if i > 0 {
      assert IsRow(events, i - 1) <==> !events[i - 1].observer;
      NothingInherited(events, i - 1);
    }
  }

  /** The time a row with a time of its own is sorted by is its own. */
  lemma {:induction false} TimedByItself(events: seq<Event>, c: nat)
    requires IsRow(events, c) && events[c].at.Some?
    ensures ItemOf(events, c).at == events[c].at
  {
  }

  /** A row without a time comes after the last timed row before it, with every row of an earlier time
      before it and every row of a later time after it. */
  lemma {:induction false} UntimedStays(events: seq<Event>, a: nat, b: nat)
    requires WellFormed(events) && IsRow(events, b) && events[b].at.None?
    requires LastTimed(events, b, a) && events[a].position < events[b].position
    ensures Comes(events, a, b) && !Comes(events, b, a)
    ensures forall c: nat :: IsRow(events, c) && events[c].at.Some? ==>
              && (events[a].at.value < events[c].at.value ==> Comes(events, b, c) && !Comes(events, c, b))
              && (events[c].at.value < events[a].at.value ==> Comes(events, c, b) && !Comes(events, b, c))
  {
    assert LastTimed(events, b + 1, a);
    InheritedFrom(events, b + 1, a);
    TimedByItself(events, a);
    forall c: nat | IsRow(events, c) && events[c].at.Some? ensures ItemOf(events, c).at == events[c].at { TimedByItself(events, c); }
  }

  /** A row without a time and with no timed row before it comes before every timed row, and among its
      like by position. */
  lemma {:induction false} UntimedFirst(events: seq<Event>, b: nat)
    requires WellFormed(events) && IsRow(events, b)
    requires forall k: nat {:trigger IsRow(events, k)} :: k <= b && IsRow(events, k) ==> events[k].at.None?
    ensures forall c: nat :: IsRow(events, c) && events[c].at.Some? ==> Comes(events, b, c) && !Comes(events, c, b)
    ensures forall a: nat :: a < b && IsRow(events, a) && events[a].position < events[b].position ==> Comes(events, a, b)
  {
    NothingInherited(events, b + 1);
    forall c: nat | IsRow(events, c) && events[c].at.Some? ensures ItemOf(events, c).at == events[c].at { TimedByItself(events, c); }
    forall a: nat | a < b && IsRow(events, a) ensures ItemOf(events, a).at.None? { NothingInherited(events, a + 1); }
  }

  /** Own times never fall along the record, and positions grow. */
  ghost predicate InRecordOrder(events: seq<Event>) {
    && (forall i: nat, j: nat {:trigger IsRow(events, i), IsRow(events, j)} ::
          i < j && IsRow(events, i) && IsRow(events, j) && events[i].at.Some? && events[j].at.Some? ==>
            events[i].at.value <= events[j].at.value)
    && (forall i, j {:trigger events[i], events[j]} :: 0 <= i < j < |events| ==> events[i].position < events[j].position)
  }

  lemma {:induction false} InheritedIsOwned(events: seq<Event>, i: nat) returns (j: nat)
    requires i <= |events| && Inherited(events, i).Some?
    ensures LastTimed(events, i, j) && events[j].at == Inherited(events, i)
    decreases i
  {
    if !events[i - 1].observer && events[i - 1].at.Some? {
      j := i - 1;
    } else {
      j := InheritedIsOwned(events, i - 1);
      forall k: nat | j < k < i && IsRow(events, k) ensures events[k].at.None? { assert k < i - 1 || k == i - 1; }
    }
  }

  lemma {:induction false} InheritedGrows(events: seq<Event>, i: nat, j: nat)
    requires i <= j <= |events| && InRecordOrder(events) && Inherited(events, i).Some?
    ensures Inherited(events, j).Some? && Inherited(events, i).value <= Inherited(events, j).value
    decreases j
  {
    if i < j {
      InheritedGrows(events, i, j - 1);
      if !events[j - 1].observer && events[j - 1].at.Some? {
        var k := InheritedIsOwned(events, j - 1);
        assert IsRow(events, k) && IsRow(events, j - 1);
      }
    }
  }

  /** Rows whose own times never fall along the record come in the order of the record. */
  lemma {:induction false} RecordOrderKept(events: seq<Event>, a: nat, b: nat)
    requires WellFormed(events) && InRecordOrder(events) && a < b && IsRow(events, a) && IsRow(events, b)
    ensures Comes(events, a, b) && !Comes(events, b, a)
  {
    if Inherited(events, a + 1).Some? { InheritedGrows(events, a + 1, b + 1); }
  }

  /** The clocks cannot tell a human decision or an ending from a query at most a minute away. */
  lemma {:induction false} ConfusedMeans(events: seq<Event>, e: nat, q: nat)
    requires WellFormed(events)
    ensures Confused(events, e, q) <==>
              && e < |events| && q < |events| && !events[e].observer && events[q].observer
              && (events[e].kind == Control || events[e].kind == Ending) && events[e].at.Some?
              && -60_000_000 <= events[e].at.value - events[q].at.value <= 60_000_000
  {
    if IsRow(events, e) && events[e].at.Some? { TimedByItself(events, e); }
  }

  // ------------------------------------------------ the order in terms of times and positions

  /** Rows with times of their own come by time, at equal times by position. */
  lemma {:induction false} RowsByTime(events: seq<Event>, a: nat, b: nat)
    requires WellFormed(events) && IsRow(events, a) && IsRow(events, b) && a != b
    requires events[a].at.Some? && events[b].at.Some?
    ensures Comes(events, a, b) <==>
              || events[a].at.value < events[b].at.value
              || (events[a].at.value == events[b].at.value && events[a].position < events[b].position)
  {
    TimedByItself(events, a);
    TimedByItself(events, b);
  }

  /** A row comes before a query exactly when it, or some row behind it, is over a minute earlier, or is
      at most a minute away or without any time and was recorded first. */
  lemma {:induction false} RowBeforeQuery(events: seq<Event>, e: nat, q: nat)
    requires WellFormed(events) && IsRow(events, e) && IsQuery(events, q)
    ensures Comes(events, q, e) <==> !Comes(events, e, q)
    ensures Comes(events, e, q) <==>
              exists x: nat {:trigger IsRow(events, x)} :: IsRow(events, x) && (x == e || Comes(events, e, x))
                && match Inherited(events, x + 1)
                   case None => events[x].position < events[q].position
                   case Some(at) =>
                     || at < events[q].at.value - 60_000_000
                     || (at <= events[q].at.value + 60_000_000 && events[x].position < events[q].position)
  {
    forall x: nat | IsRow(events, x) ensures Le(ItemOf(events, e), ItemOf(events, x)) <==> x == e || Comes(events, e, x) { }
  }

  /** Of two queries the one with fewer rows before it comes first; with the same rows before both, they
      come by time, at equal times by position. */
  lemma {:induction false} QueriesOrdered(events: seq<Event>, p: nat, q: nat)
    requires WellFormed(events) && IsQuery(events, p) && IsQuery(events, q) && p != q
    requires forall e: nat {:trigger Comes(events, e, p)} :: IsRow(events, e) && Comes(events, e, p) ==> Comes(events, e, q)
    ensures (exists e: nat {:trigger IsRow(events, e)} :: IsRow(events, e) && Comes(events, e, q) && !Comes(events, e, p)) ==>
              Comes(events, p, q)
    ensures (forall e: nat {:trigger IsRow(events, e)} :: IsRow(events, e) && Comes(events, e, q) ==> Comes(events, e, p)) ==>
              (Comes(events, p, q) <==>
                 || events[p].at.value < events[q].at.value
                 || (events[p].at.value == events[q].at.value && events[p].position < events[q].position))
  {
    assert forall e: nat :: IsRow(events, e) ==>
             (Comes(events, e, p) <==> Reaches(events, e, p)) && (Comes(events, e, q) <==> Reaches(events, e, q));
  }

  // ------------------------------------------------ sorting

  ghost predicate Ordered(items: seq<Item>) {
    forall i, j {:trigger items[i], items[j]} :: 0 <= i < j < |items| ==> Le(items[i], items[j])
  }

  function Insert(item: Item, items: seq<Item>): seq<Item> {
    if items == [] || !Le(items[0], item) then [item] + items else [items[0]] + Insert(item, items[1..])
  }

  lemma {:induction false} InsertHolds(item: Item, items: seq<Item>, x: Item)
    ensures |Insert(item, items)| == |items| + 1
    ensures x in Insert(item, items) <==> x == item || x in items
    decreases |items|
  {
    if items != [] && Le(items[0], item) {
      InsertHolds(item, items[1..], x);
      assert x in items <==> x == items[0] || x in items[1..];
    }
  }

  lemma {:induction false} InsertOrdered(item: Item, items: seq<Item>)
    requires Ordered(items)
    ensures Ordered(Insert(item, items))
    decreases |items|
  {
    if items != [] && Le(items[0], item) {
      InsertOrdered(item, items[1..]);
      var rest := Insert(item, items[1..]);
      forall j | 0 <= j < |rest| ensures Le(items[0], rest[j]) {
        InsertHolds(item, items[1..], rest[j]);
        if rest[j] != item { var k :| 0 <= k < |items[1..]| && items[1..][k] == rest[j]; assert rest[j] == items[k + 1]; }
      }
    } else if items != [] {
      assert Le(item, items[0]);
    }
  }

  ghost predicate Apart(items: seq<Item>) {
    forall i, j {:trigger items[i], items[j]} :: 0 <= i < j < |items| ==> items[i].position != items[j].position
  }

  lemma {:induction false} InsertApart(item: Item, items: seq<Item>)
    requires Apart(items) && forall x :: x in items ==> x.position != item.position
    ensures Apart(Insert(item, items))
    decreases |items|
  {
    if items != [] && Le(items[0], item) {
      forall x | x in items[1..] ensures x in items { }
      InsertApart(item, items[1..]);
      var rest := Insert(item, items[1..]);
      forall j | 0 <= j < |rest| ensures rest[j].position != items[0].position {
        InsertHolds(item, items[1..], rest[j]);
        if rest[j] in items[1..] { var k :| 0 <= k < |items[1..]| && items[1..][k] == rest[j]; assert rest[j] == items[k + 1]; }
        else { assert items[0] in items; }
      }
    }
  }

  /** `sorted`. */
  method Sort(items: seq<Item>) returns (sorted: seq<Item>)
    requires Apart(items)
    ensures Ordered(sorted) && Apart(sorted)
    ensures forall x :: x in sorted <==> x in items
  {
    sorted := [];
    for i := 0 to |items|
      invariant Ordered(sorted) && Apart(sorted)
      invariant forall x :: x in sorted <==> x in items[..i]
    {
      forall x ensures x in Insert(items[i], sorted) <==> x == items[i] || x in sorted { InsertHolds(items[i], sorted, x); }
      InsertOrdered(items[i], sorted);
      InsertApart(items[i], sorted);
      sorted := Insert(items[i], sorted);
      assert items[..i + 1] == items[..i] + [items[i]];
    }
  }

  // ------------------------------------------------ the merge

  /** The rows, in the order of their keys. */
  ghost predicate IsKeyed(events: seq<Event>, keyed: seq<Item>) {
    && Ordered(keyed) && Apart(keyed)
    && forall x {:trigger x in keyed} :: x in keyed <==> IsRow(events, x.index) && x == ItemOf(events, x.index)
  }

  /** Behind which of the first `n` rows the query goes; -1 for none. */
  function After(keyed: seq<Item>, n: nat, q: Item): (after: int)
    requires n <= |keyed| && q.at.Some?
    ensures -1 <= after < n
    ensures after >= 0 ==> Precedes(keyed[after], q)
    ensures forall i :: after < i < n ==> !Precedes(keyed[i], q)
  {
    if n == 0 then -1 else if Precedes(keyed[n - 1], q) then n - 1 else After(keyed, n - 1, q)
  }

  /** A query is placed behind exactly the rows it reaches. */
  lemma {:induction false} AfterIsReach(events: seq<Event>, keyed: seq<Item>, i: nat, q: nat)
    requires IsKeyed(events, keyed) && i < |keyed| && IsQuery(events, q)
    ensures keyed[i] in keyed && Reaches(events, keyed[i].index, q) <==> i <= After(keyed, |keyed|, ItemOf(events, q))
  {
    var after := After(keyed, |keyed|, ItemOf(events, q));
    assert keyed[i] in keyed;
    if i <= after {
      assert keyed[after] in keyed;
      assert Le(keyed[i], keyed[after]);
    } else {
      forall x: nat | IsRow(events, x) && Precedes(ItemOf(events, x), ItemOf(events, q)) ensures !Le(keyed[i], ItemOf(events, x)) {
        assert ItemOf(events, x) in keyed;
        var k :| 0 <= k < |keyed| && keyed[k] == ItemOf(events, x);
      }
    }
  }

  method KeyRows(events: seq<Event>) returns (keyed: seq<Item>)
    requires WellFormed(events)
    ensures IsKeyed(events, keyed)
  {
    var last: Option<int>, rows: seq<Item> := None, [];
    for i := 0 to |events|
      invariant last == Inherited(events, i) && Apart(rows)
      invariant forall x {:trigger x in rows} :: x in rows <==> IsRow(events, x.index) && x.index < i && x == ItemOf(events, x.index)
    {
      if !events[i].observer {
        if events[i].at.Some? { last := events[i].at; }
        forall x | x in rows ensures x.position != events[i].position { assert events[x.index].position == x.position; }
        rows := rows + [Item(last, events[i].position, i)];
      }
    }
    keyed := Sort(rows);
  }

  /** The queries placed so far, behind which row each. */
  ghost predicate IsPlaced(events: seq<Event>, keyed: seq<Item>, placed: map<int, seq<Item>>, n: nat) {
    && (forall g {:trigger placed[g]} :: g in placed ==> Apart(placed[g]) && -1 <= g < |keyed|)
    && (forall g, x {:trigger x in placed[g]} :: g in placed && x in placed[g] ==>
          IsQuery(events, x.index) && x.index < n && x == ItemOf(events, x.index) && After(keyed, |keyed|, x) == g)
    && (forall q: nat {:trigger IsQuery(events, q)} :: IsQuery(events, q) && q < n ==>
          var g := After(keyed, |keyed|, ItemOf(events, q)); g in placed && ItemOf(events, q) in placed[g])
  }

  ghost predicate MarkedBy(events: seq<Event>, i: nat, n: nat)
    requires WellFormed(events)
  {
    || (exists q: nat {:trigger Confused(events, i, q)} :: q < n && Confused(events, i, q))
    || (i < n && exists e: nat {:trigger Confused(events, e, i)} :: Confused(events, e, i))
  }

  /** Marks are set exactly on the rows and queries, among the first `n` queries, whose order is uncertain. */
  ghost predicate IsMarked(events: seq<Event>, uncertain: seq<bool>, n: nat)
    requires WellFormed(events)
  {
    |uncertain| == |events| && forall i: nat {:trigger uncertain[i]} :: i < |events| ==> (uncertain[i] <==> MarkedBy(events, i, n))
  }

  /** One of the first `n` rows is `x`, and confused with the query. */
  ghost predicate Hit(events: seq<Event>, keyed: seq<Item>, n: nat, x: nat, k: nat)
    requires WellFormed(events) && n <= |keyed|
  {
    exists j: nat {:trigger keyed[j]} :: j < n && keyed[j].index == x && Confused(events, x, k)
  }

  ghost predicate AnyHit(events: seq<Event>, keyed: seq<Item>, n: nat, k: nat)
    requires WellFormed(events) && n <= |keyed|
  {
    exists j: nat {:trigger keyed[j]} :: j < n && Confused(events, keyed[j].index, k)
  }

  lemma {:induction false} EveryHit(events: seq<Event>, keyed: seq<Item>, x: nat, k: nat)
    requires WellFormed(events) && IsKeyed(events, keyed) && Confused(events, x, k)
    ensures Hit(events, keyed, |keyed|, x, k) && AnyHit(events, keyed, |keyed|, k)
  {
    assert ItemOf(events, x) in keyed;
    var j :| 0 <= j < |keyed| && keyed[j] == ItemOf(events, x);
  }

  lemma {:induction false} MarkedNext(events: seq<Event>, keyed: seq<Item>, marks: seq<bool>, uncertain: seq<bool>, k: nat)
    requires WellFormed(events) && IsKeyed(events, keyed) && IsQuery(events, k) && IsMarked(events, marks, k)
    requires |uncertain| == |events| && (uncertain[k] <==> AnyHit(events, keyed, |keyed|, k))
    requires forall x: nat {:trigger uncertain[x]} :: x < |events| && x != k ==>
               (uncertain[x] <==> marks[x] || Hit(events, keyed, |keyed|, x, k))
    ensures IsMarked(events, uncertain, k + 1)
  {
    forall i: nat | i < |events| ensures uncertain[i] <==> MarkedBy(events, i, k + 1) {
      if i == k {
        forall e: nat | Confused(events, e, k) ensures AnyHit(events, keyed, |keyed|, k) { EveryHit(events, keyed, e, k); }
      } else {
        assert marks[i] <==> MarkedBy(events, i, k);
        if Confused(events, i, k) { EveryHit(events, keyed, i, k); }
      }
    }
  }

  /** One query against every row. */
  method Weigh(events: seq<Event>, keyed: seq<Item>, k: nat, marks: seq<bool>) returns (after: int, uncertain: seq<bool>)
    requires WellFormed(events) && IsKeyed(events, keyed) && IsQuery(events, k) && IsMarked(events, marks, k)
    ensures after == After(keyed, |keyed|, ItemOf(events, k)) && IsMarked(events, uncertain, k + 1)
  {
    var query := ItemOf(events, k);
    after, uncertain := -1, marks;
    assert !marks[k];
    for i := 0 to |keyed|
      invariant after == After(keyed, i, query) && |uncertain| == |events|
      invariant uncertain[k] <==> AnyHit(events, keyed, i, k)
      invariant forall x: nat {:trigger uncertain[x]} :: x < |events| && x != k ==>
                  (uncertain[x] <==> marks[x] || Hit(events, keyed, i, x, k))
    {
      assert keyed[i] in keyed;
      var row := events[keyed[i].index];
      if Precedes(keyed[i], query) { after := i; }
      if InBand(keyed[i], query) && row.kind in {Control, Ending} && row.at.Some? {
        assert Confused(events, keyed[i].index, k);
        uncertain := uncertain[keyed[i].index := true];
        uncertain := uncertain[k := true];
      }
    }
    MarkedNext(events, keyed, marks, uncertain, k);
  }

  lemma {:induction false} PlacedNext(events: seq<Event>, keyed: seq<Item>, placed: map<int, seq<Item>>, k: nat)
    requires WellFormed(events) && IsQuery(events, k) && IsPlaced(events, keyed, placed, k)
    ensures var q := ItemOf(events, k);
            var g := After(keyed, |keyed|, q);
            IsPlaced(events, keyed, placed[g := (if g in placed then placed[g] else []) + [q]], k + 1)
  {
    var q := ItemOf(events, k);
    var g := After(keyed, |keyed|, q);
    var before := if g in placed then placed[g] else [];
    var next := placed[g := before + [q]];
    forall i | 0 <= i < |before| ensures before[i].position != q.position { assert before[i] in placed[g]; }
    forall h: int, x: Item | h in next && x in next[h]
      ensures IsQuery(events, x.index) && x.index < k + 1 && x == ItemOf(events, x.index) && After(keyed, |keyed|, x) == h
    {
      if h != g || x != q { assert h in placed && x in placed[h]; }
    }
    forall p: nat | IsQuery(events, p) && p < k + 1
      ensures var h := After(keyed, |keyed|, ItemOf(events, p)); h in next && ItemOf(events, p) in next[h]
    {
      if p == k { assert next[g][|before|] == q; }
    }
  }

  method PlaceQueries(events: seq<Event>, keyed: seq<Item>) returns (placed: map<int, seq<Item>>, uncertain: seq<bool>)
    requires WellFormed(events) && IsKeyed(events, keyed)
    ensures IsPlaced(events, keyed, placed, |events|) && IsMarked(events, uncertain, |events|)
  {
    placed, uncertain := map[], seq(|events|, _ => false);
    for k := 0 to |events|
      invariant IsPlaced(events, keyed, placed, k) && IsMarked(events, uncertain, k)
    {
      if events[k].observer {
        var after;
        after, uncertain := Weigh(events, keyed, k, uncertain);
        PlacedNext(events, keyed, placed, k);
        placed := placed[after := (if after in placed then placed[after] else []) + [ItemOf(events, k)]];
      } else {
        NoMarksAt(events, uncertain, k);
      }
    }
  }

  lemma {:induction false} NoMarksAt(events: seq<Event>, uncertain: seq<bool>, k: nat)
    requires WellFormed(events) && IsMarked(events, uncertain, k) && IsRow(events, k)
    ensures IsMarked(events, uncertain, k + 1)
  {
  }

  // ------------------------------------------------ laying the groups out

  /** Where an event stands: with row `row` (-1 before all), the row itself first, then queries. */
  datatype Place = Place(row: int, query: bool)

  ghost predicate StandsAt(events: seq<Event>, keyed: seq<Item>, a: nat, at: Place) {
    if at.query then IsQuery(events, a) && After(keyed, |keyed|, ItemOf(events, a)) == at.row
    else 0 <= at.row < |keyed| && keyed[at.row].index == a
  }

  ghost predicate Ahead(events: seq<Event>, a: nat, at: Place, b: nat, bt: Place)
    requires a < |events| && b < |events|
  {
    || at.row < bt.row
    || (at.row == bt.row && !at.query && bt.query)
    || (at.row == bt.row && at.query && bt.query && Le(ItemOf(events, a), ItemOf(events, b)) && a != b)
  }

  lemma {:induction false} AheadComes(events: seq<Event>, keyed: seq<Item>, a: nat, at: Place, b: nat, bt: Place)
    requires WellFormed(events) && IsKeyed(events, keyed) && a < |events| && b < |events|
    requires StandsAt(events, keyed, a, at) && StandsAt(events, keyed, b, bt) && Ahead(events, a, at, b, bt)
    ensures Comes(events, a, b)
  {
    if !at.query { assert keyed[at.row] in keyed; }
    if !bt.query { assert keyed[bt.row] in keyed; }
    if !at.query && bt.query { AfterIsReach(events, keyed, at.row, b); }
    if at.query && !bt.query { AfterIsReach(events, keyed, bt.row, a); }
    if !at.query && !bt.query { assert Le(keyed[at.row], keyed[bt.row]) && keyed[at.row].position != keyed[bt.row].position; }
    if at.query && bt.query { QueriesStand(events, keyed, a, at.row, b, bt.row); }
  }

  lemma {:induction false} QueriesStand(events: seq<Event>, keyed: seq<Item>, a: nat, g: int, b: nat, h: int)
    requires IsKeyed(events, keyed) && IsQuery(events, a) && IsQuery(events, b) && g <= h
    requires After(keyed, |keyed|, ItemOf(events, a)) == g && After(keyed, |keyed|, ItemOf(events, b)) == h
    ensures g < h ==> ReachesFurther(events, a, b)
    ensures !ReachesFurther(events, b, a)
  {
    if g < h {
      assert keyed[h] in keyed;
      AfterIsReach(events, keyed, h, a);
      AfterIsReach(events, keyed, h, b);
      assert IsRow(events, keyed[h].index);
    }
    forall e: nat | IsRow(events, e) && Reaches(events, e, a) ensures Reaches(events, e, b) {
      assert ItemOf(events, e) in keyed;
      var i :| 0 <= i < |keyed| && keyed[i] == ItemOf(events, e);
      AfterIsReach(events, keyed, i, a);
      AfterIsReach(events, keyed, i, b);
    }
  }

  /** Everything standing before or at `limit` is laid out, in order, and nothing else. */
  ghost predicate Laid(events: seq<Event>, keyed: seq<Item>, order: seq<nat>, places: seq<Place>, limit: Place) {
    && |places| == |order|
    && (forall t {:trigger order[t]} :: 0 <= t < |order| ==>
          order[t] < |events| && StandsAt(events, keyed, order[t], places[t]) && Within(places[t], limit))
    && (forall s, t {:trigger order[s], order[t]} :: 0 <= s < t < |order| ==>
          order[s] < |events| && order[t] < |events| && Ahead(events, order[s], places[s], order[t], places[t]))
    && (forall a: nat, at: Place {:trigger StandsAt(events, keyed, a, at)} ::
          a < |events| && StandsAt(events, keyed, a, at) && -1 <= at.row && Within(at, limit) ==> a in order)
  }

  ghost predicate Within(at: Place, limit: Place) {
    at.row < limit.row || (at.row == limit.row && (at.query ==> limit.query))
  }

  lemma {:induction false} LayRow(events: seq<Event>, keyed: seq<Item>, order: seq<nat>, places: seq<Place>, g: nat)
    requires IsKeyed(events, keyed) && g < |keyed| && Laid(events, keyed, order, places, Place(g - 1, true))
    ensures Laid(events, keyed, order + [keyed[g].index], places + [Place(g, false)], Place(g, false))
  {
    assert keyed[g] in keyed;
    var o, ps := order + [keyed[g].index], places + [Place(g, false)];
    forall s, t | 0 <= s < t < |o| ensures o[s] < |events| && o[t] < |events| && Ahead(events, o[s], ps[s], o[t], ps[t]) {
      assert o[s] == order[s] && ps[s] == places[s];
      if t < |order| { assert o[t] == order[t] && ps[t] == places[t]; }
    }
    forall a: nat, at: Place | a < |events| && StandsAt(events, keyed, a, at) && -1 <= at.row && Within(at, Place(g, false))
      ensures a in o
    {
      if at.row == g { assert o[|order|] == a; } else { assert Within(at, Place(g - 1, true)) && a in order; }
    }
  }

  /** The queries of one group, in their order. */
  ghost predicate IsGroup(events: seq<Event>, keyed: seq<Item>, group: seq<Item>, g: int) {
    && Ordered(group) && Apart(group)
    && (forall i {:trigger group[i]} :: 0 <= i < |group| ==>
          IsQuery(events, group[i].index) && group[i] == ItemOf(events, group[i].index) && After(keyed, |keyed|, group[i]) == g)
    && (forall q: nat {:trigger IsQuery(events, q)} :: IsQuery(events, q) && After(keyed, |keyed|, ItemOf(events, q)) == g ==>
          ItemOf(events, q) in group)
  }

  function Indices(group: seq<Item>): seq<nat> { seq(|group|, i requires 0 <= i < |group| => group[i].index) }

  lemma {:induction false} QueryLaid(
      events: seq<Event>, keyed: seq<Item>, order: seq<nat>, places: seq<Place>, g: int, group: seq<Item>, s: nat, t: nat)
    requires -1 <= g && Laid(events, keyed, order, places, Place(g, false)) && IsGroup(events, keyed, group, g)
    requires s < t < |order| + |group|
    ensures var o, ps := order + Indices(group), places + seq(|group|, _ => Place(g, true));
            o[s] < |events| && o[t] < |events| && Ahead(events, o[s], ps[s], o[t], ps[t])
  {
    var n := |order|;
    if t < n {
      assert order[s] < |events| && order[t] < |events|;
    } else {
      assert group[t - n].index < |events|;
      if s < n { assert order[s] < |events| && Within(places[s], Place(g, false)); }
      else { assert Le(group[s - n], group[t - n]) && group[s - n].position != group[t - n].position; }
    }
  }

  lemma {:induction false} EveryQueryLaid(
      events: seq<Event>, keyed: seq<Item>, order: seq<nat>, places: seq<Place>, g: int, group: seq<Item>, a: nat, at: Place)
    requires -1 <= g && Laid(events, keyed, order, places, Place(g, false)) && IsGroup(events, keyed, group, g)
    requires a < |events| && StandsAt(events, keyed, a, at) && -1 <= at.row && Within(at, Place(g, true))
    ensures a in order + Indices(group)
  {
    if !Within(at, Place(g, false)) {
      var i :| 0 <= i < |group| && group[i] == ItemOf(events, a);
      assert Indices(group)[i] == a;
    }
  }

  lemma {:induction false} LayQueries(
      events: seq<Event>, keyed: seq<Item>, order: seq<nat>, places: seq<Place>, g: int, group: seq<Item>)
    requires -1 <= g && Laid(events, keyed, order, places, Place(g, false)) && IsGroup(events, keyed, group, g)
    ensures Laid(events, keyed, order + Indices(group), places + seq(|group|, _ => Place(g, true)), Place(g, true))
  {
    var o, ps, n := order + Indices(group), places + seq(|group|, _ => Place(g, true)), |order|;
    forall t | 0 <= t < |o| ensures o[t] < |events| && StandsAt(events, keyed, o[t], ps[t]) && Within(ps[t], Place(g, true)) {
      if n <= t { assert o[t] == group[t - n].index; } else { assert o[t] == order[t]; }
    }
    forall s, t | 0 <= s < t < |o| ensures o[s] < |events| && o[t] < |events| && Ahead(events, o[s], ps[s], o[t], ps[t]) {
      QueryLaid(events, keyed, order, places, g, group, s, t);
    }
    forall a: nat, at: Place | a < |events| && StandsAt(events, keyed, a, at) && -1 <= at.row && Within(at, Place(g, true))
      ensures a in o
    {
      EveryQueryLaid(events, keyed, order, places, g, group, a, at);
    }
  }

  method GroupOf(events: seq<Event>, keyed: seq<Item>, placed: map<int, seq<Item>>, g: int) returns (group: seq<Item>)
    requires WellFormed(events) && IsPlaced(events, keyed, placed, |events|)
    ensures IsGroup(events, keyed, group, g)
  {
    var queries := if g in placed then placed[g] else [];
    group := Sort(queries);
    forall i | 0 <= i < |group|
      ensures IsQuery(events, group[i].index) && group[i] == ItemOf(events, group[i].index) && After(keyed, |keyed|, group[i]) == g
    {
      assert group[i] in queries && g in placed && group[i] in placed[g];
    }
  }

  lemma {:induction false} AllLaid(events: seq<Event>, keyed: seq<Item>, order: seq<nat>, places: seq<Place>)
    requires WellFormed(events) && IsKeyed(events, keyed) && Laid(events, keyed, order, places, Place(|keyed| - 1, true))
    ensures forall a: nat :: a < |events| <==> a in order
    ensures forall s, t :: 0 <= s < t < |order| ==> Comes(events, order[s], order[t])
  {
    forall a: nat | a < |events| ensures a in order {
      if events[a].observer {
        assert StandsAt(events, keyed, a, Place(After(keyed, |keyed|, ItemOf(events, a)), true));
      } else {
        assert ItemOf(events, a) in keyed;
        var i :| 0 <= i < |keyed| && keyed[i] == ItemOf(events, a);
        assert StandsAt(events, keyed, a, Place(i, false));
      }
    }
    forall s, t | 0 <= s < t < |order| ensures Comes(events, order[s], order[t]) {
      AheadComes(events, keyed, order[s], places[s], order[t], places[t]);
    }
  }

  /** `_merged`: every event once, in the order they come; marked where the clocks cannot tell. */
  method Merged(events: seq<Event>) returns (order: seq<nat>, uncertain: seq<bool>)
    requires WellFormed(events)
    ensures forall a: nat :: a < |events| <==> a in order
    ensures forall t :: 0 <= t < |order| ==> order[t] < |events|
    ensures forall s, t :: 0 <= s < t < |order| ==> order[s] != order[t] && Comes(events, order[s], order[t])
    ensures |uncertain| == |events|
    ensures forall i: nat :: i < |events| ==>
              (uncertain[i] <==> exists x: nat :: Confused(events, i, x) || Confused(events, x, i))
  {
    var keyed := KeyRows(events);
    var placed;
    placed, uncertain := PlaceQueries(events, keyed);
    order := [];
    ghost var places: seq<Place> := [];
    var group := GroupOf(events, keyed, placed, -1);
    assert Laid(events, keyed, [], [], Place(-1, false));
    LayQueries(events, keyed, order, places, -1, group);
    order, places := order + Indices(group), places + seq(|group|, _ => Place(-1, true));
    for i := 0 to |keyed|
      invariant Laid(events, keyed, order, places, Place(i - 1, true))
    {
      LayRow(events, keyed, order, places, i);
      order, places := order + [keyed[i].index], places + [Place(i, false)];
      group := GroupOf(events, keyed, placed, i);
      LayQueries(events, keyed, order, places, i, group);
      order, places := order + Indices(group), places + seq(|group|, _ => Place(i, true));
    }
    AllLaid(events, keyed, order, places);
    forall s, t | 0 <= s < t < |order| ensures order[s] != order[t] { ComesOneWay(events, order[s], order[t]); }
    forall i: nat | i < |events| ensures uncertain[i] <==> exists x: nat :: Confused(events, i, x) || Confused(events, x, i) {
      assert uncertain[i] <==> MarkedBy(events, i, |events|);
    }
  }
}
