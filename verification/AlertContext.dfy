// The alert context a Run is given: processed entries in key order, as many as the budget holds.

module AlertContext {
  const TOTAL_CHARS: nat := 8192

  // ------------------------------------------------ text order

  /** Strings by code point, the shorter first. */
  predicate Before(a: string, b: string)
    decreases |a|
  {
    && b != []
    && (a == [] || a[0] < b[0] || (a[0] == b[0] && Before(a[1..], b[1..])))
  }

  /** At the first difference the lower character decides; without one the shorter comes first. */
  lemma {:induction false} BeforeMeans(a: string, b: string)
    ensures Before(a, b) <==>
              || (|a| < |b| && a == b[..|a|])
              || exists k {:trigger a[k]} :: 0 <= k < |a| && k < |b| && a[k] < b[k] && a[..k] == b[..k]
    decreases |a|
  {
    if a != [] && b != [] {
      BeforeMeans(a[1..], b[1..]);
      if a[0] == b[0] {
        if |a| < |b| { assert a == b[..|a|] <==> a[1..] == b[1..][..|a| - 1]; }
        forall k | 0 <= k < |a| - 1 && k < |b| - 1
          ensures a[1..][..k] == b[1..][..k] <==> a[..k + 1] == b[..k + 1]
        {
          assert a[..k + 1] == [a[0]] + a[1..][..k] && b[..k + 1] == [b[0]] + b[1..][..k];
        }
        if Before(a, b) && !(|a| < |b| && a == b[..|a|]) {
          var k :| 0 <= k < |a[1..]| && k < |b[1..]| && a[1..][k] < b[1..][k] && a[1..][..k] == b[1..][..k];
          assert a[k + 1] < b[k + 1];
        }
      } else if a[0] < b[0] {
        assert a[..0] == b[..0];
      }
    }
  }

  lemma {:induction false} BeforeTrans(a: string, b: string, c: string)
    requires Before(a, b) && Before(b, c)
    ensures Before(a, c)
    decreases |a|
  {
    if a != [] && a[0] == b[0] && b[0] == c[0] { BeforeTrans(a[1..], b[1..], c[1..]); }
  }

  lemma {:induction false} BeforeOneWay(a: string, b: string)
    requires Before(a, b)
    ensures !Before(b, a) && a != b
    decreases |a|
  {
    if a != [] && a[0] == b[0] { BeforeOneWay(a[1..], b[1..]); }
  }

  lemma {:induction false} BeforeTotal(a: string, b: string)
    ensures a == b || Before(a, b) || Before(b, a)
    decreases |a|
  {
    if a != [] && b != [] && a[0] == b[0] {
      BeforeTotal(a[1..], b[1..]);
      if a[1..] == b[1..] { assert a == [a[0]] + a[1..] && b == [b[0]] + b[1..]; }
    }
  }

  // ------------------------------------------------ the entries of one object

  /** An entry with its processed key and value, and whether either was cut; raw keys are what the
      map tells apart. */
  datatype Entry = Entry(key: string, raw: string, value: string, cut: bool)

  /** By processed key, then by raw key. */
  predicate Ahead(a: Entry, b: Entry) { Before(a.key, b.key) || (a.key == b.key && Before(a.raw, b.raw)) }

  lemma {:induction false} ByRawKey(a: Entry, b: Entry)
    requires Ahead(a, b) && a.key == b.key
    ensures Before(a.raw, b.raw)
  {
    if Before(a.key, b.key) { BeforeOneWay(a.key, b.key); }
  }

  lemma {:induction false} AheadTrans(a: Entry, b: Entry, c: Entry)
    requires Ahead(a, b) && Ahead(b, c)
    ensures Ahead(a, c)
  {
    if Before(a.key, b.key) && Before(b.key, c.key) { BeforeTrans(a.key, b.key, c.key); }
    if a.key == b.key == c.key {
      ByRawKey(a, b);
      ByRawKey(b, c);
      BeforeTrans(a.raw, b.raw, c.raw);
    }
  }

  lemma {:induction false} AheadOneWay(a: Entry, b: Entry)
    requires Ahead(a, b)
    ensures !Ahead(b, a) && a != b
  {
    if Before(a.key, b.key) { BeforeOneWay(a.key, b.key); } else { BeforeOneWay(a.raw, b.raw); }
  }

  lemma {:induction false} AheadTotal(a: Entry, b: Entry)
    requires a.raw != b.raw
    ensures Ahead(a, b) || Ahead(b, a)
  {
    BeforeTotal(a.key, b.key);
    BeforeTotal(a.raw, b.raw);
  }

  ghost predicate Ascending(entries: seq<Entry>) {
    forall i, j {:trigger entries[i], entries[j]} :: 0 <= i < j < |entries| ==> Ahead(entries[i], entries[j])
  }

  /** The entries of a map: no raw key twice. */
  ghost predicate RawDistinct(entries: seq<Entry>) {
    forall i, j {:trigger entries[i], entries[j]} :: 0 <= i < j < |entries| ==> entries[i].raw != entries[j].raw
  }

  /** `e` is the entry that its processed key keeps: of all that share it, the first raw key. */
  ghost predicate Keeps(entries: seq<Entry>, e: Entry) {
    e in entries && forall x :: x in entries && x.key == e.key && x != e ==> Before(e.raw, x.raw)
  }

  /** What is kept of a map's entries, without reference to the order they are visited in. */
  ghost predicate IsKept(entries: seq<Entry>, kept: seq<Entry>) {
    Ascending(kept) && forall e :: e in kept <==> Keeps(entries, e)
  }

  /** Some entry was cut, kept or not. */
  ghost predicate AnyCut(entries: seq<Entry>) { exists e :: e in entries && e.cut }

  method InsertInOrder(sorted: seq<Entry>, e: Entry) returns (next: seq<Entry>)
    requires Ascending(sorted) && forall x :: x in sorted ==> x.raw != e.raw
    ensures Ascending(next) && |next| == |sorted| + 1 && forall x :: x in next <==> x == e || x in sorted
  {
    var i := 0;
    while i < |sorted| && Ahead(sorted[i], e)
      invariant i <= |sorted| && forall k :: 0 <= k < i ==> Ahead(sorted[k], e)
    {
      i := i + 1;
    }
    next := sorted[..i] + [e] + sorted[i..];
    if i < |sorted| {
      AheadTotal(sorted[i], e);
      forall k | i < k < |sorted| ensures Ahead(e, sorted[k]) { AheadTrans(e, sorted[i], sorted[k]); }
    }
    assert sorted == sorted[..i] + sorted[i..];
  }

  /** `_context_entries` past the processing: sort, then drop all but the first of each key. */
  method ContextEntries(entries: seq<Entry>) returns (kept: seq<Entry>, cut: bool, collided: nat)
    requires RawDistinct(entries)
    ensures IsKept(entries, kept) && |kept| + collided == |entries|
    ensures cut <==> AnyCut(entries)
  {
    var sorted: seq<Entry> := [];
    cut := false;
    for i := 0 to |entries|
      invariant Ascending(sorted) && |sorted| == i && forall x :: x in sorted <==> x in entries[..i]
      invariant cut <==> AnyCut(entries[..i])
    {
      cut := cut || entries[i].cut;
      forall x | x in sorted ensures x.raw != entries[i].raw { assert x in entries[..i]; }
      assert entries[..i + 1] == entries[..i] + [entries[i]];
      sorted := InsertInOrder(sorted, entries[i]);
    }
    assert entries[..|entries|] == entries;
    kept, collided := FirstOfEachKey(sorted);
    forall e ensures Keeps(sorted, e) <==> Keeps(entries, e) { }
  }

  method FirstOfEachKey(sorted: seq<Entry>) returns (kept: seq<Entry>, collided: nat)
    requires Ascending(sorted)
    ensures IsKept(sorted, kept) && |kept| + collided == |sorted|
  {
    kept, collided := [], 0;
    for i := 0 to |sorted|
      invariant IsKept(sorted[..i], kept) && |kept| + collided == i
      invariant i > 0 ==> kept != [] && kept[|kept| - 1].key == sorted[i - 1].key
    {
      if kept != [] && kept[|kept| - 1].key == sorted[i].key {
        collided := collided + 1;
        StillKept(sorted, i, kept);
      } else {
        NewlyKept(sorted, i, kept);
        kept := kept + [sorted[i]];
      }
    }
    assert sorted[..|sorted|] == sorted;
  }

  lemma {:induction false} StillKept(sorted: seq<Entry>, i: nat, kept: seq<Entry>)
    requires i < |sorted| && Ascending(sorted) && IsKept(sorted[..i], kept)
    requires kept != [] && kept[|kept| - 1].key == sorted[i].key
    ensures IsKept(sorted[..i + 1], kept)
  {
    var last := kept[|kept| - 1];
    assert last in kept && last in sorted[..i];
    forall e ensures Keeps(sorted[..i], e) <==> Keeps(sorted[..i + 1], e) {
      assert sorted[..i + 1] == sorted[..i] + [sorted[i]];
      if Keeps(sorted[..i], e) {
        var k :| 0 <= k < i && sorted[k] == e;
        assert Ahead(e, sorted[i]);
        if e.key == sorted[i].key { ByRawKey(e, sorted[i]); }
      }
      if Keeps(sorted[..i + 1], e) && e == sorted[i] {
        var k :| 0 <= k < i && sorted[k] == last;
        AheadOneWay(last, e);
        assert false;
      }
    }
  }

  lemma {:induction false} NewlyKept(sorted: seq<Entry>, i: nat, kept: seq<Entry>)
    requires i < |sorted| && Ascending(sorted) && IsKept(sorted[..i], kept)
    requires i > 0 ==> kept != [] && kept[|kept| - 1].key == sorted[i - 1].key && kept[|kept| - 1].key != sorted[i].key
    ensures IsKept(sorted[..i + 1], kept + [sorted[i]])
  {
    assert sorted[..i + 1] == sorted[..i] + [sorted[i]];
    forall k | 0 <= k < i ensures sorted[k].key != sorted[i].key && Ahead(sorted[k], sorted[i]) {
      KeyMovedOn(sorted, k, i);
    }
    forall e ensures Keeps(sorted[..i + 1], e) <==> Keeps(sorted[..i], e) || e == sorted[i] {
      if e in sorted[..i] { var k :| 0 <= k < i && sorted[k] == e; AheadOneWay(e, sorted[i]); }
    }
    forall k | 0 <= k < |kept| ensures Ahead(kept[k], sorted[i]) { assert kept[k] in kept; assert kept[k] in sorted[..i]; }
  }

  lemma {:induction false} KeyMovedOn(sorted: seq<Entry>, k: nat, i: nat)
    requires k < i < |sorted| && Ascending(sorted) && sorted[i - 1].key != sorted[i].key
    ensures sorted[k].key != sorted[i].key && Ahead(sorted[k], sorted[i])
  {
    assert Ahead(sorted[i - 1], sorted[i]) && Before(sorted[i - 1].key, sorted[i].key);
    if k < i - 1 {
      assert Ahead(sorted[k], sorted[i - 1]);
      if Before(sorted[k].key, sorted[i - 1].key) { BeforeTrans(sorted[k].key, sorted[i - 1].key, sorted[i].key); }
    }
    BeforeOneWay(sorted[k].key, sorted[i].key);
  }

  /** Sequences in order with the same elements are the same. */
  lemma {:induction false} SameAscending(a: seq<Entry>, b: seq<Entry>)
    requires Ascending(a) && Ascending(b) && forall e :: e in a <==> e in b
    ensures a == b
    decreases |a|
  {
    if a == [] {
      assert forall k :: 0 <= k < |b| ==> b[k] in b;
    } else {
      assert a[0] in a && a[0] in b;
      assert b[0] in b && b[0] in a;
      var i :| 0 <= i < |b| && b[i] == a[0];
      var j :| 0 <= j < |a| && a[j] == b[0];
      if i > 0 && j > 0 { AheadOneWay(b[0], b[i]); }
      assert a[0] == b[0];
      forall e ensures e in a[1..] <==> e in b[1..] {
        if e in a[1..] { var k :| 0 <= k < |a[1..]| && a[1..][k] == e; assert e == a[k + 1]; AheadOneWay(a[0], e); assert e in b; }
        if e in b[1..] { var k :| 0 <= k < |b[1..]| && b[1..][k] == e; assert e == b[k + 1]; AheadOneWay(b[0], e); assert e in a; }
      }
      SameAscending(a[1..], b[1..]);
      assert a == [a[0]] + a[1..] && b == [b[0]] + b[1..];
    }
  }

  /** What is kept does not depend on the order the map is visited in. */
  lemma {:induction false} KeptInAnyOrder(a: seq<Entry>, b: seq<Entry>, keptA: seq<Entry>, keptB: seq<Entry>)
    requires forall e :: e in a <==> e in b
    requires IsKept(a, keptA) && IsKept(b, keptB)
    ensures keptA == keptB
  {
    forall e ensures Keeps(a, e) <==> Keeps(b, e) { }
    SameAscending(keptA, keptB);
  }

  /** Two visits of one map are equally long. */
  lemma {:induction false} SameLength(a: seq<Entry>, b: seq<Entry>)
    requires RawDistinct(a) && RawDistinct(b) && forall e :: e in a <==> e in b
    ensures |a| == |b|
  {
    ElementsAre(a);
    ElementsAre(b);
    assert (set e | e in a) == (set e | e in b);
  }

  lemma {:induction false} ElementsAre(a: seq<Entry>)
    requires RawDistinct(a)
    ensures |set e | e in a| == |a|
    decreases |a|
  {
    if a != [] {
      var last, rest := a[|a| - 1], a[..|a| - 1];
      ElementsAre(rest);
      assert last !in rest;
      assert (set e | e in a) == (set e | e in rest) + {last};
    }
  }

  // ------------------------------------------------ the budget

  /** Labels first, annotations after. */
  datatype Facts = Facts(labels: seq<Entry>, notes: seq<Entry>, collided: nat, cut: bool)

  function Available(f: Facts): nat { |f.labels| + |f.notes| }

  function Digits(n: nat): (d: nat)
    ensures 1 <= d
  {
    if n < 10 then 1 else 1 + Digits(n / 10)
  }

  lemma {:induction false} OneMoreDigit(n: nat)
    ensures Digits(n) <= Digits(n + 1) <= Digits(n) + 1
  {
    if n >= 9 {
      if (n + 1) % 10 == 0 {
        assert (n + 1) / 10 == n / 10 + 1;
        if n >= 10 { OneMoreDigit(n / 10); }
      } else {
        assert (n + 1) / 10 == n / 10;
      }
    }
  }

  /** Characters of an entry as JSON text, `width` giving those of a quoted string. */
  function EntryWidth(e: Entry, width: string -> nat): nat { width(e.key) + 1 + width(e.value) }

  /** Characters of an object of the first `n` entries: braces, entries, commas. */
  function ObjectWidth(entries: seq<Entry>, n: nat, width: string -> nat): nat
    requires n <= |entries|
  {
    if n == 0 then 2
    else ObjectWidth(entries, n - 1, width) + EntryWidth(entries[n - 1], width) + (if n == 1 then 0 else 1)
  }

  function Omitted(f: Facts, count: nat): nat
    requires count <= Available(f)
  {
    f.collided + Available(f) - count
  }

  /** Characters of `canonical` of the fact with `count` entries: two objects, the number omitted and
      the flag, and fifty of names and punctuation. */
  function FactWidth(f: Facts, count: nat, width: string -> nat): nat
    requires count <= Available(f)
  {
    var labels := if count <= |f.labels| then count else |f.labels|;
    var flag := if f.cut || Omitted(f, count) > 0 then 4 else 5;
    50 + ObjectWidth(f.labels, labels, width) + ObjectWidth(f.notes, count - labels, width) + Digits(Omitted(f, count)) + flag
  }

  ghost predicate Quotes(width: string -> nat) { forall s :: 2 <= width(s) }

  /** One more entry always makes the text longer, though the number omitted may lose a digit. */
  lemma {:induction false} MoreIsLonger(f: Facts, count: nat, width: string -> nat)
    requires count < Available(f) && Quotes(width)
    ensures FactWidth(f, count, width) < FactWidth(f, count + 1, width)
  {
    OneMoreDigit(Omitted(f, count + 1));
    if count < |f.labels| {
      assert EntryWidth(f.labels[count], width) >= 5;
    } else {
      assert EntryWidth(f.notes[count - |f.labels|], width) >= 5;
    }
  }

  lemma {:induction false} LongerAllAlong(f: Facts, a: nat, b: nat, width: string -> nat)
    requires a < b <= Available(f) && Quotes(width)
    ensures FactWidth(f, a, width) < FactWidth(f, b, width)
    decreases b
  {
    MoreIsLonger(f, b - 1, width);
    if a < b - 1 { LongerAllAlong(f, a, b - 1, width); }
  }

  /** `alert_context`: the longest prefix that fits, and everything left out counted. */
  method Choose(f: Facts, width: string -> nat) returns (count: nat, omitted: nat)
    requires Quotes(width)
    ensures count <= Available(f) && count + omitted == Available(f) + f.collided
    ensures forall c: nat :: 0 < c <= Available(f) ==> (FactWidth(f, c, width) <= TOTAL_CHARS <==> c <= count)
    ensures FactWidth(f, count, width) <= TOTAL_CHARS <==> FactWidth(f, 0, width) <= TOTAL_CHARS
  {
    count := 0;
    while count < Available(f) && FactWidth(f, count + 1, width) <= TOTAL_CHARS
      invariant count <= Available(f) && (count > 0 ==> FactWidth(f, count, width) <= TOTAL_CHARS)
    {
      count := count + 1;
    }
    forall c: nat | 0 < c <= Available(f) ensures FactWidth(f, c, width) <= TOTAL_CHARS <==> c <= count {
      if c < count { LongerAllAlong(f, c, count, width); }
      if count + 1 < c { LongerAllAlong(f, count + 1, c, width); }
    }
    if count > 0 { LongerAllAlong(f, 0, count, width); }
    omitted := Omitted(f, count);
  }

  function Pow10(k: nat): (p: nat)
    ensures 1 <= p
  {
    if k == 0 then 1 else 10 * Pow10(k - 1)
  }

  lemma {:induction false} DigitsExactly(n: nat, k: nat)
    requires 1 <= k
    ensures Digits(n) <= k <==> n < Pow10(k)
    decreases n
  {
    if k == 1 {
      assert Pow10(1) == 10 * Pow10(0);
    } else if n < 10 {
      assert Pow10(k) >= 10;
    } else {
      DigitsExactly(n / 10, k - 1);
    }
  }

  /** The empty fact has room for the number omitted exactly below this many entries. */
  const MOST_ENTRIES_DIGITS: nat := 8134

  /** When the empty fact fits: unless the number of entries alone fills the budget. */
  lemma {:induction false} EmptyFits(f: Facts, width: string -> nat)
    ensures FactWidth(f, 0, width) <= TOTAL_CHARS <==> Available(f) + f.collided < Pow10(MOST_ENTRIES_DIGITS)
  {
    DigitsExactly(Omitted(f, 0), MOST_ENTRIES_DIGITS);
  }

  /** What is told of two maps: of each its kept entries, labels first, as many as fit. */
  ghost predicate IsContext(
      labels: seq<Entry>, notes: seq<Entry>, width: string -> nat, f: Facts, keptLabels: seq<Entry>, keptNotes: seq<Entry>)
  {
    && IsKept(labels, f.labels) && IsKept(notes, f.notes) && (f.cut <==> AnyCut(labels) || AnyCut(notes))
    && Available(f) + f.collided == |labels| + |notes|
    && keptLabels <= f.labels && keptNotes <= f.notes && (keptNotes != [] ==> keptLabels == f.labels)
    && forall c: nat :: 0 < c <= Available(f) ==>
         (FactWidth(f, c, width) <= TOTAL_CHARS <==> c <= |keptLabels| + |keptNotes|)
  }

  /** From two maps to the fact: kept entries and the number omitted add up to the raw entries, and
      the fact fits its budget unless the number of entries has more than 8134 digits. */
  method Context(labels: seq<Entry>, notes: seq<Entry>, width: string -> nat)
    returns (f: Facts, keptLabels: seq<Entry>, keptNotes: seq<Entry>, omitted: nat)
    requires RawDistinct(labels) && RawDistinct(notes) && Quotes(width)
    ensures |keptLabels| + |keptNotes| + omitted == |labels| + |notes|
    ensures IsContext(labels, notes, width, f, keptLabels, keptNotes)
    ensures FactWidth(f, |keptLabels| + |keptNotes|, width) <= TOTAL_CHARS <==> |labels| + |notes| < Pow10(MOST_ENTRIES_DIGITS)
  {
    var allLabels, cutLabels, collidedLabels := ContextEntries(labels);
    var allNotes, cutNotes, collidedNotes := ContextEntries(notes);
    f := Facts(allLabels, allNotes, collidedLabels + collidedNotes, cutLabels || cutNotes);
    var count;
    count, omitted := Choose(f, width);
    EmptyFits(f, width);
    var n := if count <= |allLabels| then count else |allLabels|;
    keptLabels, keptNotes := allLabels[..n], allNotes[..count - n];
  }

  /** The whole fact, counts and flag included, does not depend on the order the maps are visited in. */
  lemma {:induction false} OrderDoesNotMatter(
      labels: seq<Entry>, notes: seq<Entry>, f: Facts, l: seq<Entry>, n: seq<Entry>,
      labels': seq<Entry>, notes': seq<Entry>, f': Facts, l': seq<Entry>, n': seq<Entry>, width: string -> nat)
    requires RawDistinct(labels) && RawDistinct(labels') && forall e :: e in labels <==> e in labels'
    requires RawDistinct(notes) && RawDistinct(notes') && forall e :: e in notes <==> e in notes'
    requires IsContext(labels, notes, width, f, l, n) && IsContext(labels', notes', width, f', l', n')
    ensures f == f' && l == l' && n == n'
    ensures Omitted(f, |l| + |n|) == Omitted(f', |l'| + |n'|)
  {
    KeptInAnyOrder(labels, labels', f.labels, f'.labels);
    KeptInAnyOrder(notes, notes', f.notes, f'.notes);
    SameLength(labels, labels');
    SameLength(notes, notes');
    assert f == f';
    SameCount(f, width, |l| + |n|, |l'| + |n'|);
    SamePrefixes(f, l, n, l', n');
  }

  lemma {:induction false} SameCount(f: Facts, width: string -> nat, a: nat, b: nat)
    requires a <= Available(f) && b <= Available(f)
    requires forall c: nat :: 0 < c <= Available(f) ==> (FactWidth(f, c, width) <= TOTAL_CHARS <==> c <= a)
    requires forall c: nat :: 0 < c <= Available(f) ==> (FactWidth(f, c, width) <= TOTAL_CHARS <==> c <= b)
    ensures a == b
  {
    var atA, atB := FactWidth(f, a, width), FactWidth(f, b, width);
  }

  lemma {:induction false} SamePrefixes(f: Facts, l: seq<Entry>, n: seq<Entry>, l': seq<Entry>, n': seq<Entry>)
    requires l <= f.labels && n <= f.notes && (n != [] ==> l == f.labels)
    requires l' <= f.labels && n' <= f.notes && (n' != [] ==> l' == f.labels)
    requires |l| + |n| == |l'| + |n'|
    ensures l == l' && n == n'
  {
    assert |l| == |l'|;
  }
}
