// The payload rewrite as it runs: an explicit stack of sources, each with the destination to fill.

module PayloadRedaction {
  import opened RedactionRules
  import opened PayloadTree

  // ------------------------------------------------ destinations

  /** A finished value, or a destination that is filled in its own turn. */
  datatype Slot = Leaf(value: Json) | Child(id: nat)

  /** A dictionary or list under construction; destinations are named by their place in the arena. */
  datatype Dest = Dest(isObj: bool, names: seq<string>, slots: seq<Slot>)

  type Arena = seq<Dest>

  ghost predicate Linked(arena: Arena) {
    forall id {:trigger arena[id]} :: 0 <= id < |arena| ==>
      && (arena[id].isObj ==> |arena[id].names| == |arena[id].slots|)
      && forall j {:trigger arena[id].slots[j]} :: 0 <= j < |arena[id].slots| && arena[id].slots[j].Child? ==>
           id < arena[id].slots[j].id < |arena|
  }

  /** The value a destination holds. */
  function Build(arena: Arena, id: nat): Json
    requires Linked(arena) && id < |arena|
    decreases |arena| - id, 1
  {
    var d := arena[id];
    if d.isObj then Obj(seq(|d.slots|, j requires 0 <= j < |d.slots| => Entry(Name(d.names[j]), BuildSlot(arena, id, j))))
    else Arr(false, seq(|d.slots|, j requires 0 <= j < |d.slots| => BuildSlot(arena, id, j)))
  }

  function BuildSlot(arena: Arena, id: nat, j: nat): Json
    requires Linked(arena) && id < |arena| && j < |arena[id].slots|
    decreases |arena| - id, 0
  {
    match arena[id].slots[j]
    case Leaf(value) => value
    case Child(c) => Build(arena, c)
  }

  // ------------------------------------------------ what the arena holds of its sources

  /** Slot `j` of `id` is what the rewrite makes of item `j`, or the destination of that very item. */
  ghost predicate SlotOk(arena: Arena, src: seq<Json>, id: nat, j: nat, rules: Rules)
    requires id < |arena| && id < |src| && j < |arena[id].slots| && j < Count(src[id])
  {
    if Descends(src[id], j, rules) then
      && arena[id].slots[j].Child? && id < arena[id].slots[j].id < |src|
      && src[arena[id].slots[j].id] == ItemAt(src[id], j)
    else arena[id].slots[j] == Leaf(RewriteItem(src[id], j, rules))
  }

  /** A destination holds its source's first items, under their names. */
  ghost predicate Filled(arena: Arena, src: seq<Json>, id: nat, rules: Rules)
    requires id < |arena| && id < |src|
  {
    && IsContainer(src[id]) && arena[id].isObj == src[id].Obj?
    && |arena[id].slots| <= Count(src[id])
    && (arena[id].isObj ==> arena[id].names == NamesOf(src[id].entries, |arena[id].slots|, rules))
    && forall j {:trigger arena[id].slots[j]} :: 0 <= j < |arena[id].slots| ==> SlotOk(arena, src, id, j, rules)
  }

  ghost predicate AllFilled(arena: Arena, src: seq<Json>, rules: Rules) {
    && |arena| == |src|
    && forall id {:trigger arena[id]} {:trigger Filled(arena, src, id, rules)} :: 0 <= id < |arena| ==>
         Filled(arena, src, id, rules)
  }

  lemma {:induction false} FilledIsLinked(arena: Arena, src: seq<Json>, rules: Rules)
    requires AllFilled(arena, src, rules)
    ensures Linked(arena)
  {
  }

  ghost predicate Whole(arena: Arena, src: seq<Json>, id: nat) {
    id < |arena| && id < |src| && |arena[id].slots| == Count(src[id])
  }

  /** Once every destination is whole, each holds the rewrite of its source. */
  lemma {:induction false} BuildIsRewrite(arena: Arena, src: seq<Json>, id: nat, rules: Rules)
    requires AllFilled(arena, src, rules) && Linked(arena) && id < |arena|
    requires forall x: nat {:trigger Whole(arena, src, x)} :: x < |arena| ==> Whole(arena, src, x)
    ensures Build(arena, id) == Rewrite(src[id], rules)
    decreases |arena| - id
  {
    assert Filled(arena, src, id, rules) && Whole(arena, src, id);
    forall j: nat | j < Count(src[id]) ensures BuildSlot(arena, id, j) == RewriteItem(src[id], j, rules) {
      assert SlotOk(arena, src, id, j, rules);
      if Descends(src[id], j, rules) { BuildIsRewrite(arena, src, arena[id].slots[j].id, rules); }
    }
  }

  // ------------------------------------------------ a free name, found faster

  /** The suffixes up to `k` of a base that is itself taken are all taken. */
  ghost predicate TakenUpTo(base: string, k: nat, names: seq<string>) {
    1 <= k && base in names && forall j: nat {:trigger Suffixed(base, j)} :: 2 <= j <= k ==> Suffixed(base, j) in names
  }

  lemma {:induction false} FreeSuffixFrom(base: string, k: nat, names: seq<string>)
    requires 2 <= k && Suffixed(base, k) !in names
    requires forall j: nat {:trigger Suffixed(base, j)} :: 2 <= j < k ==> Suffixed(base, j) in names
    ensures FreeSuffix(base, 2, names) == k
  {
  }

  /** The search for a suffix, resumed where the last one for the same base ended. */
  method FindName(base: string, names: seq<string>, start: nat) returns (name: string, suffix: nat)
    requires TakenUpTo(base, start, names)
    ensures name == FreeName(base, names) && TakenUpTo(base, suffix, names + [name])
  {
    suffix, name := start, base;
    while name in names
      invariant start <= suffix && (name == Suffixed(base, suffix) || (name == base && suffix == start))
      invariant name == Suffixed(base, suffix) ==>
                  2 <= suffix && forall j: nat {:trigger Suffixed(base, j)} :: 2 <= j < suffix ==> Suffixed(base, j) in names
      decreases if name == Suffixed(base, suffix) then 0 else 1, TakenFrom(base, suffix, names)
    {
      if name == Suffixed(base, suffix) { OneTakenLess(base, suffix, names); }
      suffix := suffix + 1;
      name := Suffixed(base, suffix);
    }
    FreeSuffixFrom(base, suffix, names);
    assert (names + [name])[|names|] == name;
  }

  // ------------------------------------------------ filling one slot

  /** `d` gets one more slot, under `name` if it is a dictionary. */
  function Put(arena: Arena, d: nat, name: string, slot: Slot): (next: Arena)
    requires d < |arena|
    ensures |next| == |arena|
  {
    arena[d := Dest(arena[d].isObj, if arena[d].isObj then arena[d].names + [name] else arena[d].names,
                    arena[d].slots + [slot])]
  }

  function Empty(source: Json): Dest { Dest(source.Obj?, [], []) }

  ghost predicate SlotFits(src: seq<Json>, d: nat, j: nat, slot: Slot, rules: Rules)
    requires d < |src| && j < Count(src[d])
  {
    if Descends(src[d], j, rules) then slot.Child? && d < slot.id < |src| && src[slot.id] == ItemAt(src[d], j)
    else slot == Leaf(RewriteItem(src[d], j, rules))
  }

  lemma {:induction false} ExtendFilled(arena: Arena, src: seq<Json>, item: Json, rules: Rules)
    requires AllFilled(arena, src, rules) && IsContainer(item)
    ensures AllFilled(arena + [Empty(item)], src + [item], rules)
  {
    var a, s := arena + [Empty(item)], src + [item];
    forall id | 0 <= id < |a| ensures Filled(a, s, id, rules) {
      if id < |arena| {
        assert Filled(arena, src, id, rules) && a[id] == arena[id] && s[id] == src[id];
        forall j | 0 <= j < |a[id].slots| ensures SlotOk(a, s, id, j, rules) { assert SlotOk(arena, src, id, j, rules); }
      }
    }
  }

  lemma {:induction false} PutFilled(arena: Arena, src: seq<Json>, d: nat, name: string, slot: Slot, rules: Rules)
    requires AllFilled(arena, src, rules) && d < |arena| && |arena[d].slots| < Count(src[d])
    requires SlotFits(src, d, |arena[d].slots|, slot, rules)
    requires src[d].Obj? ==> name == FreeName(rules.redact(src[d].entries[|arena[d].slots|].key.text), arena[d].names)
    ensures AllFilled(Put(arena, d, name, slot), src, rules)
  {
    var a := Put(arena, d, name, slot);
    assert Filled(arena, src, d, rules);
    forall id | 0 <= id < |a| ensures Filled(a, src, id, rules) {
      assert Filled(arena, src, id, rules);
      forall j | 0 <= j < |a[id].slots| ensures SlotOk(a, src, id, j, rules) {
        if j < |arena[id].slots| { assert a[id].slots[j] == arena[id].slots[j]; assert SlotOk(arena, src, id, j, rules); }
      }
    }
  }

  // ------------------------------------------------ remembered suffixes

  type Memo = map<(nat, string), nat>

  ghost predicate MemoOk(memo: Memo, arena: Arena) {
    forall key {:trigger memo[key]} :: key in memo ==> key.0 < |arena| && TakenUpTo(key.1, memo[key], arena[key.0].names)
  }

  lemma {:induction false} MemoStays(memo: Memo, arena: Arena, d: nat, name: string, slot: Slot)
    requires MemoOk(memo, arena) && d < |arena|
    ensures MemoOk(memo, Put(arena, d, name, slot))
  {
  }

  /** The name an entry gets in `d`, and what is remembered about its base. */
  method NameIn(arena: Arena, memo: Memo, d: nat, base: string, ghost slot: Slot) returns (name: string, next: Memo)
    requires d < |arena| && arena[d].isObj && MemoOk(memo, arena)
    ensures name == FreeName(base, arena[d].names) && MemoOk(next, Put(arena, d, name, slot))
  {
    if base !in arena[d].names {
      MemoStays(memo, arena, d, base, slot);
      return base, memo;
    }
    var suffix: nat := if (d, base) in memo then memo[(d, base)] else 1;
    assert TakenUpTo(base, suffix, arena[d].names);
    name, suffix := FindName(base, arena[d].names, suffix);
    MemoStays(memo, arena, d, name, slot);
    next := memo[(d, base) := suffix];
  }

  // ------------------------------------------------ the walk

  datatype Walk = Walk(arena: Arena, stack: seq<(Json, nat)>, memo: Memo, changed: bool)

  /** Some source still waiting will change something. */
  predicate WillChange(stack: seq<(Json, nat)>, rules: Rules) {
    stack != [] && (ChangesFrom(stack[|stack| - 1].0, 0, rules) || WillChange(stack[..|stack| - 1], rules))
  }

  lemma {:induction false} WillChangeWith(stack: seq<(Json, nat)>, top: (Json, nat), rules: Rules)
    ensures WillChange(stack + [top], rules) <==> ChangesFrom(top.0, 0, rules) || WillChange(stack, rules)
  {
  }

  ghost predicate Waiting(stack: seq<(Json, nat)>, id: nat) {
    exists i :: 0 <= i < |stack| && stack[i].1 == id
  }

  /** Every waiting source has its own destination, still empty. */
  ghost predicate StackOk(stack: seq<(Json, nat)>, arena: Arena, src: seq<Json>) {
    && |arena| == |src|
    && (forall i {:trigger stack[i]} :: 0 <= i < |stack| ==>
          stack[i].1 < |src| && src[stack[i].1] == stack[i].0 && arena[stack[i].1].slots == [])
    && (forall i, j {:trigger stack[i], stack[j]} :: 0 <= i < j < |stack| ==> stack[i].1 != stack[j].1)
  }

  /** Every destination but `d` is whole or waits. */
  ghost predicate AllButWhole(stack: seq<(Json, nat)>, arena: Arena, src: seq<Json>, d: nat) {
    forall id: nat {:trigger Whole(arena, src, id)} :: id < |arena| ==> id == d || Waiting(stack, id) || Whole(arena, src, id)
  }

  /** Item `k` of the source of `d` is next. */
  ghost predicate AtItem(w: Walk, src: seq<Json>, d: nat, k: nat, rules: Rules) {
    && AllFilled(w.arena, src, rules) && MemoOk(w.memo, w.arena) && StackOk(w.stack, w.arena, src)
    && d < |w.arena| && !Waiting(w.stack, d) && |w.arena[d].slots| == k <= Count(src[d])
    && AllButWhole(w.stack, w.arena, src, d)
  }

  lemma {:induction false} PutStack(stack: seq<(Json, nat)>, arena: Arena, src: seq<Json>, d: nat, name: string, slot: Slot)
    requires StackOk(stack, arena, src) && d < |arena| && !Waiting(stack, d) && AllButWhole(stack, arena, src, d)
    ensures StackOk(stack, Put(arena, d, name, slot), src) && AllButWhole(stack, Put(arena, d, name, slot), src, d)
  {
    var a := Put(arena, d, name, slot);
    forall id: nat | id < |a| ensures id == d || Waiting(stack, id) || Whole(a, src, id) {
      assert id == d || Waiting(stack, id) || Whole(arena, src, id);
    }
    forall i | 0 <= i < |stack| ensures a[stack[i].1].slots == [] { assert Waiting(stack, stack[i].1); }
  }

  lemma {:induction false} ExtendStack(stack: seq<(Json, nat)>, arena: Arena, src: seq<Json>, d: nat, item: Json)
    requires StackOk(stack, arena, src) && d < |arena| && !Waiting(stack, d) && AllButWhole(stack, arena, src, d)
    ensures StackOk(stack + [(item, |arena|)], arena + [Empty(item)], src + [item])
    ensures !Waiting(stack + [(item, |arena|)], d)
    ensures AllButWhole(stack + [(item, |arena|)], arena + [Empty(item)], src + [item], d)
  {
    var st, a, s := stack + [(item, |arena|)], arena + [Empty(item)], src + [item];
    forall i, j | 0 <= i < j < |st| ensures st[i].1 != st[j].1 { assert st[i] == stack[i]; }
    forall id: nat | id < |a| ensures id == d || Waiting(st, id) || Whole(a, s, id) {
      if id == |arena| {
        assert st[|stack|].1 == id;
      } else {
        assert id == d || Waiting(stack, id) || Whole(arena, src, id);
        if Waiting(stack, id) { var i :| 0 <= i < |stack| && stack[i].1 == id; assert st[i].1 == id; }
      }
    }
    if Waiting(st, d) {
      var i :| 0 <= i < |st| && st[i].1 == d;
      assert false;
    }
  }

  lemma {:induction false} ExtendMemo(memo: Memo, arena: Arena, item: Json)
    requires MemoOk(memo, arena)
    ensures MemoOk(memo, arena + [Empty(item)])
  {
  }

  // ------------------------------------------------ how much is left to walk

  function Size(v: Json): (size: nat)
    ensures 0 < size
    decreases v, Count(v) + 1
  {
    1 + SizeFrom(v, 0)
  }

  function SizeFrom(v: Json, k: nat): nat
    requires k <= Count(v)
    decreases v, Count(v) - k
  {
    if k == Count(v) then 0 else Size(ItemAt(v, k)) + SizeFrom(v, k + 1)
  }

  function Work(stack: seq<(Json, nat)>): nat {
    if stack == [] then 0 else Size(stack[|stack| - 1].0) + Work(stack[..|stack| - 1])
  }

  // ------------------------------------------------ the loops

  /** The slot for item `k`; a container's is a new destination, pushed to be filled later. */
  method MakeSlot(w: Walk, source: Json, d: nat, k: nat, rules: Rules, ghost src: seq<Json>)
    returns (next: Walk, slot: Slot, ghost more: seq<Json>)
    requires AtItem(w, src, d, k, rules) && src[d] == source && k < Count(source)
    ensures AtItem(next, more, d, k, rules) && src <= more && SlotFits(more, d, k, slot, rules)
    ensures next.stack == if Descends(source, k, rules) then w.stack + [(ItemAt(source, k), |w.arena|)] else w.stack
    ensures next.changed <==> w.changed || ValueChanges(source, k, rules)
  {
    var item := ItemAt(source, k);
    next, more := w, src;
    if Hidden(source, k, rules) {
      slot := Leaf(Text(MARKER));
      next := w.(changed := w.changed || item != Text(MARKER));
    } else if item.Text? {
      slot := Leaf(Text(rules.redact(item.text)));
      next := w.(changed := w.changed || rules.redact(item.text) != item.text);
    } else if IsContainer(item) {
      slot := Child(|w.arena|);
      more := src + [item];
      next := w.(arena := w.arena + [Empty(item)], stack := w.stack + [(item, |w.arena|)]);
      ExtendFilled(w.arena, src, item, rules);
      ExtendStack(w.stack, w.arena, src, d, item);
      ExtendMemo(w.memo, w.arena, item);
    } else {
      slot := Leaf(item);
    }
  }

  /** One item of the source goes to its destination. */
  method Place(w: Walk, source: Json, d: nat, k: nat, rules: Rules, ghost src: seq<Json>)
    returns (next: Walk, ghost more: seq<Json>)
    requires AtItem(w, src, d, k, rules) && src[d] == source && k < Count(source)
    ensures AtItem(next, more, d, k + 1, rules) && src <= more
    ensures next.stack == if Descends(source, k, rules) then w.stack + [(ItemAt(source, k), |w.arena|)] else w.stack
    ensures next.changed <==> w.changed || ChangesHere(source, k, rules)
  {
    var slot;
    next, slot, more := MakeSlot(w, source, d, k, rules, src);
    assert Filled(next.arena, more, d, rules);
    var name, memo, changed := "", next.memo, next.changed;
    if source.Obj? {
      var key := source.entries[k].key;
      var base := rules.redact(key.text);
      changed := changed || key.Other? || base != key.text || base in next.arena[d].names;
      name, memo := NameIn(next.arena, next.memo, d, base, slot);
    } else {
      MemoStays(next.memo, next.arena, d, name, slot);
    }
    PutFilled(next.arena, more, d, name, slot, rules);
    PutStack(next.stack, next.arena, more, d, name, slot);
    next := Walk(Put(next.arena, d, name, slot), next.stack, memo, changed);
  }

  lemma {:induction false} PlacedCounts(w: Walk, next: Walk, source: Json, k: nat, id: nat, rules: Rules)
    requires k < Count(source)
    requires next.stack == if Descends(source, k, rules) then w.stack + [(ItemAt(source, k), id)] else w.stack
    requires next.changed <==> w.changed || ChangesHere(source, k, rules)
    ensures next.changed || WillChange(next.stack, rules) || ChangesFrom(source, k + 1, rules) <==>
              w.changed || WillChange(w.stack, rules) || ChangesFrom(source, k, rules)
    ensures Work(next.stack) + SizeFrom(source, k + 1) <= Work(w.stack) + SizeFrom(source, k)
  {
  }

  /** Every item of one source. */
  method Fill(w: Walk, source: Json, d: nat, rules: Rules, ghost src: seq<Json>) returns (next: Walk, ghost more: seq<Json>)
    requires AtItem(w, src, d, 0, rules) && src[d] == source
    ensures AtItem(next, more, d, Count(source), rules) && src <= more
    ensures next.changed || WillChange(next.stack, rules) <==>
              w.changed || WillChange(w.stack, rules) || ChangesFrom(source, 0, rules)
    ensures Work(next.stack) < Work(w.stack) + Size(source)
  {
    next, more := w, src;
    for k := 0 to Count(source)
      invariant AtItem(next, more, d, k, rules) && src <= more
      invariant next.changed || WillChange(next.stack, rules) || ChangesFrom(source, k, rules) <==>
                  w.changed || WillChange(w.stack, rules) || ChangesFrom(source, 0, rules)
      invariant Work(next.stack) + SizeFrom(source, k) <= Work(w.stack) + SizeFrom(source, 0)
    {
      ghost var before := next;
      next, more := Place(next, source, d, k, rules, more);
      PlacedCounts(before, next, source, k, |before.arena|, rules);
    }
  }

  /** With nothing in hand: every destination is whole or waits. */
  ghost predicate Between(w: Walk, src: seq<Json>, rules: Rules) {
    && AllFilled(w.arena, src, rules) && MemoOk(w.memo, w.arena) && StackOk(w.stack, w.arena, src)
    && forall id: nat {:trigger Whole(w.arena, src, id)} :: id < |w.arena| ==> Waiting(w.stack, id) || Whole(w.arena, src, id)
  }

  lemma {:induction false} Pop(w: Walk, src: seq<Json>, rules: Rules)
    requires Between(w, src, rules) && w.stack != []
    ensures var n := |w.stack| - 1;
            AtItem(w.(stack := w.stack[..n]), src, w.stack[n].1, 0, rules) && src[w.stack[n].1] == w.stack[n].0
  {
  }

  lemma {:induction false} Finished(w: Walk, src: seq<Json>, d: nat, rules: Rules)
    requires d < |src| && AtItem(w, src, d, Count(src[d]), rules)
    ensures Between(w, src, rules)
  {
  }

  lemma {:induction false} Start(v: Json, rules: Rules)
    requires IsContainer(v)
    ensures Between(Walk([Empty(v)], [(v, 0)], map[], false), [v], rules)
    ensures WillChange([(v, 0)], rules) <==> ChangesFrom(v, 0, rules)
  {
    assert Waiting([(v, 0)], 0) by { assert [(v, 0)][0].1 == 0; }
    WillChangeWith([], (v, 0), rules);
    assert [] + [(v, 0)] == [(v, 0)];
  }

  lemma {:induction false} PopCounts(stack: seq<(Json, nat)>, rules: Rules)
    requires stack != []
    ensures var n := |stack| - 1;
            && (WillChange(stack, rules) <==> WillChange(stack[..n], rules) || ChangesFrom(stack[n].0, 0, rules))
            && Work(stack) == Work(stack[..n]) + Size(stack[n].0)
  {
  }

  lemma {:induction false} WalkedIsRewrite(w: Walk, src: seq<Json>, rules: Rules)
    requires Between(w, src, rules) && w.stack == [] && src != []
    ensures Linked(w.arena) && Build(w.arena, 0) == Rewrite(src[0], rules)
  {
    forall id: nat | id < |w.arena| ensures Whole(w.arena, src, id) {
      assert Waiting(w.stack, id) || Whole(w.arena, src, id);
    }
    FilledIsLinked(w.arena, src, rules);
    BuildIsRewrite(w.arena, src, 0, rules);
  }

  /** `redact_payload`: the recursive rewrite, or the very value when nothing changes. */
  method RedactPayload(v: Json, rules: Rules) returns (out: Json)
    ensures IsContainer(v) ==> out == if ChangesFrom(v, 0, rules) then Rewrite(v, rules) else v
    ensures !IsContainer(v) ==> out == Rewrite(v, rules)
  {
    if v.Text? { return Text(rules.redact(v.text)); }
    if !IsContainer(v) { return v; }
    var w := Walk([Empty(v)], [(v, 0)], map[], false);
    ghost var src := [v];
    Start(v, rules);
    while w.stack != []
      invariant Between(w, src, rules) && src != [] && src[0] == v
      invariant w.changed || WillChange(w.stack, rules) <==> ChangesFrom(v, 0, rules)
      decreases Work(w.stack)
    {
      var n := |w.stack| - 1;
      var source, d := w.stack[n].0, w.stack[n].1;
      Pop(w, src, rules);
      PopCounts(w.stack, rules);
      w := w.(stack := w.stack[..n]);
      w, src := Fill(w, source, d, rules, src);
      Finished(w, src, d, rules);
    }
    WalkedIsRewrite(w, src, rules);
    out := if w.changed then Build(w.arena, 0) else v;
  }
}
