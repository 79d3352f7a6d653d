// Rewriting a JSON payload, as a recursive definition over the tree.

module PayloadTree {
  import opened Outcomes
  import opened ValueScanner
  import opened RedactionRules

  /** An object key: text, or something JSON writes as text. */
  datatype Key = Name(text: string) | Other(text: string)

  datatype Json = Null | Scalar(id: nat) | Text(text: string) | Arr(tuple: bool, items: seq<Json>) | Obj(entries: seq<Entry>)

  datatype Entry = Entry(key: Key, item: Json)

  /** How prose is redacted, and which keys name a credential. */
  datatype Rules = Rules(redact: string -> string, secret: string -> bool)

  predicate IsContainer(v: Json) { v.Arr? || v.Obj? }

  function Count(v: Json): nat {
    if v.Arr? then |v.items| else if v.Obj? then |v.entries| else 0
  }

  function ItemAt(v: Json, j: nat): (item: Json)
    requires j < Count(v)
    ensures item < v
  {
    if v.Arr? then v.items[j] else v.entries[j].item
  }

  /** The value stands under a credential's name. */
  predicate Hidden(v: Json, j: nat, rules: Rules)
    requires j < Count(v)
  {
    v.Obj? && rules.secret(v.entries[j].key.text) && ItemAt(v, j) != Null
  }

  // ------------------------------------------------ names

  function Decimal(n: nat): string {
    if n < 10 then [(('0' as int) + n) as char] else Decimal(n / 10) + [(('0' as int) + n % 10) as char]
  }

  function Number(digits: string): int {
    if digits == [] then 0 else Number(digits[..|digits| - 1]) * 10 + (digits[|digits| - 1] as int - '0' as int)
  }

  lemma {:induction false} NumberOfDecimal(n: nat)
    ensures Number(Decimal(n)) == n
  {
    if n < 10 {
      assert Decimal(n)[..0] == [];
    } else {
      NumberOfDecimal(n / 10);
      assert Decimal(n)[..|Decimal(n)| - 1] == Decimal(n / 10);
    }
  }

  function Suffixed(base: string, k: nat): string { base + "#" + Decimal(k) }

  lemma {:induction false} SuffixesDiffer(base: string, j: nat, k: nat)
    requires Suffixed(base, j) == Suffixed(base, k)
    ensures j == k
  {
    assert Suffixed(base, j)[|base| + 1..] == Decimal(j) && Suffixed(base, k)[|base| + 1..] == Decimal(k);
    NumberOfDecimal(j);
    NumberOfDecimal(k);
  }

  /** The taken names that carry a suffix of `k` or more. */
  ghost function TakenFrom(base: string, k: nat, taken: seq<string>): set<string> {
    set x | x in taken && HasSuffixFrom(base, k, x)
  }

  ghost predicate HasSuffixFrom(base: string, k: nat, x: string) {
    exists j: nat :: k <= j && x == Suffixed(base, j)
  }

  lemma {:induction false} OneTakenLess(base: string, k: nat, taken: seq<string>)
    requires Suffixed(base, k) in taken
    ensures TakenFrom(base, k + 1, taken) < TakenFrom(base, k, taken)
  {
    var x := Suffixed(base, k);
    assert HasSuffixFrom(base, k, x) && x in TakenFrom(base, k, taken);
    if HasSuffixFrom(base, k + 1, x) {
      var j: nat :| k + 1 <= j && x == Suffixed(base, j);
      SuffixesDiffer(base, j, k);
    }
    forall y | y in TakenFrom(base, k + 1, taken) ensures y in TakenFrom(base, k, taken) {
      var j: nat :| k + 1 <= j && y == Suffixed(base, j);
      assert HasSuffixFrom(base, k, y);
    }
  }

  /** The least free suffix from `k` on. There is one, since only finitely many names are taken. */
  function FreeSuffix(base: string, k: nat, taken: seq<string>): (free: nat)
    ensures k <= free && Suffixed(base, free) !in taken
    ensures forall j :: k <= j < free ==> Suffixed(base, j) in taken
    decreases TakenFrom(base, k, taken)
  {
    if Suffixed(base, k) !in taken then k
    else
      OneTakenLess(base, k, taken);
      FreeSuffix(base, k + 1, taken)
  }

  function FreeName(base: string, taken: seq<string>): (name: string)
    ensures name !in taken
  {
    if base !in taken then base else Suffixed(base, FreeSuffix(base, 2, taken))
  }

  /** The names the first `n` entries get, each kept apart from those before it. */
  function NamesOf(entries: seq<Entry>, n: nat, rules: Rules): (names: seq<string>)
    requires n <= |entries|
    ensures |names| == n
  {
    if n == 0 then []
    else
      var taken := NamesOf(entries, n - 1, rules);
      taken + [FreeName(rules.redact(entries[n - 1].key.text), taken)]
  }

  lemma {:induction false} NamesKept(entries: seq<Entry>, m: nat, n: nat, rules: Rules)
    requires m <= n <= |entries|
    ensures NamesOf(entries, n, rules)[..m] == NamesOf(entries, m, rules)
    decreases n
  {
    if m < n { NamesKept(entries, m, n - 1, rules); }
  }

  /** Keys that redact alike stay apart. */
  lemma {:induction false} NamesDistinct(entries: seq<Entry>, n: nat, i: nat, j: nat, rules: Rules)
    requires i < j < n <= |entries|
    ensures NamesOf(entries, n, rules)[i] != NamesOf(entries, n, rules)[j]
  {
    NamesKept(entries, j, n, rules);
    NamesKept(entries, j + 1, n, rules);
    assert NamesOf(entries, n, rules)[..j][i] == NamesOf(entries, n, rules)[i];
    assert NamesOf(entries, n, rules)[..j + 1][j] == NamesOf(entries, n, rules)[j];
    assert NamesOf(entries, j + 1, rules)[j] !in NamesOf(entries, j, rules);
  }

  // ------------------------------------------------ the rewrite

  function Rewrite(v: Json, rules: Rules): Json
    decreases v, 1
  {
    match v
    case Text(text) => Text(rules.redact(text))
    case Arr(_, items) =>
      Arr(false, seq(|items|, j requires 0 <= j < |items| => RewriteItem(v, j, rules)))
    case Obj(entries) =>
      var names := NamesOf(entries, |entries|, rules);
      Obj(seq(|entries|, j requires 0 <= j < |entries| => Entry(Name(names[j]), RewriteItem(v, j, rules))))
    case _ => v
  }

  function RewriteItem(v: Json, j: nat, rules: Rules): Json
    requires j < Count(v)
    decreases v, 0
  {
    if Hidden(v, j, rules) then Text(MARKER) else Rewrite(ItemAt(v, j), rules)
  }

  /** A key's name is its redacted text, or where that is taken the first free of its text with `#2`,
      `#3` and so on behind it. */
  lemma {:induction false} NameIs(entries: seq<Entry>, j: nat, n: nat, rules: Rules)
    requires j < n <= |entries|
    ensures var base, names := rules.redact(entries[j].key.text), NamesOf(entries, n, rules);
            var taken := names[..j];
            if base !in taken then names[j] == base
            else exists k: nat {:trigger Decimal(k)} :: 2 <= k && names[j] == base + "#" + Decimal(k)
                   && forall i: nat {:trigger Decimal(i)} :: 2 <= i < k ==> base + "#" + Decimal(i) in taken
  {
    var base := rules.redact(entries[j].key.text);
    NamesKept(entries, j, n, rules);
    NamesKept(entries, j + 1, n, rules);
    var taken := NamesOf(entries, j, rules);
    assert NamesOf(entries, n, rules)[..j + 1][j] == NamesOf(entries, n, rules)[j];
    if base in taken {
      var k := FreeSuffix(base, 2, taken);
      assert NamesOf(entries, n, rules)[j] == base + "#" + Decimal(k);
      forall i: nat | 2 <= i < k ensures base + "#" + Decimal(i) in taken { assert Suffixed(base, i) in taken; }
    }
  }

  /** Lengths, order and entry counts stay, and names stay apart; every value but null under a
      credential's name is the marker, any other text is redacted, any other container rewritten in
      its turn, and nothing else is touched. */
  lemma {:induction false} RewriteKeepsShape(v: Json, rules: Rules)
    requires IsContainer(v)
    ensures v.Arr? <==> Rewrite(v, rules).Arr?
    ensures Count(Rewrite(v, rules)) == Count(v)
    ensures v.Arr? ==> forall j :: 0 <= j < |v.items| ==> Rewrite(v, rules).items[j] == Rewrite(v.items[j], rules)
    ensures v.Obj? ==> forall j :: 0 <= j < |v.entries| ==>
              Rewrite(v, rules).entries[j].item ==
                if rules.secret(v.entries[j].key.text) && v.entries[j].item != Null then Text(MARKER)
                else Rewrite(v.entries[j].item, rules)
    ensures v.Obj? ==> forall i, j :: 0 <= i < j < |v.entries| ==>
              Rewrite(v, rules).entries[i].key != Rewrite(v, rules).entries[j].key
  {
    if v.Obj? {
      forall i, j | 0 <= i < j < |v.entries|
        ensures Rewrite(v, rules).entries[i].key != Rewrite(v, rules).entries[j].key
      {
        NamesDistinct(v.entries, |v.entries|, i, j, rules);
      }
    }
  }

  lemma {:induction false} RewriteAtLeaf(v: Json, rules: Rules)
    requires !IsContainer(v)
    ensures Rewrite(v, rules) == if v.Text? then Text(rules.redact(v.text)) else v
  {
  }

  // ------------------------------------------------ whether anything changes

  /** What one entry changes by itself, not counting what its value, a container, changes inside. */
  predicate ChangesHere(v: Json, j: nat, rules: Rules)
    requires j < Count(v)
  {
    || (v.Obj? && (v.entries[j].key.Other?
                   || rules.redact(v.entries[j].key.text) != v.entries[j].key.text
                   || rules.redact(v.entries[j].key.text) in NamesOf(v.entries, j, rules)))
    || ValueChanges(v, j, rules)
  }

  predicate ValueChanges(v: Json, j: nat, rules: Rules)
    requires j < Count(v)
  {
    if Hidden(v, j, rules) then ItemAt(v, j) != Text(MARKER)
    else ItemAt(v, j).Text? && rules.redact(ItemAt(v, j).text) != ItemAt(v, j).text
  }

  /** The entry's value is walked in its turn. */
  predicate Descends(v: Json, j: nat, rules: Rules)
    requires j < Count(v)
  {
    !Hidden(v, j, rules) && IsContainer(ItemAt(v, j))
  }

  predicate ChangesFrom(v: Json, k: nat, rules: Rules)
    requires k <= Count(v)
    decreases v, Count(v) - k
  {
    k < Count(v) &&
    (ChangesHere(v, k, rules) || (Descends(v, k, rules) && ChangesFrom(ItemAt(v, k), 0, rules)) || ChangesFrom(v, k + 1, rules))
  }

  /** The same payload with every tuple a list. */
  function AsLists(v: Json): Json {
    match v
    case Arr(_, items) => Arr(false, seq(|items|, j requires 0 <= j < |items| => AsLists(items[j])))
    case Obj(entries) =>
      Obj(seq(|entries|, j requires 0 <= j < |entries| => Entry(entries[j].key, AsLists(entries[j].item))))
    case _ => v
  }

  lemma {:induction false} NoChangeAt(v: Json, k: nat, j: nat, rules: Rules)
    requires k <= j < Count(v) && !ChangesFrom(v, k, rules)
    ensures !ChangesHere(v, j, rules)
    ensures Descends(v, j, rules) ==> !ChangesFrom(ItemAt(v, j), 0, rules)
    decreases j - k
  {
    if k < j { NoChangeAt(v, k + 1, j, rules); }
  }

  lemma {:induction false} UnchangedName(entries: seq<Entry>, j: nat, rules: Rules)
    requires j < |entries| && entries[j].key.Name?
    requires rules.redact(entries[j].key.text) == entries[j].key.text
    requires rules.redact(entries[j].key.text) !in NamesOf(entries, j, rules)
    ensures Name(NamesOf(entries, |entries|, rules)[j]) == entries[j].key
  {
    NamesKept(entries, j + 1, |entries|, rules);
    assert NamesOf(entries, |entries|, rules)[..j + 1][j] == NamesOf(entries, |entries|, rules)[j];
  }

  /** A walk that changed nothing is the identity, tuples aside. */
  lemma {:induction false} UnchangedIsIdentity(v: Json, rules: Rules)
    requires IsContainer(v) && !ChangesFrom(v, 0, rules)
    ensures Rewrite(v, rules) == AsLists(v)
    decreases v
  {
    forall j: nat | j < Count(v) ensures RewriteItem(v, j, rules) == AsLists(ItemAt(v, j)) {
      NoChangeAt(v, 0, j, rules);
      if Descends(v, j, rules) { UnchangedIsIdentity(ItemAt(v, j), rules); }
    }
    if v.Obj? {
      forall j | 0 <= j < |v.entries|
        ensures Name(NamesOf(v.entries, |v.entries|, rules)[j]) == v.entries[j].key
      {
        NoChangeAt(v, 0, j, rules);
        UnchangedName(v.entries, j, rules);
      }
    }
  }

  // ------------------------------------------------ a change reported where there is none

  /** In some walked object a key redacts to a name that is already taken. */
  predicate ClashesFrom(v: Json, k: nat, rules: Rules)
    requires k <= Count(v)
    decreases v, Count(v) - k
  {
    k < Count(v) &&
    (Clash(v, k, rules) || (Descends(v, k, rules) && ClashesFrom(ItemAt(v, k), 0, rules)) || ClashesFrom(v, k + 1, rules))
  }

  predicate Clash(v: Json, j: nat, rules: Rules)
    requires j < Count(v)
  {
    v.Obj? && rules.redact(v.entries[j].key.text) in NamesOf(v.entries, j, rules)
  }

  lemma {:induction false} ClashChanges(v: Json, k: nat, rules: Rules)
    requires k <= Count(v) && ClashesFrom(v, k, rules)
    ensures ChangesFrom(v, k, rules)
    decreases v, Count(v) - k
  {
    if !Clash(v, k, rules) {
      if Descends(v, k, rules) && ClashesFrom(ItemAt(v, k), 0, rules) {
        ClashChanges(ItemAt(v, k), 0, rules);
      } else {
        ClashChanges(v, k + 1, rules);
      }
    }
  }

  lemma {:induction false} SameValue(v: Json, j: nat, rules: Rules)
    requires j < Count(v) && RewriteItem(v, j, rules) == AsLists(ItemAt(v, j))
    ensures !ValueChanges(v, j, rules)
    ensures Descends(v, j, rules) ==> Rewrite(ItemAt(v, j), rules) == AsLists(ItemAt(v, j))
  {
    var item := ItemAt(v, j);
    if IsContainer(item) { assert IsContainer(AsLists(item)); } else { assert AsLists(item) == item; }
  }

  lemma {:induction false} SameKey(entries: seq<Entry>, j: nat, rules: Rules)
    requires j < |entries| && rules.redact(entries[j].key.text) !in NamesOf(entries, j, rules)
    requires Name(NamesOf(entries, |entries|, rules)[j]) == entries[j].key
    ensures entries[j].key.Name? && rules.redact(entries[j].key.text) == entries[j].key.text
  {
    NamesKept(entries, j + 1, |entries|, rules);
    assert NamesOf(entries, |entries|, rules)[..j + 1][j] == NamesOf(entries, |entries|, rules)[j];
  }

  /** Without a clash, an entry that comes out as it went in changes nothing by itself. */
  lemma {:induction false} SameEntryNoChange(v: Json, j: nat, rules: Rules)
    requires IsContainer(v) && Rewrite(v, rules) == AsLists(v) && j < Count(v) && !Clash(v, j, rules)
    ensures !ChangesHere(v, j, rules)
    ensures Descends(v, j, rules) ==> Rewrite(ItemAt(v, j), rules) == AsLists(ItemAt(v, j))
  {
    assert ItemAt(Rewrite(v, rules), j) == RewriteItem(v, j, rules);
    assert ItemAt(AsLists(v), j) == AsLists(ItemAt(v, j));
    SameValue(v, j, rules);
    if v.Obj? {
      assert Rewrite(v, rules).entries[j].key == Name(NamesOf(v.entries, |v.entries|, rules)[j]);
      assert AsLists(v).entries[j].key == v.entries[j].key;
      SameKey(v.entries, j, rules);
    }
  }

  lemma {:induction false} SameNoChange(v: Json, k: nat, rules: Rules)
    requires IsContainer(v) && Rewrite(v, rules) == AsLists(v) && k <= Count(v) && !ClashesFrom(v, k, rules)
    ensures !ChangesFrom(v, k, rules)
    decreases v, Count(v) - k
  {
    if k < Count(v) {
      SameEntryNoChange(v, k, rules);
      if Descends(v, k, rules) { SameNoChange(ItemAt(v, k), 0, rules); }
      SameNoChange(v, k + 1, rules);
    }
  }

  /** Exactly when the walk reports a change: the rewrite differs, or some key met a taken name. */
  lemma {:induction false} ReportedChange(v: Json, rules: Rules)
    requires IsContainer(v)
    ensures ChangesFrom(v, 0, rules) <==> Rewrite(v, rules) != AsLists(v) || ClashesFrom(v, 0, rules)
  {
    if !ChangesFrom(v, 0, rules) { UnchangedIsIdentity(v, rules); }
    if ClashesFrom(v, 0, rules) { ClashChanges(v, 0, rules); }
    else if Rewrite(v, rules) == AsLists(v) { SameNoChange(v, 0, rules); }
  }

  const PLAIN: string := "password=" + ['"'] + MARKER + ['"']
  const TRAILED: string := PLAIN + "#2"

  lemma {:induction false} PlainStringEnds(t: string, i: nat, end: nat)
    requires i <= end < |t| && t[end] == '"'
    requires forall k :: i <= k < end ==> t[k] != '"' && t[k] != '\\' && t[k] != '\n'
    ensures LineStringEnd(t, i, '"') == Some(end + 1)
    decreases end - i
  {
    if i < end { PlainStringEnds(t, i + 1, end); }
  }

  lemma {:induction false} MarkerIsPlain(k: nat)
    requires k < |MARKER|
    ensures MARKER[k] != '"' && MARKER[k] != '\\' && MARKER[k] != '\n'
  {
    assert MARKER == ['[', 'R', 'E', 'D', 'A', 'C', 'T', 'E', 'D', '_', 'C', 'R', 'E', 'D', 'E', 'N', 'T', 'I', 'A', 'L', ']'];
  }

  /** A quoted marker at 9 is redacted to itself, with whatever is glued to it. */
  lemma {:induction false} QuotedMarkerRedacts(t: string)
    requires PLAIN <= t
    ensures Redacts(t, 9) == Some(Redaction(['"'] + MARKER + ['"'], TailRun(t, |PLAIN|)))
    ensures t[..9] + ['"'] + MARKER + ['"'] == PLAIN
  {
    var n := |MARKER|;
    assert n > 0 && MARKER[0] == '[' && |PLAIN| == n + 11;
    assert forall k :: 0 <= k < |PLAIN| ==> t[k] == PLAIN[k];
    assert t[9] == '"' && t[n + 10] == '"' && t[10] == PLAIN[10] == '[';
    forall k | 10 <= k < n + 10 ensures t[k] != '"' && t[k] != '\\' && t[k] != '\n' {
      assert t[k] == PLAIN[k] == MARKER[k - 10];
      MarkerIsPlain(k - 10);
    }
    PlainStringEnds(t, 10, n + 10);
    assert t[9..9 + n][0] == '"';
    assert t[..9] == "password=";
  }

  /** The value rule takes the trailing text for part of the quoted value: behind the same name both
      keys redact to the plain one. */
  lemma {:induction false} BothRedactToPlain()
    ensures Redacts(TRAILED, 9) == Some(Redaction(['"'] + MARKER + ['"'], |TRAILED|))
    ensures Redacts(PLAIN, 9) == Some(Redaction(['"'] + MARKER + ['"'], |PLAIN|))
    ensures TRAILED[..9] + ['"'] + MARKER + ['"'] == PLAIN && PLAIN[..9] + ['"'] + MARKER + ['"'] == PLAIN
  {
    QuotedMarkerRedacts(PLAIN);
    QuotedMarkerRedacts(TRAILED);
    var n := |PLAIN|;
    assert TRAILED[n] == '#' && TRAILED[n + 1] == '2';
    assert ValueRun(TRAILED, n + 2, [], None, JSON_STOPS) == n + 2;
    assert ValueRun(TRAILED, n + 1, [], None, JSON_STOPS) == n + 2;
  }

  const TWIN: Json := Obj([Entry(Name(PLAIN), Null), Entry(Name(TRAILED), Null)])

  /** Prose redaction as it is on these two keys. */
  const TRIMMING: Rules := Rules((s: string) => if s == TRAILED then PLAIN else s, (s: string) => s == PLAIN || s == TRAILED)

  /** A key that redacts to a taken name can be given back its own spelling: a change is reported
      although the rewrite is the value itself. */
  lemma {:induction false} ReportedWithoutChange()
    ensures ChangesFrom(TWIN, 0, TRIMMING) && Rewrite(TWIN, TRIMMING) == TWIN && AsLists(TWIN) == TWIN
  {
    var entries := TWIN.entries;
    assert NamesOf(entries, 0, TRIMMING) == [];
    assert NamesOf(entries, 1, TRIMMING) == [PLAIN];
    assert Decimal(2) == "2" && "#" + "2" == "#2" && PLAIN + "#" + "2" == PLAIN + ("#" + "2");
    assert Suffixed(PLAIN, 2) == TRAILED != PLAIN;
    assert FreeSuffix(PLAIN, 2, [PLAIN]) == 2;
    assert NamesOf(entries, 2, TRIMMING) == [PLAIN, TRAILED];
    assert ChangesHere(TWIN, 1, TRIMMING);
    assert ChangesFrom(TWIN, 1, TRIMMING);
    var names := NamesOf(entries, |entries|, TRIMMING);
    assert |entries| == 2 && names[0] == PLAIN && names[1] == TRAILED;
    forall j | 0 <= j < 2 ensures Rewrite(TWIN, TRIMMING).entries[j] == entries[j] {
      assert ItemAt(TWIN, j) == Null && RewriteItem(TWIN, j, TRIMMING) == Null;
    }
    assert Rewrite(TWIN, TRIMMING).entries == entries;
    assert AsLists(TWIN).entries == entries;
  }
}
