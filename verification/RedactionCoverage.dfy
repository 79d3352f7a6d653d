// What the rewriting passes examine: every match that does not begin inside something already
// dealt with, and what then becomes of it.

module RedactionCoverage {
  import opened Outcomes
  import opened ValueScanner
  import opened Splicing
  import opened RedactionRules
  import opened ProseRedaction

  ghost predicate InSpan(spans: seq<Span>, i: nat) {
    exists k :: 0 <= k < |spans| && spans[k].from <= i < spans[k].to
  }

  lemma {:induction false} InSpanFirst(first: Span, rest: seq<Span>, i: nat)
    ensures InSpan([first] + rest, i) <==> first.from <= i < first.to || InSpan(rest, i)
  {
    var all := [first] + rest;
    if InSpan(rest, i) {
      var k :| 0 <= k < |rest| && rest[k].from <= i < rest[k].to;
      assert all[k + 1] == rest[k];
    }
    if first.from <= i < first.to { assert all[0] == first; }
  }

  lemma {:induction false} NotBefore(t: string, pos: nat, spans: seq<Span>, i: nat)
    requires Ascending(t, pos, spans) && i < pos
    ensures !InSpan(spans, i)
    decreases |spans|
  {
    if spans != [] {
      assert spans == [spans[0]] + spans[1..];
      InSpanFirst(spans[0], spans[1..], i);
      NotBefore(t, spans[0].to, spans[1..], i);
    }
  }

  // ------------------------------------------------ name = value

  /** `at(t, i)` is the match beginning at `i`; no match begins in the name or separator of another,
      and the finder returns the leftmost one. */
  ghost predicate LeftmostAssignment(find: AssignmentFinder, at: AssignmentFinder) {
    && (forall t: string, i: nat {:trigger at(t, i)} :: at(t, i).Some? ==> at(t, i).value.begin == i)
    && (forall t: string, i: nat, j: nat {:trigger at(t, i), at(t, j)} ::
          at(t, i).Some? && i < j < at(t, i).value.value ==> at(t, j).None?)
    && (forall t: string, pos: nat, i: nat {:trigger find(t, pos), at(t, i)} :: pos <= i && at(t, i).Some? && pos <= |t| ==>
          find(t, pos).Some? && find(t, pos).value.begin <= i)
    && (forall t: string, pos: nat {:trigger find(t, pos)} :: pos <= |t| && find(t, pos).Some? ==>
          at(t, find(t, pos).value.begin) == find(t, pos))
  }

  /** The matches the pass looks at. */
  function ExaminedAssignments(t: string, pos: nat, find: AssignmentFinder, credential: string -> bool): seq<Assignment>
    requires pos <= |t| && FindsAssignments(find)
    decreases |t| - pos
  {
    var m := find(t, pos);
    if m.None? then []
    else
      [m.value] + ExaminedAssignments(t,
        if credential(m.value.name) then FreeEnd(t, m.value.body, UNQUOTED_STOPS) else m.value.value, find, credential)
  }

  lemma {:induction false} AssignmentsExaminedLater(t: string, pos: nat, find: AssignmentFinder, credential: string -> bool, m: Assignment)
    requires pos <= |t| && FindsAssignments(find) && m in ExaminedAssignments(t, pos, find, credential)
    ensures pos <= m.begin && m.body <= |t|
    ensures credential(m.name) ==>
              Span(m.value, FreeEnd(t, m.body, UNQUOTED_STOPS), MARKER) in AssignmentSpans(t, pos, find, credential)
    decreases |t| - pos
  {
    var first := find(t, pos).value;
    var next := if credential(first.name) then FreeEnd(t, first.body, UNQUOTED_STOPS) else first.value;
    var spans := AssignmentSpans(t, pos, find, credential);
    if m in ExaminedAssignments(t, next, find, credential) {
      AssignmentsExaminedLater(t, next, find, credential, m);
    } else if credential(m.name) {
      assert spans[0] == Span(m.value, FreeEnd(t, m.body, UNQUOTED_STOPS), MARKER);
    }
  }

  /** A match is examined exactly when it does not begin inside a replaced value; an examined
      credential is replaced. So no credential match outside the replaced spans is left. */
  lemma {:induction false} AssignmentsCovered(
      t: string, pos: nat, find: AssignmentFinder, at: AssignmentFinder, credential: string -> bool, i: nat)
    requires pos <= |t| && FindsAssignments(find) && LeftmostAssignment(find, at) && pos <= i && at(t, i).Some?
    ensures at(t, i).value in ExaminedAssignments(t, pos, find, credential) <==>
              !InSpan(AssignmentSpans(t, pos, find, credential), i)
    decreases |t| - pos
  {
    var m := find(t, pos).value;
    var next := if credential(m.name) then FreeEnd(t, m.body, UNQUOTED_STOPS) else m.value;
    var rest := AssignmentSpans(t, next, find, credential);
    AssignmentSpansAscend(t, next, find, credential);
    InSpanFirst(Span(m.value, next, MARKER), rest, i);
    if i == m.begin {
      NotBefore(t, next, rest, i);
    } else {
      assert m.value <= i;
      if i < next {
        NotBefore(t, next, rest, i);
        if at(t, i).value in ExaminedAssignments(t, next, find, credential) {
          AssignmentsExaminedLater(t, next, find, credential, at(t, i).value);
        }
      } else {
        AssignmentsCovered(t, next, find, at, credential, i);
      }
    }
  }

  // ------------------------------------------------ "name": value

  /** The same for quoted assignments; a value that is not a bare scalar starts with a quote or a
      bracket, where no match begins. */
  ghost predicate LeftmostQuoted(find: QuotedFinder, at: QuotedFinder) {
    && (forall t: string, i: nat {:trigger at(t, i)} :: at(t, i).Some? ==> at(t, i).value.begin == i)
    && (forall t: string, i: nat, j: nat {:trigger at(t, i), at(t, j)} ::
          at(t, i).Some? && i < j < at(t, i).value.start + (if at(t, i).value.scalar then 0 else 1) ==> at(t, j).None?)
    && (forall t: string, pos: nat, i: nat {:trigger find(t, pos), at(t, i)} :: pos <= i && at(t, i).Some? && pos <= |t| ==>
          find(t, pos).Some? && find(t, pos).value.begin <= i)
    && (forall t: string, pos: nat {:trigger find(t, pos)} :: pos <= |t| && find(t, pos).Some? ==>
          at(t, find(t, pos).value.begin) == find(t, pos))
  }

  /** Where the search goes on after a match. */
  function NextQuoted(t: string, m: Quoted, credential: string -> bool): (next: nat)
    requires m.begin < m.start < m.end <= |t|
    ensures m.start <= next <= |t|
  {
    var r := QuotedRedaction(t, m, credential);
    if r.None? then KeptTo(m) else (RedactionCoversValue(t, m.start); r.value.end)
  }

  function ExaminedQuoted(t: string, pos: nat, find: QuotedFinder, credential: string -> bool): seq<Quoted>
    requires pos <= |t| && FindsQuoted(find)
    decreases |t| - pos
  {
    var m := find(t, pos);
    if m.None? then [] else [m.value] + ExaminedQuoted(t, NextQuoted(t, m.value, credential), find, credential)
  }

  /** A bare scalar kept behind a quoted name: the search goes on behind it. */
  predicate PassedOver(t: string, m: Quoted, credential: string -> bool, i: nat) {
    m.scalar && m.closed && QuotedRedaction(t, m, credential).None? && m.start <= i < m.end
  }

  ghost predicate InScalar(t: string, examined: seq<Quoted>, credential: string -> bool, i: nat) {
    exists k :: 0 <= k < |examined| && PassedOver(t, examined[k], credential, i)
  }

  lemma {:induction false} InScalarFirst(t: string, first: Quoted, rest: seq<Quoted>, credential: string -> bool, i: nat)
    ensures InScalar(t, [first] + rest, credential, i) <==> PassedOver(t, first, credential, i) || InScalar(t, rest, credential, i)
  {
    var all := [first] + rest;
    if InScalar(t, rest, credential, i) {
      var k :| 0 <= k < |rest| && PassedOver(t, rest[k], credential, i);
      assert all[k + 1] == rest[k];
    }
    if PassedOver(t, first, credential, i) { assert all[0] == first; }
  }

  lemma {:induction false} QuotedExaminedLater(t: string, pos: nat, find: QuotedFinder, credential: string -> bool, m: Quoted)
    requires pos <= |t| && FindsQuoted(find) && m in ExaminedQuoted(t, pos, find, credential)
    ensures pos <= m.begin < m.start
    ensures QuotedRedaction(t, m, credential).Some? ==>
              var r := QuotedRedaction(t, m, credential).value;
              Span(m.start, r.end, r.marker) in QuotedSpans(t, pos, find, credential)
    decreases |t| - pos
  {
    var first := find(t, pos).value;
    var next := NextQuoted(t, first, credential);
    var spans := QuotedSpans(t, pos, find, credential);
    if m in ExaminedQuoted(t, next, find, credential) {
      QuotedExaminedLater(t, next, find, credential, m);
    } else if QuotedRedaction(t, m, credential).Some? {
      var r := QuotedRedaction(t, m, credential).value;
      assert spans[0] == Span(m.start, r.end, r.marker);
    }
  }

  lemma {:induction false} NoScalarBefore(t: string, pos: nat, find: QuotedFinder, credential: string -> bool, i: nat)
    requires pos <= |t| && FindsQuoted(find) && i <= pos
    ensures !InScalar(t, ExaminedQuoted(t, pos, find, credential), credential, i)
  {
    var examined := ExaminedQuoted(t, pos, find, credential);
    forall k | 0 <= k < |examined| ensures !PassedOver(t, examined[k], credential, i) {
      assert examined[k] in examined;
      QuotedExaminedLater(t, pos, find, credential, examined[k]);
    }
  }

  /** A match is examined exactly when it begins neither inside a replaced value nor inside a bare
      scalar kept behind a quoted name; what is examined is replaced exactly by the value rule. */
  lemma {:induction false} QuotedCovered(
      t: string, pos: nat, find: QuotedFinder, at: QuotedFinder, credential: string -> bool, i: nat)
    requires pos <= |t| && FindsQuoted(find) && LeftmostQuoted(find, at) && pos <= i && at(t, i).Some?
    ensures at(t, i).value in ExaminedQuoted(t, pos, find, credential) <==>
              && !InSpan(QuotedSpans(t, pos, find, credential), i)
              && !InScalar(t, ExaminedQuoted(t, pos, find, credential), credential, i)
    decreases |t| - pos
  {
    var m := find(t, pos).value;
    var next := NextQuoted(t, m, credential);
    var rest, later := QuotedSpans(t, next, find, credential), ExaminedQuoted(t, next, find, credential);
    var r := QuotedRedaction(t, m, credential);
    QuotedSpansAscend(t, next, find, credential);
    InScalarFirst(t, m, later, credential, i);
    if r.Some? { InSpanFirst(Span(m.start, r.value.end, r.value.marker), rest, i); }
    if i < next {
      NotBefore(t, next, rest, i);
      NoScalarBefore(t, next, find, credential, i);
      if at(t, i).value in later { QuotedExaminedLater(t, next, find, credential, at(t, i).value); }
    } else {
      QuotedCovered(t, next, find, at, credential, i);
    }
  }

  // ------------------------------------------------ a match passed over

  const NESTED: string := "\"x\":password=\"secret\""
  const OUTER: Quoted := Quoted(1, "x", true, true, 4, 13)
  const INNER: Quoted := Quoted(4, "password", false, false, 13, 14)

  function NestedAt(t: string, i: nat): Option<Quoted> {
    if t == NESTED && i == 1 then Some(OUTER) else if t == NESTED && i == 4 then Some(INNER) else None
  }

  function NestedFind(t: string, pos: nat): Option<Quoted> {
    if t == NESTED && pos <= 1 then Some(OUTER) else if t == NESTED && pos <= 4 then Some(INNER) else None
  }

  /** An assignment inside a bare scalar behind an ordinary quoted name is not examined. */
  lemma {:induction false} NestedIsPassedOver()
    ensures FindsQuoted(NestedFind) && LeftmostQuoted(NestedFind, NestedAt)
    ensures QuotedSpans(NESTED, 0, NestedFind, (name: string) => name == "password") == []
    ensures NestedAt(NESTED, 4) == Some(INNER) && Redacts(NESTED, INNER.start).Some?
  {
    assert |NESTED| == 21;
    assert NestedFind(NESTED, 13) == None;
    assert QuotedSpans(NESTED, 13, NestedFind, (name: string) => name == "password") == [];
    RedactionCoversValue(NESTED, 13);
    assert NESTED[13] == '"' && NESTED[14] == 's';
    assert !MarkerAt(NESTED, 13);
  }

  // ------------------------------------------------ keys spelled with escapes

  lemma {:induction false} NoQuoteInSpaces(t: string, i: nat, k: nat)
    requires i <= |t| && i <= k < SkipSpaces(t, i)
    ensures IsSpace(t[k])
    decreases |t| - i
  {
    if i < k { NoQuoteInSpaces(t, i + 1, k); }
  }

  /** No key ends inside a separator. */
  lemma {:induction false} NoQuoteInSeparator(t: string, i: nat, k: nat)
    requires i <= |t| && SeparatorEnd(t, i).Some? && i <= k < SeparatorEnd(t, i).value
    ensures !IsQuote(t[k])
  {
    var j := SkipSpaces(t, i);
    if k < j { NoQuoteInSpaces(t, i, k); } else if j < k { NoQuoteInSpaces(t, j + 1, k); }
  }

  /** The end of the last replaced value at or before `i`. */
  function LastEnd(spans: seq<Span>, pos: nat, i: nat): nat {
    if spans == [] || spans[0].to > i then pos else LastEnd(spans[1..], spans[0].to, i)
  }

  /** The key that ends at `i`, examined from `p`, is redacted as the rules say. */
  ghost predicate KeyDone(t: string, i: nat, p: nat, secret: string -> bool, spans: seq<Span>)
    requires KeyEndAt(t, i)
  {
    KeyRedaction(t, i, p, secret).Some? ==>
      var r := KeyRedaction(t, i, p, secret).value;
      Span(SeparatorEnd(t, i + 1).value, r.end, r.marker) in spans
  }

  /** Every unescaped key end outside the replaced values is examined, against everything since the
      last replaced value, and redacted exactly as the rules say. */
  lemma {:induction false} KeysCovered(t: string, from: nat, pos: nat, secret: string -> bool, i: nat)
    requires from <= i && pos <= i < |t| && KeyEndAt(t, i) && !IsEscaped(t, i)
    requires !InSpan(KeySpans(t, from, pos, secret), i)
    ensures KeyDone(t, i, LastEnd(KeySpans(t, from, pos, secret), pos, i), secret, KeySpans(t, from, pos, secret))
    decreases |t| - from
  {
    if IsKeyEnd(t, from, pos) && KeyRedaction(t, from, pos, secret).Some? {
      FirstSpan(t, from, pos, secret, i);
      if from < i {
        var r := KeyRedaction(t, from, pos, secret).value;
        KeysCovered(t, from + 1, r.end, secret, i);
        DoneWithFirst(t, i, pos, secret, Span(SeparatorEnd(t, from + 1).value, r.end, r.marker), KeySpans(t, from + 1, r.end, secret));
      }
    } else if from < i {
      KeysCovered(t, from + 1, pos, secret, i);
    } else {
      KeySpansStartLater(t, from + 1, pos, secret, i);
    }
  }

  /** A key end outside the value replaced first is that value's own key or lies behind it. */
  lemma {:induction false} FirstSpan(t: string, from: nat, pos: nat, secret: string -> bool, i: nat)
    requires from <= i < |t| && IsQuote(t[i]) && !InSpan(KeySpans(t, from, pos, secret), i)
    requires IsKeyEnd(t, from, pos) && KeyRedaction(t, from, pos, secret).Some?
    ensures var r := KeyRedaction(t, from, pos, secret).value;
            !InSpan(KeySpans(t, from + 1, r.end, secret), i) && (from == i || r.end <= i)
    ensures from == i ==> LastEnd(KeySpans(t, from, pos, secret), pos, i) == pos
  {
    var r, start := KeyRedaction(t, from, pos, secret).value, SeparatorEnd(t, from + 1).value;
    RedactionCoversValue(t, start);
    InSpanFirst(Span(start, r.end, r.marker), KeySpans(t, from + 1, r.end, secret), i);
    if from < i < start { NoQuoteInSeparator(t, from + 1, i); assert false; }
  }

  lemma {:induction false} DoneWithFirst(t: string, i: nat, pos: nat, secret: string -> bool, first: Span, rest: seq<Span>)
    requires KeyEndAt(t, i) && first.to <= i && KeyDone(t, i, LastEnd(rest, first.to, i), secret, rest)
    ensures KeyDone(t, i, LastEnd([first] + rest, pos, i), secret, [first] + rest)
  {
    assert ([first] + rest)[1..] == rest;
  }

  lemma {:induction false} KeySpansStartLater(t: string, from: nat, pos: nat, secret: string -> bool, i: nat)
    requires i < from && pos <= |t|
    ensures var spans := KeySpans(t, from, pos, secret); spans != [] ==> i < spans[0].to
    decreases |t| - from
  {
    if from < |t| {
      if IsKeyEnd(t, from, pos) && KeyRedaction(t, from, pos, secret).Some? {
        RedactionCoversValue(t, SeparatorEnd(t, from + 1).value);
      } else {
        KeySpansStartLater(t, from + 1, pos, secret, i);
      }
    }
  }
}
