// The three rewriting passes over prose. What names a credential is a parameter of each pass, and
// so is the pattern that finds the next assignment.

module ProseRedaction {
  import opened Outcomes
  import opened ValueScanner
  import opened Splicing
  import opened RedactionRules

  // ------------------------------------------------ name = value

  /** A match of `_CREDENTIAL_ASSIGNMENT`: where it begins, its name, and where the value and, behind
      a scheme, its body start. */
  datatype Assignment = Assignment(begin: nat, name: string, value: nat, body: nat)

  type AssignmentFinder = (string, nat) -> Option<Assignment>

  /** A name and a separator come first; the body starts with a character that belongs to it. */
  ghost predicate FindsAssignments(find: AssignmentFinder) {
    forall t: string, pos: nat {:trigger find(t, pos)} :: pos <= |t| && find(t, pos).Some? ==>
      var m := find(t, pos).value;
      pos <= m.begin < m.value <= m.body < |t| && !IsSpace(t[m.body]) && t[m.body] !in UNQUOTED_STOPS
  }

  function AssignmentSpans(t: string, pos: nat, find: AssignmentFinder, credential: string -> bool): seq<Span>
    requires pos <= |t| && FindsAssignments(find)
    decreases |t| - pos
  {
    var m := find(t, pos);
    if m.None? then []
    else if !credential(m.value.name) then AssignmentSpans(t, m.value.value, find, credential)
    else
      var end := FreeEnd(t, m.value.body, UNQUOTED_STOPS);
      [Span(m.value.value, end, MARKER)] + AssignmentSpans(t, end, find, credential)
  }

  /** A span is the whole value of some credential: it ends where the value scanner says. */
  ghost predicate IsAssignmentSpan(t: string, span: Span, find: AssignmentFinder, credential: string -> bool) {
    exists pos: nat :: pos <= |t| && find(t, pos).Some? && FindsAssignments(find) && credential(find(t, pos).value.name)
      && span == Span(find(t, pos).value.value, ValueRun(t, find(t, pos).value.body, [], None, UNQUOTED_STOPS), MARKER)
  }

  lemma {:induction false} AssignmentSpansAscend(t: string, pos: nat, find: AssignmentFinder, credential: string -> bool)
    requires pos <= |t| && FindsAssignments(find)
    ensures Ascending(t, pos, AssignmentSpans(t, pos, find, credential))
    ensures forall span :: span in AssignmentSpans(t, pos, find, credential) ==> IsAssignmentSpan(t, span, find, credential)
    decreases |t| - pos
  {
    var m := find(t, pos);
    if m.Some? && !credential(m.value.name) {
      AssignmentSpansAscend(t, m.value.value, find, credential);
      KeptAhead(t, pos, m.value.value, AssignmentSpans(t, m.value.value, find, credential));
    } else if m.Some? {
      ValueIsDescent(t, m.value.body, UNQUOTED_STOPS);
      var end := FreeEnd(t, m.value.body, UNQUOTED_STOPS);
      FreeEndMoves(t, m.value.body, UNQUOTED_STOPS);
      AssignmentSpansAscend(t, end, find, credential);
      var span := Span(m.value.value, end, MARKER);
      SplicedFirst(t, pos, span, AssignmentSpans(t, end, find, credential));
      assert IsAssignmentSpan(t, span, find, credential);
    }
  }

  lemma {:induction false} FreeEndMoves(t: string, i: nat, stops: set<char>)
    requires i < |t| && !IsSpace(t[i]) && t[i] !in stops
    ensures i < FreeEnd(t, i, stops)
  {
  }

  /** `_redact_assignments`. */
  method RedactAssignments(t: string, find: AssignmentFinder, credential: string -> bool) returns (out: string)
    requires FindsAssignments(find)
    ensures Ascending(t, 0, AssignmentSpans(t, 0, find, credential))
    ensures out == Splice(t, 0, AssignmentSpans(t, 0, find, credential))
  {
    var parts: seq<string>, pos := [], 0;
    AssignmentSpansAscend(t, 0, find, credential);
    ghost var goal := Splice(t, 0, AssignmentSpans(t, 0, find, credential));
    var m := find(t, pos);
    while m.Some?
      invariant pos <= |t| && m == find(t, pos)
      invariant OnTheWay(t, parts, pos, AssignmentSpans(t, pos, find, credential), goal)
      decreases |t| - pos
    {
      var start := m.value.value;
      if !credential(m.value.name) {
        AssignmentSpansAscend(t, start, find, credential);
        KeepOn(t, parts, pos, start, AssignmentSpans(t, start, find, credential), goal);
        parts := parts + [t[pos..start]];
        pos := start;
      } else {
        var end := ValueEnd(t, m.value.body, UNQUOTED_STOPS);
        ValueIsDescent(t, m.value.body, UNQUOTED_STOPS);
        FreeEndMoves(t, m.value.body, UNQUOTED_STOPS);
        AssignmentSpansAscend(t, end, find, credential);
        ReplaceOn(t, parts, pos, Span(start, end, MARKER), AssignmentSpans(t, end, find, credential), goal);
        parts := parts + [t[pos..start] + MARKER];
        pos := end;
      }
      m := find(t, pos);
    }
    Arrive(t, parts, pos, goal);
    out := Joined(parts + [t[pos..]]);
  }

  // ------------------------------------------------ "name": value

  /** A match of `_QUOTED_ASSIGNMENT`: where it begins, its name, whether the name is closed by a
      quote, whether the value is a bare scalar, where it starts, and where the match ends. */
  datatype Quoted = Quoted(begin: nat, name: string, closed: bool, scalar: bool, start: nat, end: nat)

  type QuotedFinder = (string, nat) -> Option<Quoted>

  ghost predicate FindsQuoted(find: QuotedFinder) {
    forall t: string, pos: nat {:trigger find(t, pos)} :: pos <= |t| && find(t, pos).Some? ==>
      var m := find(t, pos).value;
      pos <= m.begin < m.start < m.end <= |t|
  }

  /** What to do about a match: where its value is replaced, or up to where it is kept. */
  function QuotedRedaction(t: string, m: Quoted, credential: string -> bool): Option<Redaction> {
    if (m.scalar && !m.closed) || !credential(m.name) then None else Redacts(t, m.start)
  }

  function KeptTo(m: Quoted): nat {
    if m.scalar && !m.closed then m.start else if m.scalar then m.end else m.start + 1
  }

  function QuotedSpans(t: string, pos: nat, find: QuotedFinder, credential: string -> bool): seq<Span>
    requires pos <= |t| && FindsQuoted(find)
    decreases |t| - pos
  {
    var m := find(t, pos);
    if m.None? then []
    else
      var r := QuotedRedaction(t, m.value, credential);
      if r.None? then QuotedSpans(t, KeptTo(m.value), find, credential)
      else
        assert m.value.start < r.value.end <= |t| by { RedactionCoversValue(t, m.value.start); }
        [Span(m.value.start, r.value.end, r.value.marker)] + QuotedSpans(t, r.value.end, find, credential)
  }

  ghost predicate IsQuotedSpan(t: string, span: Span, find: QuotedFinder, credential: string -> bool) {
    exists pos: nat :: pos <= |t| && find(t, pos).Some? && credential(find(t, pos).value.name)
      && span.from == find(t, pos).value.start && HidesValue(t, span.from, span.to, span.marker)
  }

  lemma {:induction false} QuotedSpansAscend(t: string, pos: nat, find: QuotedFinder, credential: string -> bool)
    requires pos <= |t| && FindsQuoted(find)
    ensures Ascending(t, pos, QuotedSpans(t, pos, find, credential))
    ensures forall span :: span in QuotedSpans(t, pos, find, credential) ==> IsQuotedSpan(t, span, find, credential)
    decreases |t| - pos
  {
    var m := find(t, pos);
    if m.Some? {
      var r := QuotedRedaction(t, m.value, credential);
      if r.None? {
        QuotedSpansAscend(t, KeptTo(m.value), find, credential);
        KeptAhead(t, pos, KeptTo(m.value), QuotedSpans(t, KeptTo(m.value), find, credential));
      } else {
        RedactionCoversValue(t, m.value.start);
        QuotedSpansAscend(t, r.value.end, find, credential);
        var span := Span(m.value.start, r.value.end, r.value.marker);
        SplicedFirst(t, pos, span, QuotedSpans(t, r.value.end, find, credential));
        assert IsQuotedSpan(t, span, find, credential);
      }
    }
  }

  /** One step of the pass: the match is kept up to where the search goes on, or its value replaced. */
  lemma {:induction false} QuotedStep(
      t: string, parts: seq<string>, pos: nat, find: QuotedFinder, credential: string -> bool, goal: string)
    requires pos <= |t| && FindsQuoted(find) && find(t, pos).Some?
    requires OnTheWay(t, parts, pos, QuotedSpans(t, pos, find, credential), goal)
    ensures var m := find(t, pos).value;
            var r := QuotedRedaction(t, m, credential);
            if r.None? then
              && pos < KeptTo(m) <= |t|
              && OnTheWay(t, parts + [t[pos..KeptTo(m)]], KeptTo(m), QuotedSpans(t, KeptTo(m), find, credential), goal)
            else
              && pos < m.start < r.value.end <= |t|
              && OnTheWay(t, parts + [t[pos..m.start] + r.value.marker], r.value.end,
                          QuotedSpans(t, r.value.end, find, credential), goal)
  {
    var m := find(t, pos).value;
    var r := QuotedRedaction(t, m, credential);
    if r.None? {
      QuotedSpansAscend(t, KeptTo(m), find, credential);
      KeepOn(t, parts, pos, KeptTo(m), QuotedSpans(t, KeptTo(m), find, credential), goal);
    } else {
      RedactionCoversValue(t, m.start);
      QuotedSpansAscend(t, r.value.end, find, credential);
      ReplaceOn(t, parts, pos, Span(m.start, r.value.end, r.value.marker), QuotedSpans(t, r.value.end, find, credential), goal);
    }
  }

  /** `_redact_quoted`. */
  method RedactQuoted(t: string, find: QuotedFinder, credential: string -> bool) returns (out: string)
    requires FindsQuoted(find)
    ensures Ascending(t, 0, QuotedSpans(t, 0, find, credential))
    ensures out == Splice(t, 0, QuotedSpans(t, 0, find, credential))
  {
    var parts: seq<string>, pos := [], 0;
    QuotedSpansAscend(t, 0, find, credential);
    ghost var goal := Splice(t, 0, QuotedSpans(t, 0, find, credential));
    var m := find(t, pos);
    while m.Some?
      invariant pos <= |t| && m == find(t, pos)
      invariant OnTheWay(t, parts, pos, QuotedSpans(t, pos, find, credential), goal)
      decreases |t| - pos
    {
      var r: Option<Redaction> := None;
      if (!m.value.scalar || m.value.closed) && credential(m.value.name) {
        r := ValueRedaction(t, m.value.start);
      }
      QuotedStep(t, parts, pos, find, credential, goal);
      if r.None? {
        var next := KeptTo(m.value);
        parts := parts + [t[pos..next]];
        pos := next;
      } else {
        parts := parts + [t[pos..m.value.start] + r.value.marker];
        pos := r.value.end;
      }
      m := find(t, pos);
    }
    Arrive(t, parts, pos, goal);
    out := Joined(parts + [t[pos..]]);
  }

  // ------------------------------------------------ "n\u0061me": value

  function SkipSpaces(t: string, i: nat): (j: nat)
    requires i <= |t|
    ensures i <= j <= |t|
    decreases |t| - i
  {
    if i < |t| && IsSpace(t[i]) then SkipSpaces(t, i + 1) else i
  }

  /** `_KEY_SEP`: after the spaces around a colon or an equals sign. */
  function SeparatorEnd(t: string, i: nat): (end: Option<nat>)
    requires i <= |t|
    ensures end.Some? ==> i < end.value <= |t|
  {
    var j := SkipSpaces(t, i);
    if j < |t| && (t[j] == ':' || t[j] == '=') then Some(SkipSpaces(t, j + 1)) else None
  }

  /** `_KEY_END`: a quote with a separator behind it. */
  predicate KeyEndAt(t: string, i: nat) {
    i < |t| && IsQuote(t[i]) && SeparatorEnd(t, i + 1).Some?
  }

  /** The nearest unescaped `quote` in `t[pos..i]` with no newline after it. */
  function NearestQuote(t: string, i: nat, pos: nat, quote: char): (opening: Option<nat>)
    requires i <= |t|
    ensures opening.Some? ==> pos <= opening.value < i && t[opening.value] == quote && !IsEscaped(t, opening.value)
  {
    if i <= pos || t[i - 1] == '\n' then None
    else if t[i - 1] == quote && !IsEscaped(t, i - 1) then Some(i - 1)
    else NearestQuote(t, i - 1, pos, quote)
  }

  /** The redaction, if any, behind the key that ends at `i` and opens after `pos`. */
  function KeyRedaction(t: string, i: nat, pos: nat, secret: string -> bool): Option<Redaction>
    requires KeyEndAt(t, i)
  {
    var opening := NearestQuote(t, i, pos, t[i]);
    if opening.None? then None
    else
      var name := t[opening.value + 1..i];
      if EscapedSecret(name, secret) then Redacts(t, SeparatorEnd(t, i + 1).value) else None
  }

  /** Spelled with an escape, and a secret's name once decoded. */
  predicate EscapedSecret(name: string, secret: string -> bool) { '\\' in name && secret(name) }

  predicate IsKeyEnd(t: string, i: nat, pos: nat) { KeyEndAt(t, i) && pos <= i && !IsEscaped(t, i) }

  function KeySpans(t: string, i: nat, pos: nat, secret: string -> bool): seq<Span>
    decreases |t| - i
  {
    if i >= |t| then []
    else if IsKeyEnd(t, i, pos) && KeyRedaction(t, i, pos, secret).Some? then
      var r := KeyRedaction(t, i, pos, secret).value;
      [Span(SeparatorEnd(t, i + 1).value, r.end, r.marker)] + KeySpans(t, i + 1, r.end, secret)
    else KeySpans(t, i + 1, pos, secret)
  }

  /** The key that the unescaped quote at `i` ends opens at `k`: an unescaped quote of the same kind, with
      neither such a quote nor a newline between the two. */
  ghost predicate OpensAt(t: string, i: nat, pos: nat, quote: char, k: nat) {
    && pos <= k < i <= |t| && t[k] == quote && !IsEscaped(t, k)
    && forall j {:trigger t[j]} :: k < j < i ==> t[j] != '\n' && (t[j] != quote || IsEscaped(t, j))
  }

  lemma {:induction false} NearestQuoteIs(t: string, i: nat, pos: nat, quote: char, k: nat)
    requires i <= |t| && quote != '\n'
    ensures NearestQuote(t, i, pos, quote) == Some(k) <==> OpensAt(t, i, pos, quote, k)
    decreases i
  {
    if i > pos && t[i - 1] != '\n' && (t[i - 1] != quote || IsEscaped(t, i - 1)) {
      NearestQuoteIs(t, i - 1, pos, quote, k);
    }
  }

  /** A colon or an equals sign with all the spaces around it stands from `i` to `end`. */
  ghost predicate Separator(t: string, i: nat, end: nat) {
    exists c {:trigger SeparatorAt(t, i, c, end)} :: SeparatorAt(t, i, c, end)
  }

  ghost predicate SeparatorAt(t: string, i: nat, c: nat, end: nat) {
    && i <= c < end <= |t| && (t[c] == ':' || t[c] == '=') && (end < |t| ==> !IsSpace(t[end]))
    && forall j {:trigger t[j]} :: i <= j < end && j != c ==> IsSpace(t[j])
  }

  lemma {:induction false} SpacesSkipped(t: string, i: nat)
    requires i <= |t|
    ensures forall j :: i <= j < SkipSpaces(t, i) ==> IsSpace(t[j])
    ensures SkipSpaces(t, i) < |t| ==> !IsSpace(t[SkipSpaces(t, i)])
    decreases |t| - i
  {
    if i < |t| && IsSpace(t[i]) { SpacesSkipped(t, i + 1); }
  }

  lemma {:induction false} SpacesEnd(t: string, i: nat, end: nat)
    requires i <= end <= |t| && (end < |t| ==> !IsSpace(t[end]))
    requires forall j {:trigger t[j]} :: i <= j < end ==> IsSpace(t[j])
    ensures SkipSpaces(t, i) == end
    decreases end - i
  {
    if i < end { SpacesEnd(t, i + 1, end); }
  }

  lemma {:induction false} SeparatorIs(t: string, i: nat, end: nat)
    requires i <= |t|
    ensures SeparatorEnd(t, i) == Some(end) <==> Separator(t, i, end)
  {
    var c := SkipSpaces(t, i);
    SpacesSkipped(t, i);
    if c < |t| { SpacesSkipped(t, c + 1); }
    if SeparatorEnd(t, i) == Some(end) {
      assert SeparatorAt(t, i, c, end);
    }
    if Separator(t, i, end) {
      var d: nat :| SeparatorAt(t, i, d, end);
      SpacesEnd(t, i, d);
      SpacesEnd(t, d + 1, end);
    }
  }

  /** A span is the whole value behind a key that ends at `i`, opens at the nearest unescaped quote
      of its kind after `pos`, is spelled with an escape and names a secret. */
  ghost predicate IsKeySpanAt(t: string, span: Span, i: nat, pos: nat, k: nat, secret: string -> bool) {
    && i < |t| && IsQuote(t[i]) && !IsEscaped(t, i) && OpensAt(t, i, pos, t[i], k)
    && EscapedSecret(t[k + 1..i], secret)
    && Separator(t, i + 1, span.from) && HidesValue(t, span.from, span.to, span.marker)
  }

  ghost predicate IsKeySpan(t: string, span: Span, secret: string -> bool) {
    exists i: nat, pos: nat, k: nat :: IsKeySpanAt(t, span, i, pos, k, secret)
  }

  lemma {:induction false} KeySpansAscend(t: string, i: nat, pos: nat, secret: string -> bool)
    requires pos <= |t|
    ensures Ascending(t, pos, KeySpans(t, i, pos, secret))
    ensures forall span :: span in KeySpans(t, i, pos, secret) ==> IsKeySpan(t, span, secret)
    decreases |t| - i
  {
    if i < |t| {
      if IsKeyEnd(t, i, pos) && KeyRedaction(t, i, pos, secret).Some? {
        var r, start := KeyRedaction(t, i, pos, secret).value, SeparatorEnd(t, i + 1).value;
        RedactionCoversValue(t, start);
        KeySpansAscend(t, i + 1, r.end, secret);
        SplicedFirst(t, pos, Span(start, r.end, r.marker), KeySpans(t, i + 1, r.end, secret));
        var k := NearestQuote(t, i, pos, t[i]).value;
        NearestQuoteIs(t, i, pos, t[i], k);
        SeparatorIs(t, i + 1, start);
        assert IsKeySpanAt(t, Span(start, r.end, r.marker), i, pos, k, secret);
      } else {
        KeySpansAscend(t, i + 1, pos, secret);
      }
    }
  }

  /** A text without a backslash spells no key with an escape. */
  lemma {:induction false} NoEscapeNoSpan(t: string, i: nat, pos: nat, secret: string -> bool)
    requires '\\' !in t
    ensures KeySpans(t, i, pos, secret) == []
    decreases |t| - i
  {
    if i < |t| {
      if IsKeyEnd(t, i, pos) && NearestQuote(t, i, pos, t[i]).Some? {
        var name := t[NearestQuote(t, i, pos, t[i]).value + 1..i];
        assert '\\' !in name;
      }
      NoEscapeNoSpan(t, i + 1, pos, secret);
    }
  }

  /** Every recorded candidate is an unescaped quote of its kind, before `end`. */
  ghost predicate Candidates(t: string, previous: map<char, nat>, end: nat) {
    forall q {:trigger previous[q]} :: q in previous ==>
      previous[q] < end <= |t| && t[previous[q]] == q && !IsEscaped(t, previous[q])
  }

  /** Walking back over a stretch without newline or unescaped quote decides nothing. */
  lemma {:induction false} WalkedBack(t: string, i: nat, j: nat, pos: nat, quote: char)
    requires pos <= j <= i <= |t|
    requires forall k :: j <= k < i ==> t[k] != '\n' && (t[k] != quote || IsEscaped(t, k))
    ensures NearestQuote(t, i, pos, quote) == NearestQuote(t, j, pos, quote)
    decreases i
  {
    if j < i { WalkedBack(t, i - 1, j, pos, quote); }
  }

  /** The walk back to the opening quote. Stopping at the last candidate of the same quote, so that
      no stretch is walked twice, finds the same opening as walking on to `pos`. */
  method OpeningOf(t: string, end: nat, pos: nat, previous: map<char, nat>) returns (opening: Option<nat>)
    requires pos <= end < |t| && IsQuote(t[end]) && Candidates(t, previous, end)
    ensures opening == NearestQuote(t, end, pos, t[end])
  {
    var quote := t[end];
    var last: int := if quote in previous then previous[quote] else -1;
    var floor: int := if last < pos - 1 then pos - 1 else last;
    var index: int := end - 1;
    while index > floor
      invariant floor <= index < end
      invariant forall k :: index < k < end ==> t[k] != '\n' && (t[k] != quote || IsEscaped(t, k))
    {
      WalkedBack(t, end, index + 1, pos, quote);
      if t[index] == '\n' { return None; }
      var escaped := Escaped(t, index);
      if t[index] == quote && !escaped { return Some(index); }
      index := index - 1;
    }
    WalkedBack(t, end, floor + 1, pos, quote);
    opening := if floor >= pos && t[floor] == quote then Some(floor) else None;
  }

  /** What the quote at `end` closes, and what to do about the value behind it. */
  method ExamineKey(t: string, end: nat, pos: nat, previous: map<char, nat>, secret: string -> bool)
    returns (r: Option<Redaction>, candidates: map<char, nat>)
    requires end < |t| && Candidates(t, previous, end)
    ensures Candidates(t, candidates, end + 1)
    ensures r == if IsKeyEnd(t, end, pos) then KeyRedaction(t, end, pos, secret) else None
  {
    r, candidates := None, previous;
    var escaped := Escaped(t, end);
    if !KeyEndAt(t, end) || end < pos || escaped { return; }
    var opening := OpeningOf(t, end, pos, previous);
    candidates := previous[t[end] := end];
    if opening.None? { return; }
    var name := t[opening.value + 1..end];
    if !EscapedSecret(name, secret) { return; }
    r := ValueRedaction(t, SeparatorEnd(t, end + 1).value);
  }

  lemma {:induction false} KeyReplaced(t: string, parts: seq<string>, i: nat, pos: nat, secret: string -> bool, goal: string)
    requires OnTheWay(t, parts, pos, KeySpans(t, i, pos, secret), goal)
    requires IsKeyEnd(t, i, pos) && KeyRedaction(t, i, pos, secret).Some?
    ensures var r, start := KeyRedaction(t, i, pos, secret).value, SeparatorEnd(t, i + 1).value;
            && pos <= start < r.end <= |t|
            && OnTheWay(t, parts + [t[pos..start] + r.marker], r.end, KeySpans(t, i + 1, r.end, secret), goal)
  {
  }

  method ReplaceKeys(t: string, secret: string -> bool, ghost goal: string) returns (out: string)
    requires OnTheWay(t, [], 0, KeySpans(t, 0, 0, secret), goal)
    ensures out == goal
  {
    var parts: seq<string>, pos: nat, previous: map<char, nat> := [], 0, map[];
    for end := 0 to |t|
      invariant pos <= |t| && Candidates(t, previous, end)
      invariant OnTheWay(t, parts, pos, KeySpans(t, end, pos, secret), goal)
    {
      var r;
      r, previous := ExamineKey(t, end, pos, previous, secret);
      if r.Some? {
        var start := SeparatorEnd(t, end + 1).value;
        KeyReplaced(t, parts, end, pos, secret, goal);
        parts := parts + [t[pos..start] + r.value.marker];
        pos := r.value.end;
      }
    }
    Arrive(t, parts, pos, goal);
    out := Joined(parts + [t[pos..]]);
  }

  /** `_redact_escaped_keys`. */
  method RedactEscapedKeys(t: string, secret: string -> bool) returns (out: string)
    ensures Ascending(t, 0, KeySpans(t, 0, 0, secret))
    ensures out == Splice(t, 0, KeySpans(t, 0, 0, secret))
  {
    KeySpansAscend(t, 0, 0, secret);
    if '\\' !in t {
      NoEscapeNoSpan(t, 0, 0, secret);
      return t;
    }
    out := ReplaceKeys(t, secret, Splice(t, 0, KeySpans(t, 0, 0, secret)));
  }
}
