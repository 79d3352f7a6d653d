// What the output of the escaped-key pass may depend on: two texts that differ only inside a hidden
// value come out the same.

module RedactionSecrecy {
  import opened Outcomes
  import opened ValueScanner
  import opened Splicing
  import opened RedactionRules
  import opened ProseRedaction
  import opened RedactionCoverage

  /** The texts are the same up to `f` and, from `e` and `e'` on, to their ends; between the two each
      holds one whole value that the same marker hides. */
  ghost predicate Twins(t: string, e: nat, t': string, e': nat, f: nat, marker: string) {
    && HidesValue(t, f, e, marker) && HidesValue(t', f, e', marker)
    && t[..f] == t'[..f] && t[e..] == t'[e'..]
  }

  /** A value ends the text, or at a space or stop. */
  lemma {:induction false} FreeEndStops(t: string, i: nat, stops: set<char>)
    requires i <= |t| && FreeEnd(t, i, stops) < |t|
    ensures var c := t[FreeEnd(t, i, stops)]; !IsQuote(c) && !IsOpener(c) && (IsSpace(c) || c in stops)
    decreases |t| - i
  {
    if IsQuote(t[i]) || IsOpener(t[i]) {
      var inner := if IsQuote(t[i]) then StringEnd(t, i + 1, t[i]) else BodyEnd(t, i + 1, CloserOf(t[i]));
      FreeEndStops(t, inner.value, stops);
    } else if !IsSpace(t[i]) && t[i] !in stops {
      FreeEndStops(t, i + 1, stops);
    }
  }

  // ------------------------------------------------ what is decided before `p`

  ghost predicate SameUpTo(t: string, t': string, p: nat) {
    p <= |t| && p <= |t'| && forall k {:trigger t[k]} {:trigger t'[k]} :: 0 <= k < p ==> t[k] == t'[k]
  }

  lemma {:induction false} SliceBefore(t: string, t': string, p: nat, a: nat, b: nat)
    requires p <= |t| && p <= |t'| && t[..p] == t'[..p] && a <= b <= p
    ensures t[a..b] == t'[a..b]
  {
    assert t[..p][a..b] == t[a..b] && t'[..p][a..b] == t'[a..b];
  }

  lemma {:induction false} StringEndBefore(t: string, t': string, p: nat, i: nat, quote: char)
    requires SameUpTo(t, t', p) && StringEnd(t, i, quote).Some? && StringEnd(t, i, quote).value <= p
    ensures StringEnd(t', i, quote) == StringEnd(t, i, quote)
    decreases |t| - i
  {
    if t[i] == '\\' { StringEndBefore(t, t', p, i + 2, quote); }
    else if t[i] != quote { StringEndBefore(t, t', p, i + 1, quote); }
  }

  lemma {:induction false} BodyEndBefore(t: string, t': string, p: nat, i: nat, closer: char)
    requires SameUpTo(t, t', p) && BodyEnd(t, i, closer).Some? && BodyEnd(t, i, closer).value <= p
    ensures BodyEnd(t', i, closer) == BodyEnd(t, i, closer)
    decreases |t| - i
  {
    if IsQuote(t[i]) {
      StringEndBefore(t, t', p, i + 1, t[i]);
      BodyEndBefore(t, t', p, StringEnd(t, i + 1, t[i]).value, closer);
    } else if IsOpener(t[i]) {
      BodyEndBefore(t, t', p, i + 1, CloserOf(t[i]));
      BodyEndBefore(t, t', p, BodyEnd(t, i + 1, CloserOf(t[i])).value, closer);
    } else if t[i] != closer {
      BodyEndBefore(t, t', p, i + 1, closer);
    }
  }

  lemma {:induction false} FreeEndBefore(t: string, t': string, p: nat, i: nat, stops: set<char>)
    requires SameUpTo(t, t', p) && i <= |t| && FreeEnd(t, i, stops) < p
    ensures FreeEnd(t', i, stops) == FreeEnd(t, i, stops)
    decreases |t| - i
  {
    if IsQuote(t[i]) {
      StringEndBefore(t, t', p, i + 1, t[i]);
      FreeEndBefore(t, t', p, StringEnd(t, i + 1, t[i]).value, stops);
    } else if IsOpener(t[i]) {
      BodyEndBefore(t, t', p, i + 1, CloserOf(t[i]));
      FreeEndBefore(t, t', p, BodyEnd(t, i + 1, CloserOf(t[i])).value, stops);
    } else if !IsSpace(t[i]) && t[i] !in stops {
      FreeEndBefore(t, t', p, i + 1, stops);
    }
  }

  lemma {:induction false} BackslashesBefore(t: string, t': string, p: nat, i: nat)
    requires SameUpTo(t, t', p) && i <= p
    ensures Backslashes(t, i) == Backslashes(t', i)
    decreases i
  {
    if i > 0 && t[i - 1] == '\\' { BackslashesBefore(t, t', p, i - 1); }
  }

  lemma {:induction false} NearestQuoteBefore(t: string, t': string, p: nat, i: nat, pos: nat, quote: char)
    requires SameUpTo(t, t', p) && i <= p
    ensures NearestQuote(t, i, pos, quote) == NearestQuote(t', i, pos, quote)
    decreases i
  {
    if pos < i {
      BackslashesBefore(t, t', p, i - 1);
      NearestQuoteBefore(t, t', p, i - 1, pos, quote);
    }
  }

  /** A separator that ends before `p`, or at `p` before something that is no space in either text. */
  lemma {:induction false} SeparatorBefore(t: string, t': string, p: nat, i: nat, s: nat)
    requires SameUpTo(t, t', p) && i <= p && s <= p && (s == p && p < |t'| ==> !IsSpace(t'[p]))
    requires SeparatorEnd(t, i) == Some(s)
    ensures SeparatorEnd(t', i) == Some(s)
  {
    SeparatorIs(t, i, s);
    var c: nat :| SeparatorAt(t, i, c, s);
    assert SeparatorAt(t', i, c, s) by {
      forall j | i <= j < s && j != c ensures IsSpace(t'[j]) { assert IsSpace(t[j]); }
    }
    SeparatorIs(t', i, s);
  }

  lemma {:induction false} MarkerHoldsNoSeparator(k: nat)
    requires k < |MARKER|
    ensures !IsSpace(MARKER[k]) && MARKER[k] != ':' && MARKER[k] != '='
  {
    assert MARKER == ['[', 'R', 'E', 'D', 'A', 'C', 'T', 'E', 'D', '_', 'C', 'R', 'E', 'D', 'E', 'N', 'T', 'I', 'A', 'L', ']'];
  }

  /** The texts go on past `f`, with the end of a separator before it. */
  ghost predicate SeparatedAt(t: string, t': string, f: nat) {
    && SameUpTo(t, t', f) && 0 < f < |t| && f < |t'|
    && (IsSpace(t[f - 1]) || t[f - 1] == ':' || t[f - 1] == '=')
  }

  lemma {:induction false} NoMarkerAcross(t: string, t': string, f: nat, start: nat)
    requires SeparatedAt(t, t', f) && start < f && MarkerAt(t, start)
    ensures MarkerAt(t', start)
  {
    if f < start + |MARKER| {
      assert t[start..start + |MARKER|][f - 1 - start] == MARKER[f - 1 - start];
      MarkerHoldsNoSeparator(f - 1 - start);
      assert false;
    } else {
      assert t[start..start + |MARKER|] == t'[start..start + |MARKER|];
    }
  }

  /** Whether there is something to hide at `start` is decided before `f`. */
  lemma {:induction false} NothingBefore(t: string, t': string, f: nat, start: nat)
    requires SeparatedAt(t, t', f) && start < f && NothingToHide(t, start)
    ensures NothingToHide(t', start)
  {
    if MarkerAt(t, start) {
      NoMarkerAcross(t, t', f, start);
    } else if IsQuote(t[start]) && start + 1 < f {
      assert t[start + 1] == t'[start + 1];
    }
  }

  /** A value hidden before `f` is hidden alike in both texts. */
  lemma {:induction false} HiddenBefore(t: string, t': string, f: nat, start: nat, end: nat, marker: string)
    requires SeparatedAt(t, t', f) && HidesValue(t, start, end, marker) && end < f
    ensures HidesValue(t', start, end, marker)
  {
    FreeEndBefore(t, t', f, start, JSON_STOPS);
    if NothingToHide(t', start) { NothingBefore(t', t, f, start); }
    if IsQuote(t[start]) {
      var close := StringEnd(t, start + 1, t[start]).value;
      StringEndBefore(t, t', f, start + 1, t[start]);
      assert t[start + 1..close] == t'[start + 1..close];
    }
  }

  lemma {:induction false} RedactsAs(t: string, start: nat, end: nat, marker: string)
    requires HidesValue(t, start, end, marker)
    ensures Redacts(t, start) == Some(Redaction(marker, end))
  {
    RedactionCoversValue(t, start);
  }

  // ------------------------------------------------ what is decided behind `e`

  /** From `e` and `e'` on the same, at first with nothing that quotes or escapes. */
  ghost predicate SameTails(t: string, e: nat, t': string, e': nat) {
    && e <= |t| && e' <= |t'| && t[e..] == t'[e'..]
    && (e < |t| ==> !IsQuote(t[e]) && t[e] != '\\')
  }

  /** The same place behind `e` and `e'`. */
  predicate SamePlace(e: nat, i: nat, e': nat, i': nat) { e <= i && e' <= i' && i - e == i' - e' }

  lemma {:induction false} TailAt(t: string, e: nat, t': string, e': nat, i: nat, i': nat)
    requires SameTails(t, e, t', e') && SamePlace(e, i, e', i')
    ensures |t| - e == |t'| - e'
    ensures i < |t| ==> t[i] == t'[i']
  {
    assert |t[e..]| == |t'[e'..]|;
    if i < |t| { assert t[e..][i - e] == t'[e'..][i' - e']; }
  }

  predicate SameEnd(a: Option<nat>, e: nat, b: Option<nat>, e': nat) {
    (a.None? <==> b.None?) && (a.Some? ==> a.value - e == b.value - e')
  }

  lemma {:induction false} StringEndMoved(t: string, e: nat, t': string, e': nat, i: nat, i': nat, quote: char)
    requires SameTails(t, e, t', e') && SamePlace(e, i, e', i')
    ensures SameEnd(StringEnd(t, i, quote), e, StringEnd(t', i', quote), e')
    decreases |t| - i
  {
    TailAt(t, e, t', e', i, i');
    if i < |t| {
      if t[i] == '\\' { StringEndMoved(t, e, t', e', i + 2, i' + 2, quote); }
      else if t[i] != quote { StringEndMoved(t, e, t', e', i + 1, i' + 1, quote); }
    }
  }

  /** Where what opens at `i` closes. */
  function Inner(t: string, i: nat): (end: Option<nat>)
    requires i < |t|
    ensures end.Some? ==> i < end.value <= |t|
  {
    if IsQuote(t[i]) then StringEnd(t, i + 1, t[i]) else BodyEnd(t, i + 1, CloserOf(t[i]))
  }

  lemma {:induction false} InnerMoved(t: string, e: nat, t': string, e': nat, i: nat, i': nat)
    requires SameTails(t, e, t', e') && SamePlace(e, i, e', i') && i < |t|
    ensures i' < |t'| && SameEnd(Inner(t, i), e, Inner(t', i'), e')
    decreases |t| - i, 0
  {
    TailAt(t, e, t', e', i, i');
    if IsQuote(t[i]) {
      StringEndMoved(t, e, t', e', i + 1, i' + 1, t[i]);
    } else {
      BodyEndMoved(t, e, t', e', i + 1, i' + 1, CloserOf(t[i]));
    }
  }

  lemma {:induction false} BodyEndMoved(t: string, e: nat, t': string, e': nat, i: nat, i': nat, closer: char)
    requires SameTails(t, e, t', e') && SamePlace(e, i, e', i')
    ensures SameEnd(BodyEnd(t, i, closer), e, BodyEnd(t', i', closer), e')
    decreases |t| - i, 1
  {
    TailAt(t, e, t', e', i, i');
    if i < |t| {
      if IsQuote(t[i]) || IsOpener(t[i]) {
        InnerMoved(t, e, t', e', i, i');
        var inner, inner' := Inner(t, i), Inner(t', i');
        if inner.Some? { BodyEndMoved(t, e, t', e', inner.value, inner'.value, closer); }
      } else if t[i] != closer {
        BodyEndMoved(t, e, t', e', i + 1, i' + 1, closer);
      }
    }
  }

  lemma {:induction false} FreeEndMoved(t: string, e: nat, t': string, e': nat, i: nat, i': nat, stops: set<char>)
    requires SameTails(t, e, t', e') && SamePlace(e, i, e', i') && i <= |t|
    ensures i' <= |t'| && FreeEnd(t, i, stops) - e == FreeEnd(t', i', stops) - e'
    decreases |t| - i
  {
    TailAt(t, e, t', e', i, i');
    if i < |t| {
      if IsQuote(t[i]) || IsOpener(t[i]) {
        InnerMoved(t, e, t', e', i, i');
        var inner, inner' := Inner(t, i), Inner(t', i');
        if inner.Some? { FreeEndMoved(t, e, t', e', inner.value, inner'.value, stops); }
      } else if !IsSpace(t[i]) && t[i] !in stops {
        FreeEndMoved(t, e, t', e', i + 1, i' + 1, stops);
      }
    }
  }

  lemma {:induction false} BackslashesMoved(t: string, e: nat, t': string, e': nat, i: nat, i': nat)
    requires SameTails(t, e, t', e') && SamePlace(e, i, e', i') && e < i <= |t|
    ensures i' <= |t'| && Backslashes(t', i') == Backslashes(t, i)
    decreases i
  {
    TailAt(t, e, t', e', i - 1, i' - 1);
    if e < i - 1 { BackslashesMoved(t, e, t', e', i - 1, i' - 1); }
  }

  lemma {:induction false} NearestQuoteMoved(t: string, e: nat, t': string, e': nat, i: nat, pos: nat, i': nat, pos': nat, quote: char)
    requires SameTails(t, e, t', e') && SamePlace(e, i, e', i') && SamePlace(e, pos, e', pos') && i <= |t| && IsQuote(quote)
    ensures i' <= |t'| && SameEnd(NearestQuote(t, i, pos, quote), e, NearestQuote(t', i', pos', quote), e')
    decreases i
  {
    TailAt(t, e, t', e', i, i');
    if pos < i {
      TailAt(t, e, t', e', i - 1, i' - 1);
      if e < i - 1 { BackslashesMoved(t, e, t', e', i - 1, i' - 1); }
      NearestQuoteMoved(t, e, t', e', i - 1, pos, i' - 1, pos', quote);
    }
  }

  lemma {:induction false} SpacesMoved(t: string, e: nat, t': string, e': nat, i: nat, i': nat)
    requires SameTails(t, e, t', e') && SamePlace(e, i, e', i') && i <= |t|
    ensures i' <= |t'| && SkipSpaces(t, i) - e == SkipSpaces(t', i') - e'
    decreases |t| - i
  {
    TailAt(t, e, t', e', i, i');
    if i < |t| && IsSpace(t[i]) { SpacesMoved(t, e, t', e', i + 1, i' + 1); }
  }

  lemma {:induction false} SeparatorMoved(t: string, e: nat, t': string, e': nat, i: nat, i': nat)
    requires SameTails(t, e, t', e') && SamePlace(e, i, e', i') && i <= |t|
    ensures i' <= |t'| && SameEnd(SeparatorEnd(t, i), e, SeparatorEnd(t', i'), e')
  {
    SpacesMoved(t, e, t', e', i, i');
    var j, j' := SkipSpaces(t, i), SkipSpaces(t', i');
    TailAt(t, e, t', e', j, j');
    if j < |t| { SpacesMoved(t, e, t', e', j + 1, j' + 1); }
  }

  lemma {:induction false} SliceMoved(t: string, e: nat, t': string, e': nat, a: nat, b: nat, a': nat, b': nat)
    requires SameTails(t, e, t', e') && SamePlace(e, a, e', a') && SamePlace(e, b, e', b') && a <= b <= |t|
    ensures a' <= b' <= |t'| && t[a..b] == t'[a'..b']
  {
    TailAt(t, e, t', e', a, a');
    assert t[e..][a - e..b - e] == t[a..b] && t'[e'..][a' - e'..b' - e'] == t'[a'..b'];
  }

  lemma {:induction false} MarkerMoved(t: string, e: nat, t': string, e': nat, i: nat, i': nat)
    requires SameTails(t, e, t', e') && SamePlace(e, i, e', i')
    ensures MarkerAt(t', i') <==> MarkerAt(t, i)
  {
    TailAt(t, e, t', e', i, i');
    if i + |MARKER| <= |t| { SliceMoved(t, e, t', e', i, i + |MARKER|, i', i' + |MARKER|); }
  }

  lemma {:induction false} OpenMoved(t: string, e: nat, t': string, e': nat, i: nat, i': nat)
    requires SameTails(t, e, t', e') && SamePlace(e, i, e', i') && i < |t|
    ensures i' < |t'| && (OpenEnded(t', i') <==> OpenEnded(t, i))
  {
    TailAt(t, e, t', e', i, i');
    if IsQuote(t[i]) {
      StringEndMoved(t, e, t', e', i + 1, i' + 1, t[i]);
      var close, close' := StringEnd(t, i + 1, t[i]), StringEnd(t', i' + 1, t[i]);
      if close.Some? { SliceMoved(t, e, t', e', i + 1, close.value, i' + 1, close'.value); }
    }
  }

  lemma {:induction false} NothingMoved(t: string, e: nat, t': string, e': nat, i: nat, i': nat)
    requires SameTails(t, e, t', e') && SamePlace(e, i, e', i')
    ensures NothingToHide(t, i) <==> NothingToHide(t', i')
  {
    TailAt(t, e, t', e', i, i');
    if i < |t| {
      TailAt(t, e, t', e', i + 1, i' + 1);
      MarkerMoved(t, e, t', e', i, i');
      FreeEndMoved(t, e, t', e', i, i', JSON_STOPS);
    }
  }

  lemma {:induction false} HidesMoved(t: string, e: nat, t': string, e': nat, i: nat, i': nat, end: nat, end': nat, marker: string)
    requires SameTails(t, e, t', e') && SamePlace(e, i, e', i') && SamePlace(e, end, e', end')
    requires HidesValue(t, i, end, marker)
    ensures HidesValue(t', i', end', marker)
  {
    TailAt(t, e, t', e', i, i');
    NothingMoved(t, e, t', e', i, i');
    FreeEndMoved(t, e, t', e', i, i', JSON_STOPS);
    OpenMoved(t, e, t', e', i, i');
  }

  ghost predicate SameRedaction(r: Option<Redaction>, e: nat, r': Option<Redaction>, e': nat) {
    && (r.None? <==> r'.None?)
    && (r.Some? ==> r.value.marker == r'.value.marker && r.value.end - e == r'.value.end - e')
  }

  lemma {:induction false} RedactsMoved(t: string, e: nat, t': string, e': nat, i: nat, i': nat)
    requires SameTails(t, e, t', e') && SamePlace(e, i, e', i')
    ensures SameRedaction(Redacts(t, i), e, Redacts(t', i'), e')
  {
    RedactionCoversValue(t, i);
    RedactionCoversValue(t', i');
    NothingMoved(t, e, t', e', i, i');
    if Redacts(t, i).Some? {
      var r := Redacts(t, i).value;
      HidesMoved(t, e, t', e', i, i', r.end, r.end - e + e', r.marker);
      RedactsAs(t', i', r.end - e + e', r.marker);
    }
  }

  /** The name of the key that ends at `i`, if it opens after `pos`. */
  function NameOf(t: string, i: nat, pos: nat): Option<string>
    requires i < |t|
  {
    var opening := NearestQuote(t, i, pos, t[i]);
    if opening.None? then None else Some(t[opening.value + 1..i])
  }

  lemma {:induction false} NameMoved(t: string, e: nat, t': string, e': nat, i: nat, pos: nat, i': nat, pos': nat)
    requires SameTails(t, e, t', e') && SamePlace(e, i, e', i') && SamePlace(e, pos, e', pos') && i < |t| && IsQuote(t[i])
    ensures i' < |t'| && NameOf(t', i', pos') == NameOf(t, i, pos)
  {
    TailAt(t, e, t', e', i, i');
    NearestQuoteMoved(t, e, t', e', i, pos, i', pos', t[i]);
    var opening, opening' := NearestQuote(t, i, pos, t[i]), NearestQuote(t', i', pos', t[i]);
    if opening.Some? { SliceMoved(t, e, t', e', opening.value + 1, i, opening'.value + 1, i'); }
  }

  lemma {:induction false} RedactionByName(t: string, i: nat, pos: nat, secret: string -> bool)
    requires KeyEndAt(t, i)
    ensures var name := NameOf(t, i, pos);
            KeyRedaction(t, i, pos, secret) ==
              if name.Some? && EscapedSecret(name.value, secret) then Redacts(t, SeparatorEnd(t, i + 1).value) else None
  {
  }

  lemma {:induction false} KeyEndMoved(t: string, e: nat, t': string, e': nat, i: nat, pos: nat, i': nat, pos': nat)
    requires SameTails(t, e, t', e') && SamePlace(e, i, e', i') && SamePlace(e, pos, e', pos') && i < |t|
    ensures i' < |t'| && t[i] == t'[i'] && (IsKeyEnd(t', i', pos') <==> IsKeyEnd(t, i, pos))
    ensures SameEnd(SeparatorEnd(t, i + 1), e, SeparatorEnd(t', i' + 1), e')
  {
    TailAt(t, e, t', e', i, i');
    SeparatorMoved(t, e, t', e', i + 1, i' + 1);
    if e < i { BackslashesMoved(t, e, t', e', i, i'); }
  }

  /** What the pass replaces on account of the key that ends at `i`, if anything. */
  function KeyStep(t: string, i: nat, pos: nat, secret: string -> bool): Option<Span> {
    if i < |t| && IsKeyEnd(t, i, pos) && KeyRedaction(t, i, pos, secret).Some? then
      var r := KeyRedaction(t, i, pos, secret).value;
      Some(Span(SeparatorEnd(t, i + 1).value, r.end, r.marker))
    else None
  }

  lemma {:induction false} KeySpansStep(t: string, i: nat, pos: nat, secret: string -> bool)
    requires i < |t|
    ensures KeySpans(t, i, pos, secret) ==
              match KeyStep(t, i, pos, secret)
              case None => KeySpans(t, i + 1, pos, secret)
              case Some(span) => [span] + KeySpans(t, i + 1, span.to, secret)
    ensures KeyStep(t, i, pos, secret).Some? ==>
              var span := KeyStep(t, i, pos, secret).value; pos <= i < span.from < span.to <= |t|
  {
    if KeyStep(t, i, pos, secret).Some? { RedactionCoversValue(t, SeparatorEnd(t, i + 1).value); }
  }

  ghost predicate SameStep(a: Option<Span>, e: nat, b: Option<Span>, e': nat) {
    && (a.None? <==> b.None?)
    && (a.Some? ==> a.value.marker == b.value.marker && a.value.from - e == b.value.from - e' && a.value.to - e == b.value.to - e')
  }

  lemma {:induction false} KeyRedactionMoved(t: string, e: nat, t': string, e': nat, i: nat, pos: nat, i': nat, pos': nat,
                                             secret: string -> bool)
    requires SameTails(t, e, t', e') && SamePlace(e, i, e', i') && SamePlace(e, pos, e', pos')
    requires KeyEndAt(t, i) && KeyEndAt(t', i')
    ensures SameRedaction(KeyRedaction(t, i, pos, secret), e, KeyRedaction(t', i', pos', secret), e')
  {
    KeyEndMoved(t, e, t', e', i, pos, i', pos');
    NameMoved(t, e, t', e', i, pos, i', pos');
    RedactsMoved(t, e, t', e', SeparatorEnd(t, i + 1).value, SeparatorEnd(t', i' + 1).value);
    RedactionByName(t, i, pos, secret);
    RedactionByName(t', i', pos', secret);
  }

  lemma {:induction false} KeyStepMoved(t: string, e: nat, t': string, e': nat, i: nat, pos: nat, i': nat, pos': nat,
                                        secret: string -> bool)
    requires SameTails(t, e, t', e') && SamePlace(e, i, e', i') && SamePlace(e, pos, e', pos') && i < |t|
    ensures i' < |t'| && SameStep(KeyStep(t, i, pos, secret), e, KeyStep(t', i', pos', secret), e')
  {
    KeyEndMoved(t, e, t', e', i, pos, i', pos');
    if IsKeyEnd(t, i, pos) { KeyRedactionMoved(t, e, t', e', i, pos, i', pos', secret); }
  }

  /** Behind the hidden value the pass does the same in both texts. */
  lemma {:induction false} KeysMoved(t: string, e: nat, t': string, e': nat, i: nat, pos: nat, i': nat, pos': nat,
                                     secret: string -> bool)
    requires SameTails(t, e, t', e') && SamePlace(e, i, e', i') && SamePlace(e, pos, e', pos') && pos <= |t|
    ensures SameSpans(t, pos, KeySpans(t, i, pos, secret), t', pos', KeySpans(t', i', pos', secret))
    decreases |t| - i, 1
  {
    if |t| <= i {
      KeysOver(t, e, t', e', i, pos, i', pos', secret);
    } else {
      KeyStepMoved(t, e, t', e', i, pos, i', pos', secret);
      var a, b := KeyStep(t, i, pos, secret), KeyStep(t', i', pos', secret);
      if a.None? {
        KeysMoved(t, e, t', e', i + 1, pos, i' + 1, pos', secret);
        NextIfNone(t, i, pos, t', i', pos', secret);
      } else {
        KeysMovedFrom(t, e, t', e', i, pos, i', pos', secret, a.value, b.value);
      }
    }
  }

  lemma {:induction false} KeysMovedFrom(t: string, e: nat, t': string, e': nat, i: nat, pos: nat, i': nat, pos': nat,
                                         secret: string -> bool, a: Span, b: Span)
    requires SameTails(t, e, t', e') && SamePlace(e, i, e', i') && SamePlace(e, pos, e', pos') && pos <= |t| && i < |t|
    requires KeyStep(t, i, pos, secret) == Some(a) && KeyStep(t', i', pos', secret) == Some(b) && i' < |t'|
    requires SameStep(Some(a), e, Some(b), e')
    ensures SameSpans(t, pos, KeySpans(t, i, pos, secret), t', pos', KeySpans(t', i', pos', secret))
    decreases |t| - i, 0
  {
    StepsAlike(t, e, t', e', i, pos, i', pos', secret);
    KeysMoved(t, e, t', e', i + 1, a.to, i' + 1, b.to, secret);
    NextIfSome(t, i, pos, a, t', i', pos', b, secret);
  }

  lemma {:induction false} KeyStepBounds(t: string, i: nat, pos: nat, secret: string -> bool)
    requires KeyStep(t, i, pos, secret).Some?
    ensures var span := KeyStep(t, i, pos, secret).value; pos <= i < span.from < span.to <= |t|
  {
    KeySpansStep(t, i, pos, secret);
  }

  lemma {:induction false} StepsAlike(t: string, e: nat, t': string, e': nat, i: nat, pos: nat, i': nat, pos': nat,
                                      secret: string -> bool)
    requires SameTails(t, e, t', e') && SamePlace(e, i, e', i') && SamePlace(e, pos, e', pos')
    requires KeyStep(t, i, pos, secret).Some? && KeyStep(t', i', pos', secret).Some?
    requires SameStep(KeyStep(t, i, pos, secret), e, KeyStep(t', i', pos', secret), e')
    ensures var a, b := KeyStep(t, i, pos, secret).value, KeyStep(t', i', pos', secret).value;
            && SamePlace(e, a.to, e', b.to) && pos <= a.from <= |t| && a.to <= |t| && pos' <= b.from <= |t'|
            && a.marker == b.marker && t[pos..a.from] == t'[pos'..b.from]
  {
    var a, b := KeyStep(t, i, pos, secret).value, KeyStep(t', i', pos', secret).value;
    KeyStepBounds(t, i, pos, secret);
    KeyStepBounds(t', i', pos', secret);
    SliceMoved(t, e, t', e', pos, a.from, pos', b.from);
  }

  lemma {:induction false} NextIfNone(t: string, i: nat, pos: nat, t': string, i': nat, pos': nat, secret: string -> bool)
    requires i < |t| && i' < |t'| && KeyStep(t, i, pos, secret).None? && KeyStep(t', i', pos', secret).None?
    requires SameSpans(t, pos, KeySpans(t, i + 1, pos, secret), t', pos', KeySpans(t', i' + 1, pos', secret))
    ensures SameSpans(t, pos, KeySpans(t, i, pos, secret), t', pos', KeySpans(t', i', pos', secret))
  {
    KeySpansStep(t, i, pos, secret);
    KeySpansStep(t', i', pos', secret);
  }

  lemma {:induction false} NextIfSome(t: string, i: nat, pos: nat, a: Span, t': string, i': nat, pos': nat, b: Span,
                                      secret: string -> bool)
    requires i < |t| && i' < |t'| && KeyStep(t, i, pos, secret) == Some(a) && KeyStep(t', i', pos', secret) == Some(b)
    requires a.marker == b.marker && pos <= a.from <= |t| && pos' <= b.from <= |t'| && t[pos..a.from] == t'[pos'..b.from]
    requires SameSpans(t, a.to, KeySpans(t, i + 1, a.to, secret), t', b.to, KeySpans(t', i' + 1, b.to, secret))
    ensures SameSpans(t, pos, KeySpans(t, i, pos, secret), t', pos', KeySpans(t', i', pos', secret))
  {
    KeySpansStep(t, i, pos, secret);
    KeySpansStep(t', i', pos', secret);
    SameSpansFirst(t, pos, a, KeySpans(t, i + 1, a.to, secret), t', pos', b, KeySpans(t', i' + 1, b.to, secret));
  }

  lemma {:induction false} KeysOver(t: string, e: nat, t': string, e': nat, i: nat, pos: nat, i': nat, pos': nat,
                                    secret: string -> bool)
    requires SameTails(t, e, t', e') && SamePlace(e, i, e', i') && SamePlace(e, pos, e', pos') && pos <= |t| <= i
    ensures SameSpans(t, pos, KeySpans(t, i, pos, secret), t', pos', KeySpans(t', i', pos', secret))
  {
    TailAt(t, e, t', e', pos, pos');
    assert t[pos..] == t[e..][pos - e..] && t'[pos'..] == t'[e'..][pos' - e'..];
  }

  ghost predicate SameSpans(t: string, pos: nat, spans: seq<Span>, t': string, pos': nat, spans': seq<Span>) {
    Ascending(t, pos, spans) && Ascending(t', pos', spans') && AgreeOutside(t, pos, spans, t', pos', spans')
  }

  lemma {:induction false} SameSpansFirst(t: string, pos: nat, span: Span, spans: seq<Span>,
                                          t': string, pos': nat, span': Span, spans': seq<Span>)
    requires SameSpans(t, span.to, spans, t', span'.to, spans') && span.marker == span'.marker
    requires pos <= span.from < span.to <= |t| && pos' <= span'.from < span'.to <= |t'|
    requires t[pos..span.from] == t'[pos'..span'.from]
    ensures SameSpans(t, pos, [span] + spans, t', pos', [span'] + spans')
  {
    assert ([span] + spans)[1..] == spans && ([span'] + spans')[1..] == spans';
  }

  // ------------------------------------------------ the whole pass

  /** Key ends before `pos` are passed over. */
  lemma {:induction false} KeysFromPos(t: string, from: nat, pos: nat, secret: string -> bool)
    requires from <= pos <= |t|
    ensures KeySpans(t, from, pos, secret) == KeySpans(t, pos, pos, secret)
    decreases pos - from
  {
    if from < pos { KeysFromPos(t, from + 1, pos, secret); }
  }

  /** Behind which key a span stands. */
  lemma {:induction false} KeyOf(t: string, from: nat, pos: nat, secret: string -> bool, span: Span) returns (i: nat)
    requires span in KeySpans(t, from, pos, secret)
    ensures from <= i && KeyEndAt(t, i) && SeparatorEnd(t, i + 1) == Some(span.from)
    decreases |t| - from
  {
    KeySpansStep(t, from, pos, secret);
    var step := KeyStep(t, from, pos, secret);
    if step.None? {
      i := KeyOf(t, from + 1, pos, secret, span);
    } else if step.value == span {
      i := from;
    } else {
      i := KeyOf(t, from + 1, step.value.to, secret, span);
    }
  }

  lemma {:induction false} TwinsBegin(t: string, e: nat, t': string, e': nat, f: nat, marker: string)
    requires Twins(t, e, t', e', f, marker)
    ensures SameUpTo(t, t', f) && f < |t| && f < |t'| && !IsSpace(t[f]) && !IsSpace(t'[f])
  {
    forall k | 0 <= k < f ensures t[k] == t'[k] { assert t[..f][k] == t'[..f][k]; }
    NoSpaceFirst(t, f, e, marker);
    NoSpaceFirst(t', f, e', marker);
  }

  lemma {:induction false} NoSpaceFirst(t: string, start: nat, end: nat, marker: string)
    requires HidesValue(t, start, end, marker)
    ensures !IsSpace(t[start])
  {
  }

  lemma {:induction false} TwinsEnd(t: string, e: nat, t': string, e': nat, f: nat, marker: string)
    requires Twins(t, e, t', e', f, marker)
    ensures SameTails(t, e, t', e')
  {
    if e < |t| { FreeEndStops(t, f, JSON_STOPS); }
  }

  lemma {:induction false} SeparatorLast(t: string, i: nat, f: nat)
    requires i <= |t| && SeparatorEnd(t, i) == Some(f)
    ensures 0 < f <= |t| && i < f && (IsSpace(t[f - 1]) || t[f - 1] == ':' || t[f - 1] == '=')
  {
    SeparatorIs(t, i, f);
    var c: nat :| SeparatorAt(t, i, c, f);
    assert c == f - 1 || IsSpace(t[f - 1]);
  }

  lemma {:induction false} TwinsSeparated(t: string, e: nat, t': string, e': nat, f: nat, marker: string, i: nat)
    requires Twins(t, e, t', e', f, marker) && KeyEndAt(t, i) && SeparatorEnd(t, i + 1) == Some(f)
    ensures SeparatedAt(t, t', f) && i < f && SameTails(t, e, t', e')
    ensures !IsSpace(t[f]) && !IsSpace(t'[f])
  {
    TwinsBegin(t, e, t', e', f, marker);
    TwinsEnd(t, e, t', e', f, marker);
    SeparatorLast(t, i + 1, f);
  }

  lemma {:induction false} NameBefore(t: string, t': string, p: nat, i: nat, pos: nat)
    requires SameUpTo(t, t', p) && i < p
    ensures NameOf(t', i, pos) == NameOf(t, i, pos)
  {
    NearestQuoteBefore(t, t', p, i, pos, t[i]);
    var opening := NearestQuote(t, i, pos, t[i]);
    if opening.Some? { assert t[opening.value + 1..i] == t'[opening.value + 1..i]; }
  }

  lemma {:induction false} RedactsBefore(t: string, t': string, f: nat, s: nat)
    requires SeparatedAt(t, t', f) && s < f
    ensures Redacts(t, s).None? ==> Redacts(t', s).None?
    ensures Redacts(t, s).Some? && Redacts(t, s).value.end < f ==> Redacts(t', s) == Redacts(t, s)
  {
    RedactionCoversValue(t, s);
    RedactionCoversValue(t', s);
    if Redacts(t, s).None? {
      NothingBefore(t, t', f, s);
    } else if Redacts(t, s).value.end < f {
      HiddenBefore(t, t', f, s, Redacts(t, s).value.end, Redacts(t, s).value.marker);
      RedactsAs(t', s, Redacts(t, s).value.end, Redacts(t, s).value.marker);
    }
  }

  lemma {:induction false} KeyEndBefore(t: string, t': string, f: nat, from: nat, pos: nat, s: nat)
    requires SeparatedAt(t, t', f) && IsKeyEnd(t, from, pos) && SeparatorEnd(t, from + 1) == Some(s) && s < f
    ensures IsKeyEnd(t', from, pos) && SeparatorEnd(t', from + 1) == Some(s)
  {
    SeparatorBefore(t, t', f, from + 1, s);
    BackslashesBefore(t, t', f, from);
  }

  /** The pass decides about a key end that comes before the hidden value's own as it did. */
  lemma {:induction false} SameKeyBefore(t: string, t': string, f: nat, from: nat, pos: nat, secret: string -> bool, s: nat)
    requires SeparatedAt(t, t', f) && IsKeyEnd(t, from, pos) && SeparatorEnd(t, from + 1) == Some(s) && s < f
    ensures IsKeyEnd(t', from, pos) && SeparatorEnd(t', from + 1) == Some(s)
    ensures KeyRedaction(t, from, pos, secret).None? ==> KeyRedaction(t', from, pos, secret).None?
    ensures KeyRedaction(t, from, pos, secret).Some? && KeyRedaction(t, from, pos, secret).value.end < f ==>
              KeyRedaction(t', from, pos, secret) == KeyRedaction(t, from, pos, secret)
  {
    KeyEndBefore(t, t', f, from, pos, s);
    NameBefore(t, t', f, from, pos);
    RedactsBefore(t, t', f, s);
    RedactionByName(t, from, pos, secret);
    RedactionByName(t', from, pos, secret);
  }

  /** A value replaced before the hidden one ends before it begins. */
  lemma {:induction false} EndsBefore(t: string, start: nat, end: nat, f: nat, marker: string, e: nat, hidden: string)
    requires HidesValue(t, start, end, marker) && HidesValue(t, f, e, hidden) && end <= f
    ensures end < f
  {
    if end == f { FreeEndStops(t, start, JSON_STOPS); }
  }

  /** A key end that gives nothing before the hidden value's own gives nothing in the other text. */
  lemma {:induction false} NoStepBefore(t: string, e: nat, t': string, e': nat, f: nat, marker: string,
                                        from: nat, pos: nat, secret: string -> bool)
    requires Twins(t, e, t', e', f, marker) && Span(f, e, marker) in KeySpans(t, from + 1, pos, secret)
    requires KeyStep(t, from, pos, secret).None?
    ensures KeyStep(t', from, pos, secret).None?
  {
    var own := KeyOf(t, from + 1, pos, secret, Span(f, e, marker));
    TwinsSeparated(t, e, t', e', f, marker, own);
    NoStepBeforeKey(t, t', f, own, from, pos, secret);
  }

  lemma {:induction false} NoStepBeforeKey(t: string, t': string, f: nat, own: nat, from: nat, pos: nat, secret: string -> bool)
    requires SeparatedAt(t, t', f) && from < own < f && IsQuote(t[own]) && KeyStep(t, from, pos, secret).None?
    ensures KeyStep(t', from, pos, secret).None?
  {
    if KeyStep(t', from, pos, secret).Some? {
      var s := SeparatorEnd(t', from + 1).value;
      if own < s { NoQuoteInSeparator(t', from + 1, own); }
      assert SeparatedAt(t', t, f);
      SameKeyBefore(t', t, f, from, pos, secret, s);
      SameKeyBefore(t, t', f, from, pos, secret, s);
    }
  }

  lemma {:induction false} OwnStep(t: string, e: nat, t': string, e': nat, f: nat, marker: string,
                                   from: nat, pos: nat, secret: string -> bool)
    requires Twins(t, e, t', e', f, marker)
    requires KeyStep(t, from, pos, secret).Some? && KeyStep(t, from, pos, secret).value.from == f
    ensures KeyStep(t, from, pos, secret) == Some(Span(f, e, marker)) && KeyStep(t', from, pos, secret) == Some(Span(f, e', marker))
    ensures from < f && SameTails(t, e, t', e')
  {
    TwinsSeparated(t, e, t', e', f, marker, from);
    SeparatorBefore(t, t', f, from + 1, f);
    BackslashesBefore(t, t', f, from);
    NearestQuoteBefore(t, t', f, from, pos, t[from]);
    var opening := NearestQuote(t, from, pos, t[from]);
    assert t[opening.value + 1..from] == t'[opening.value + 1..from];
    RedactsAs(t, f, e, marker);
    RedactsAs(t', f, e', marker);
  }

  /** A key replaced before it is replaced alike, and ends before the hidden value begins. */
  lemma {:induction false} StepBefore(t: string, e: nat, t': string, e': nat, f: nat, marker: string,
                                      from: nat, pos: nat, secret: string -> bool, step: Span)
    requires Twins(t, e, t', e', f, marker) && KeyStep(t, from, pos, secret) == Some(step)
    requires Span(f, e, marker) in KeySpans(t, from + 1, step.to, secret)
    ensures KeyStep(t', from, pos, secret) == Some(step) && pos <= step.from < step.to < f
    ensures t[pos..step.from] == t'[pos..step.from]
  {
    var own := KeyOf(t, from + 1, step.to, secret, Span(f, e, marker));
    TwinsSeparated(t, e, t', e', f, marker, own);
    KeyStepBounds(t, from, pos, secret);
    KeySpansAscend(t, from + 1, step.to, secret);
    SpanBehind(t, step.to, KeySpans(t, from + 1, step.to, secret), Span(f, e, marker));
    RedactionCoversValue(t, step.from);
    EndsBefore(t, step.from, step.to, f, step.marker, e, marker);
    SameKeyBefore(t, t', f, from, pos, secret, step.from);
    SliceBefore(t, t', f, pos, step.from);
  }

  /** The hidden value is what a key end gives, or comes of a later one. */
  lemma {:induction false} HiddenLater(t: string, from: nat, pos: nat, secret: string -> bool, hidden: Span)
    requires hidden in KeySpans(t, from, pos, secret)
    ensures from < |t|
    ensures var step := KeyStep(t, from, pos, secret);
            if step.None? then hidden in KeySpans(t, from + 1, pos, secret)
            else step.value == hidden || hidden in KeySpans(t, from + 1, step.value.to, secret)
  {
    KeySpansStep(t, from, pos, secret);
  }

  /** Outside the hidden value the spans of the two texts are the same. */
  lemma {:induction false} KeysAgree(t: string, e: nat, t': string, e': nat, f: nat, marker: string,
                                     from: nat, pos: nat, secret: string -> bool)
    requires Twins(t, e, t', e', f, marker) && pos <= f
    requires Span(f, e, marker) in KeySpans(t, from, pos, secret)
    ensures SameSpans(t, pos, KeySpans(t, from, pos, secret), t', pos, KeySpans(t', from, pos, secret))
    decreases |t| - from
  {
    var step := KeyStep(t, from, pos, secret);
    HiddenLater(t, from, pos, secret, Span(f, e, marker));
    KeyOfBefore(t, e, t', e', f, marker, from, pos, secret);
    if step.None? {
      NoStepBefore(t, e, t', e', f, marker, from, pos, secret);
      KeysAgree(t, e, t', e', f, marker, from + 1, pos, secret);
      NextIfNone(t, from, pos, t', from, pos, secret);
    } else if step.value == Span(f, e, marker) {
      KeysAgreeFromOwn(t, e, t', e', f, marker, from, pos, secret);
    } else {
      StepBefore(t, e, t', e', f, marker, from, pos, secret, step.value);
      KeysAgree(t, e, t', e', f, marker, from + 1, step.value.to, secret);
      NextIfSome(t, from, pos, step.value, t', from, pos, step.value, secret);
    }
  }

  lemma {:induction false} KeyOfBefore(t: string, e: nat, t': string, e': nat, f: nat, marker: string,
                                       from: nat, pos: nat, secret: string -> bool)
    requires Twins(t, e, t', e', f, marker) && Span(f, e, marker) in KeySpans(t, from, pos, secret)
    ensures from < |t'|
  {
    var own := KeyOf(t, from, pos, secret, Span(f, e, marker));
    TwinsSeparated(t, e, t', e', f, marker, own);
  }

  /** From the key of the hidden value on. */
  lemma {:induction false} KeysAgreeFromOwn(t: string, e: nat, t': string, e': nat, f: nat, marker: string,
                                            from: nat, pos: nat, secret: string -> bool)
    requires Twins(t, e, t', e', f, marker) && pos <= f && from < |t|
    requires KeyStep(t, from, pos, secret).Some? && KeyStep(t, from, pos, secret).value.from == f
    ensures SameSpans(t, pos, KeySpans(t, from, pos, secret), t', pos, KeySpans(t', from, pos, secret))
  {
    OwnStep(t, e, t', e', f, marker, from, pos, secret);
    KeysFromPos(t, from + 1, e, secret);
    KeysFromPos(t', from + 1, e', secret);
    KeysMoved(t, e, t', e', e, e, e', e', secret);
    SliceBefore(t, t', f, pos, f);
    NextIfSome(t, from, pos, Span(f, e, marker), t', from, pos, Span(f, e', marker), secret);
  }

  /** The output of the pass tells nothing of a hidden value: any value its marker hides in the same
      place gives the same output. */
  lemma {:induction false} HiddenValueDoesNotShow(
      t: string, e: nat, t': string, e': nat, f: nat, marker: string, secret: string -> bool)
    requires Twins(t, e, t', e', f, marker) && Span(f, e, marker) in KeySpans(t, 0, 0, secret)
    ensures Ascending(t, 0, KeySpans(t, 0, 0, secret)) && Ascending(t', 0, KeySpans(t', 0, 0, secret))
    ensures Splice(t, 0, KeySpans(t, 0, 0, secret)) == Splice(t', 0, KeySpans(t', 0, 0, secret))
  {
    KeysAgree(t, e, t', e', f, marker, 0, 0, secret);
    SpansDoNotShow(t, 0, KeySpans(t, 0, 0, secret), t', 0, KeySpans(t', 0, 0, secret));
  }
}
