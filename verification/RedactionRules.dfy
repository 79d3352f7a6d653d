// What redaction does to one value: whether its quotes are escaped, where it ends, what marks it.

module RedactionRules {
  import opened Outcomes
  import opened ValueScanner

  const MARKER: string := "[REDACTED_CREDENTIAL]"

  // ------------------------------------------------ escapes, backward and forward

  /** How many backslashes stand directly before `i`. */
  function Backslashes(t: string, i: nat): (run: nat)
    requires i <= |t|
    ensures run <= i
  {
    if i > 0 && t[i - 1] == '\\' then Backslashes(t, i - 1) + 1 else 0
  }

  predicate IsEscaped(t: string, i: nat)
    requires i <= |t|
  {
    Backslashes(t, i) % 2 == 1
  }

  /** `_escaped`. */
  method Escaped(t: string, index: nat) returns (escaped: bool)
    requires index <= |t|
    ensures escaped == IsEscaped(t, index)
  {
    var run := 0;
    while run < index && t[index - run - 1] == '\\'
      invariant run <= index && Backslashes(t, index) == run + Backslashes(t, index - run)
    {
      run := run + 1;
    }
    escaped := run % 2 == 1;
  }

  /** Reading forward from `i`, an escape and its character at a time, `j` is read as itself. */
  predicate ReadAt(t: string, i: nat, j: nat)
    requires j <= |t|
    decreases |t| - i
  {
    i == j || (i < j && ReadAt(t, if t[i] == '\\' then i + 2 else i + 1, j))
  }

  /** Looking back for backslashes agrees with having read forward. */
  lemma {:induction false} EscapedMeansSkipped(t: string, i: nat, j: nat)
    requires i <= j <= |t| && !IsEscaped(t, i)
    ensures ReadAt(t, i, j) <==> !IsEscaped(t, j)
    decreases j - i
  {
    if i < j {
      if t[i] != '\\' {
        assert Backslashes(t, i + 1) == 0;
        EscapedMeansSkipped(t, i + 1, j);
      } else if j == i + 1 {
        assert Backslashes(t, j) == Backslashes(t, i) + 1;
      } else {
        assert Backslashes(t, i + 2) == if t[i + 1] == '\\' then Backslashes(t, i) + 2 else 0;
        EscapedMeansSkipped(t, i + 2, j);
      }
    }
  }

  // ------------------------------------------------ one value

  /** `_QUOTED_VALUE`: units that are not the quote, a backslash or a newline, or a backslash with
      anything but a newline, then the quote. */
  function LineStringEnd(t: string, i: nat, quote: char): (end: Option<nat>)
    decreases |t| - i
  {
    if i >= |t| || t[i] == '\n' then None
    else if t[i] == '\\' then (if i + 1 < |t| && t[i + 1] != '\n' then LineStringEnd(t, i + 2, quote) else None)
    else if t[i] == quote then Some(i + 1)
    else LineStringEnd(t, i + 1, quote)
  }

  /** A string closes on its line exactly when it closes and holds no newline. */
  lemma {:induction false} ClosesOnLine(t: string, i: nat, quote: char)
    requires IsQuote(quote)
    ensures var end := StringEnd(t, i, quote);
            LineStringEnd(t, i, quote) == if end.Some? && '\n' !in t[i..end.value] then end else None
    decreases |t| - i
  {
    var end := StringEnd(t, i, quote);
    if i < |t| && t[i] == '\\' {
      ClosesOnLine(t, i + 2, quote);
      if end.Some? { assert t[i..end.value] == [t[i], t[i + 1]] + t[i + 2..end.value]; }
    } else if i < |t| && t[i] != quote {
      ClosesOnLine(t, i + 1, quote);
      if end.Some? { assert t[i..end.value] == [t[i]] + t[i + 1..end.value]; }
    } else if i < |t| {
      assert t[i..i + 1] == [quote];
    }
  }

  method MatchLineString(t: string, start: nat, quote: char) returns (end: Option<nat>)
    requires IsQuote(quote)
    ensures end == LineStringEnd(t, start, quote)
  {
    var i := start;
    while i < |t| && t[i] != '\n' && t[i] != quote
      invariant LineStringEnd(t, i, quote) == LineStringEnd(t, start, quote)
      decreases |t| - i
    {
      if t[i] == '\\' && (i + 1 >= |t| || t[i + 1] == '\n') { return None; }
      i := if t[i] == '\\' then i + 2 else i + 1;
    }
    end := if i < |t| && t[i] == quote then Some(i + 1) else None;
  }

  datatype Redaction = Redaction(marker: string, end: nat)

  predicate MarkerAt(t: string, i: nat) { i + |MARKER| <= |t| && t[i..i + |MARKER|] == MARKER }

  /** `_value_redaction`, by the scanners' descriptions. */
  function Redacts(t: string, start: nat): Option<Redaction> {
    if start >= |t| || MarkerAt(t, start) then None
    else
      var c := t[start];
      if IsQuote(c) then
        if start + 1 >= |t| || t[start + 1] == c then None
        else
          var close := LineStringEnd(t, start + 1, c);
          if close.None? then Some(Redaction([c] + MARKER, |t|))
          else Some(Redaction([c] + MARKER + [c], TailRun(t, close.value)))
      else if IsOpener(c) then Some(Redaction(['"'] + MARKER + ['"'], TailRun(t, ContainerRun(t, start, [], None))))
      else if IsSpace(c) || c in JSON_STOPS then None
      else Some(Redaction(MARKER, ValueRun(t, start, [], None, JSON_STOPS)))
  }

  /** A quoted value that does not close on its own line. */
  predicate OpenEnded(t: string, start: nat)
    requires start < |t|
  {
    IsQuote(t[start]) && (StringEnd(t, start + 1, t[start]).None? || '\n' in t[start + 1..StringEnd(t, start + 1, t[start]).value])
  }

  /** Nothing to hide: no value, an empty one, or the marker already. */
  predicate NothingToHide(t: string, start: nat) {
    || start >= |t| || MarkerAt(t, start)
    || (IsQuote(t[start]) && (start + 1 == |t| || t[start + 1] == t[start]))
    || FreeEnd(t, start, JSON_STOPS) == start
  }

  /** The marker, alone or behind an opening quote or between two, and nothing of any text. */
  ghost predicate IsMarker(marker: string) {
    marker == MARKER || exists q {:trigger IsQuote(q)} :: IsQuote(q) && (marker == [q] + MARKER || marker == [q] + MARKER + [q])
  }

  /** What stands for a value: the marker in the value's own quotes, the second only where they close
      on the line; in double quotes for a container; bare for a bare scalar. */
  predicate MarkerFor(t: string, start: nat, marker: string)
    requires start < |t|
  {
    if IsQuote(t[start]) then
      marker == (if OpenEnded(t, start) then [t[start]] + MARKER else [t[start]] + MARKER + [t[start]])
    else if IsOpener(t[start]) then marker == "\"" + MARKER + "\""
    else marker == MARKER
  }

  /** From `start` to `end` stands one whole value, `marker` takes its place, and no part of the value is
      left behind it: the span ends where the value does, or at the end of the text when a quote does not
      close on its line. */
  predicate HidesValue(t: string, start: nat, end: nat, marker: string) {
    && start < |t| && !NothingToHide(t, start) && MarkerFor(t, start, marker)
    && start < FreeEnd(t, start, JSON_STOPS) <= end <= |t|
    && end == if OpenEnded(t, start) then |t| else FreeEnd(t, start, JSON_STOPS)
  }

  /** A value is replaced exactly when there is something to hide, and then whole and by a marker. */
  lemma {:induction false} RedactionCoversValue(t: string, start: nat)
    ensures Redacts(t, start).None? <==> NothingToHide(t, start)
    ensures Redacts(t, start).Some? ==>
              HidesValue(t, start, Redacts(t, start).value.end, Redacts(t, start).value.marker)
  {
    if start < |t| && !MarkerAt(t, start) {
      var c := t[start];
      ValueIsDescent(t, start, JSON_STOPS);
      if IsQuote(c) {
        ClosesOnLine(t, start + 1, c);
        if StringEnd(t, start + 1, c).Some? { TailIsDescent(t, StringEnd(t, start + 1, c).value); }
      } else if IsOpener(c) {
        ScannersFuse(t, start);
      }
    }
  }

  lemma {:induction false} HidingMarks(t: string, start: nat, end: nat, marker: string)
    requires HidesValue(t, start, end, marker)
    ensures IsMarker(marker)
  {
    if IsOpener(t[start]) { assert IsQuote('"'); }
  }

  method ValueRedaction(t: string, start: nat) returns (r: Option<Redaction>)
    ensures r == Redacts(t, start)
    ensures if NothingToHide(t, start) then r.None? else r.Some? && HidesValue(t, start, r.value.end, r.value.marker)
  {
    RedactionCoversValue(t, start);
    if start >= |t| || MarkerAt(t, start) { return None; }
    var c := t[start];
    if IsQuote(c) {
      if start + 1 >= |t| || t[start + 1] == c { return None; }
      var close := MatchLineString(t, start + 1, c);
      if close.None? { return Some(Redaction([c] + MARKER, |t|)); }
      var end := TailEnd(t, close.value);
      return Some(Redaction([c] + MARKER + [c], end));
    }
    if IsOpener(c) {
      var inner := ContainerEnd(t, start);
      var end := TailEnd(t, inner);
      return Some(Redaction(['"'] + MARKER + ['"'], end));
    }
    if IsSpace(c) || c in JSON_STOPS { return None; }
    var end := ValueEnd(t, start, JSON_STOPS);
    r := Some(Redaction(MARKER, end));
  }
}
