// Properly nested values, written out: what the scanners are supposed to skip, and nothing else.

module ValueGrammar {
  import opened Outcomes
  import opened ValueScanner

  /** The text between two quotes. */
  datatype Text = Close | Raw(c: char, more: Text) | Escape(c: char, more: Text)

  /** What stands between two brackets: loose characters, strings and containers. */
  datatype Body = End | Loose(c: char, rest: Body) | Str(quote: char, text: Text, rest: Body) | Sub(open: char, inner: Body, rest: Body)

  predicate TextOk(x: Text, quote: char) {
    match x
    case Close => true
    case Raw(c, more) => c != '\\' && c != quote && TextOk(more, quote)
    case Escape(_, more) => TextOk(more, quote)
  }

  predicate BodyOk(b: Body, closer: char) {
    match b
    case End => true
    case Loose(c, rest) => !IsQuote(c) && !IsOpener(c) && c != closer && BodyOk(rest, closer)
    case Str(quote, x, rest) => IsQuote(quote) && TextOk(x, quote) && BodyOk(rest, closer)
    case Sub(open, inner, rest) => IsOpener(open) && BodyOk(inner, CloserOf(open)) && BodyOk(rest, closer)
  }

  function ShowText(x: Text, quote: char): string {
    match x
    case Close => [quote]
    case Raw(c, more) => [c] + ShowText(more, quote)
    case Escape(c, more) => ['\\', c] + ShowText(more, quote)
  }

  function Show(b: Body, closer: char): string {
    match b
    case End => [closer]
    case Loose(c, rest) => [c] + Show(rest, closer)
    case Str(quote, x, rest) => [quote] + ShowText(x, quote) + Show(rest, closer)
    case Sub(open, inner, rest) => [open] + Show(inner, CloserOf(open)) + Show(rest, closer)
  }

  /** `text` stands in `t` at `i`. */
  ghost predicate At(t: string, i: nat, text: string) {
    i + |text| <= |t| && forall k {:trigger text[k]} :: 0 <= k < |text| ==> t[i + k] == text[k]
  }

  lemma {:induction false} AtSplit(t: string, i: nat, a: string, b: string)
    ensures At(t, i, a + b) <==> At(t, i, a) && At(t, i + |a|, b)
  {
    if At(t, i, a + b) {
      forall k | 0 <= k < |a| ensures t[i + k] == a[k] { assert (a + b)[k] == a[k]; }
      forall k | 0 <= k < |b| ensures t[i + |a| + k] == b[k] { assert (a + b)[|a| + k] == b[k]; }
    }
  }

  lemma {:induction false} AtFirst(t: string, i: nat, c: char, a: string)
    ensures At(t, i, [c] + a) <==> i < |t| && t[i] == c && At(t, i + 1, a)
  {
    AtSplit(t, i, [c], a);
    if At(t, i, [c]) { assert [c][0] == c; }
  }

  lemma {:induction false} AtFirstAnd(t: string, i: nat, c: char, a: string, b: string)
    ensures At(t, i, [c] + a + b) <==> i < |t| && t[i] == c && At(t, i + 1, a) && At(t, i + 1 + |a|, b)
  {
    AtSplit(t, i, [c] + a, b);
    AtFirst(t, i, c, a);
  }

  lemma {:induction false} EndStands(t: string, i: nat, closer: char)
    ensures At(t, i, Show(End, closer)) <==> i < |t| && t[i] == closer
  {
    AtFirst(t, i, closer, []);
    assert [closer] + [] == [closer];
  }

  lemma {:induction false} LooseStands(t: string, i: nat, c: char, rest: Body, closer: char)
    ensures At(t, i, Show(Loose(c, rest), closer)) <==> i < |t| && t[i] == c && At(t, i + 1, Show(rest, closer))
    ensures |Show(Loose(c, rest), closer)| == 1 + |Show(rest, closer)|
  {
    AtFirst(t, i, c, Show(rest, closer));
  }

  lemma {:induction false} StrStands(t: string, i: nat, quote: char, x: Text, rest: Body, closer: char)
    ensures At(t, i, Show(Str(quote, x, rest), closer)) <==>
              && i < |t| && t[i] == quote && At(t, i + 1, ShowText(x, quote))
              && At(t, i + 1 + |ShowText(x, quote)|, Show(rest, closer))
    ensures |Show(Str(quote, x, rest), closer)| == 1 + |ShowText(x, quote)| + |Show(rest, closer)|
  {
    AtFirstAnd(t, i, quote, ShowText(x, quote), Show(rest, closer));
  }

  lemma {:induction false} SubStands(t: string, i: nat, open: char, inner: Body, rest: Body, closer: char)
    ensures At(t, i, Show(Sub(open, inner, rest), closer)) <==>
              && i < |t| && t[i] == open && At(t, i + 1, Show(inner, CloserOf(open)))
              && At(t, i + 1 + |Show(inner, CloserOf(open))|, Show(rest, closer))
    ensures |Show(Sub(open, inner, rest), closer)| == 1 + |Show(inner, CloserOf(open))| + |Show(rest, closer)|
  {
    AtFirstAnd(t, i, open, Show(inner, CloserOf(open)), Show(rest, closer));
  }

  // ------------------------------------------------ a written value is skipped exactly

  lemma {:induction false} TextSkipped(t: string, i: nat, x: Text, quote: char)
    requires TextOk(x, quote) && quote != '\\' && At(t, i, ShowText(x, quote))
    ensures StringEnd(t, i, quote) == Some(i + |ShowText(x, quote)|)
    decreases x
  {
    match x
    case Close =>
      AtFirst(t, i, quote, []);
      assert [quote] + [] == [quote];
    case Raw(c, more) =>
      AtFirst(t, i, c, ShowText(more, quote));
      TextSkipped(t, i + 1, more, quote);
    case Escape(c, more) =>
      AtFirst(t, i, '\\', [c] + ShowText(more, quote));
      assert ['\\'] + ([c] + ShowText(more, quote)) == ['\\', c] + ShowText(more, quote);
      AtFirst(t, i + 1, c, ShowText(more, quote));
      TextSkipped(t, i + 2, more, quote);
  }

  /** Brackets inside strings, and everything behind an escape, count for nothing. */
  lemma {:induction false} BodySkipped(t: string, i: nat, b: Body, closer: char)
    requires BodyOk(b, closer) && !IsQuote(closer) && !IsOpener(closer) && At(t, i, Show(b, closer))
    ensures BodyEnd(t, i, closer) == Some(i + |Show(b, closer)|)
    decreases b
  {
    match b
    case End =>
      EndStands(t, i, closer);
    case Loose(c, rest) =>
      LooseStands(t, i, c, rest, closer);
      BodySkipped(t, i + 1, rest, closer);
    case Str(quote, x, rest) =>
      StrStands(t, i, quote, x, rest, closer);
      TextSkipped(t, i + 1, x, quote);
      BodySkipped(t, i + 1 + |ShowText(x, quote)|, rest, closer);
    case Sub(open, inner, rest) =>
      SubStands(t, i, open, inner, rest, closer);
      BodySkipped(t, i + 1, inner, CloserOf(open));
      BodySkipped(t, i + 1 + |Show(inner, CloserOf(open))|, rest, closer);
  }

  // ------------------------------------------------ and nothing else is

  lemma {:induction false} SkippedText(t: string, i: nat, quote: char) returns (x: Text)
    requires StringEnd(t, i, quote).Some? && quote != '\\'
    ensures TextOk(x, quote) && At(t, i, ShowText(x, quote)) && StringEnd(t, i, quote).value == i + |ShowText(x, quote)|
    decreases |t| - i
  {
    if t[i] == '\\' {
      var more := SkippedText(t, i + 2, quote);
      x := Escape(t[i + 1], more);
      AtFirst(t, i, '\\', [t[i + 1]] + ShowText(more, quote));
      assert ['\\'] + ([t[i + 1]] + ShowText(more, quote)) == ['\\', t[i + 1]] + ShowText(more, quote);
      AtFirst(t, i + 1, t[i + 1], ShowText(more, quote));
    } else if t[i] == quote {
      x := Close;
      AtFirst(t, i, quote, []);
      assert [quote] + [] == [quote];
    } else {
      var more := SkippedText(t, i + 1, quote);
      x := Raw(t[i], more);
      AtFirst(t, i, t[i], ShowText(more, quote));
    }
  }

  lemma {:induction false} SkippedBody(t: string, i: nat, closer: char) returns (b: Body)
    requires BodyEnd(t, i, closer).Some? && !IsQuote(closer) && !IsOpener(closer)
    ensures BodyOk(b, closer) && At(t, i, Show(b, closer)) && BodyEnd(t, i, closer).value == i + |Show(b, closer)|
    decreases |t| - i
  {
    var c := t[i];
    if IsQuote(c) {
      var x := SkippedText(t, i + 1, c);
      var rest := SkippedBody(t, StringEnd(t, i + 1, c).value, closer);
      b := Str(c, x, rest);
      StrStands(t, i, c, x, rest, closer);
    } else if IsOpener(c) {
      var inner := SkippedBody(t, i + 1, CloserOf(c));
      var rest := SkippedBody(t, BodyEnd(t, i + 1, CloserOf(c)).value, closer);
      b := Sub(c, inner, rest);
      SubStands(t, i, c, inner, rest, closer);
    } else if c == closer {
      b := End;
      EndStands(t, i, closer);
    } else {
      var rest := SkippedBody(t, i + 1, closer);
      b := Loose(c, rest);
      LooseStands(t, i, c, rest, closer);
    }
  }

  // ------------------------------------------------ containers

  /** A properly nested container stands at `start` and ends before `end`. */
  ghost predicate Container(t: string, start: nat, end: nat) {
    exists open, b :: ContainerIs(t, start, end, open, b)
  }

  ghost predicate ContainerIs(t: string, start: nat, end: nat, open: char, b: Body) {
    && IsOpener(open) && BodyOk(b, CloserOf(open))
    && At(t, start, [open] + Show(b, CloserOf(open))) && end == start + 1 + |Show(b, CloserOf(open))|
  }

  lemma {:induction false} ContainerSkipped(t: string, start: nat, end: nat, open: char, b: Body)
    requires ContainerIs(t, start, end, open, b)
    ensures start < end <= |t| && t[start] == open && BodyEnd(t, start + 1, CloserOf(open)) == Some(end)
  {
    AtFirst(t, start, open, Show(b, CloserOf(open)));
    BodySkipped(t, start + 1, b, CloserOf(open));
  }

  /** From an opening bracket, the scanner finds the end of the one container standing there, and the
      end of the text exactly when none does. */
  lemma {:induction false} ScannerFindsContainer(t: string, start: nat)
    requires start < |t| && IsOpener(t[start])
    ensures forall end: nat {:trigger Container(t, start, end)} :: Container(t, start, end) ==> end == ContainerRun(t, start, [], None)
    ensures ContainerRun(t, start, [], None) <= |t|
    ensures Container(t, start, ContainerRun(t, start, [], None)) || ContainerRun(t, start, [], None) == |t|
    ensures (exists end: nat :: Container(t, start, end)) <==> BodyEnd(t, start + 1, CloserOf(t[start])).Some?
  {
    var closer := CloserOf(t[start]);
    ContainerIsDescent(t, start);
    forall end: nat | Container(t, start, end)
      ensures BodyEnd(t, start + 1, closer) == Some(end)
    {
      var open, b :| ContainerIs(t, start, end, open, b);
      ContainerSkipped(t, start, end, open, b);
    }
    if BodyEnd(t, start + 1, closer).Some? {
      var b := SkippedBody(t, start + 1, closer);
      AtFirst(t, start, t[start], Show(b, closer));
      assert ContainerIs(t, start, BodyEnd(t, start + 1, closer).value, t[start], b);
      assert Container(t, start, BodyEnd(t, start + 1, closer).value);
    }
  }

  // ------------------------------------------------ whole values

  /** A value outside every bracket: no loose character is a space or a stop. */
  predicate ValueOk(b: Body, stops: set<char>) {
    match b
    case End => true
    case Loose(c, rest) => !IsQuote(c) && !IsOpener(c) && !IsSpace(c) && c !in stops && ValueOk(rest, stops)
    case Str(quote, x, rest) => IsQuote(quote) && TextOk(x, quote) && ValueOk(rest, stops)
    case Sub(open, inner, rest) => IsOpener(open) && BodyOk(inner, CloserOf(open)) && ValueOk(rest, stops)
  }

  /** The value as written, ended by nothing. */
  function Spell(b: Body): string {
    match b
    case End => ""
    case Loose(c, rest) => [c] + Spell(rest)
    case Str(quote, x, rest) => [quote] + ShowText(x, quote) + Spell(rest)
    case Sub(open, inner, rest) => [open] + Show(inner, CloserOf(open)) + Spell(rest)
  }

  ghost predicate Spelled(t: string, i: nat, end: nat, b: Body, stops: set<char>) {
    ValueOk(b, stops) && At(t, i, Spell(b)) && end == i + |Spell(b)|
  }

  /** Strings, containers and loose characters stand from `i` to `end`, nothing of them unclosed. */
  ghost predicate Closed(t: string, i: nat, end: nat, stops: set<char>) {
    exists b :: Spelled(t, i, end, b, stops)
  }

  /** The end of the text, or a space or stop. */
  predicate Stopped(t: string, end: nat, stops: set<char>) {
    end == |t| || (end < |t| && !IsQuote(t[end]) && !IsOpener(t[end]) && (IsSpace(t[end]) || t[end] in stops))
  }

  /** A quote without its closing quote, or a bracket that opens no container. */
  ghost predicate NeverCloses(t: string, i: nat) {
    && i < |t|
    && if IsQuote(t[i]) then forall x: Text :: TextOk(x, t[i]) ==> !At(t, i + 1, ShowText(x, t[i]))
       else IsOpener(t[i]) && forall end: nat :: !Container(t, i, end)
  }

  /** The one value standing at `i`: it runs up to a space or stop, or something in it never closes and
      it is everything that is left. */
  ghost predicate WholeValue(t: string, i: nat, end: nat, stops: set<char>) {
    || (Closed(t, i, end, stops) && Stopped(t, end, stops))
    || (end == |t| && exists k: nat {:trigger NeverCloses(t, k)} :: Closed(t, i, k, stops) && NeverCloses(t, k))
  }

  lemma {:induction false} NothingSpelled(t: string, i: nat, stops: set<char>)
    requires i <= |t|
    ensures Closed(t, i, i, stops)
  {
    assert Spelled(t, i, i, End, stops);
  }

  lemma {:induction false} LooseFirst(t: string, i: nat, end: nat, stops: set<char>)
    requires i < |t| && !IsQuote(t[i]) && !IsOpener(t[i]) && !IsSpace(t[i]) && t[i] !in stops
    requires Closed(t, i + 1, end, stops)
    ensures Closed(t, i, end, stops)
  {
    var b :| Spelled(t, i + 1, end, b, stops);
    AtFirst(t, i, t[i], Spell(b));
    assert Spelled(t, i, end, Loose(t[i], b), stops);
  }

  lemma {:induction false} StringFirst(t: string, i: nat, end: nat, stops: set<char>)
    requires i < |t| && IsQuote(t[i]) && StringEnd(t, i + 1, t[i]).Some?
    requires Closed(t, StringEnd(t, i + 1, t[i]).value, end, stops)
    ensures Closed(t, i, end, stops)
  {
    var x := SkippedText(t, i + 1, t[i]);
    var b :| Spelled(t, StringEnd(t, i + 1, t[i]).value, end, b, stops);
    AtFirstAnd(t, i, t[i], ShowText(x, t[i]), Spell(b));
    assert Spelled(t, i, end, Str(t[i], x, b), stops);
  }

  lemma {:induction false} ContainerFirst(t: string, i: nat, end: nat, stops: set<char>)
    requires i < |t| && IsOpener(t[i]) && BodyEnd(t, i + 1, CloserOf(t[i])).Some?
    requires Closed(t, BodyEnd(t, i + 1, CloserOf(t[i])).value, end, stops)
    ensures Closed(t, i, end, stops)
  {
    var inner := SkippedBody(t, i + 1, CloserOf(t[i]));
    var next := BodyEnd(t, i + 1, CloserOf(t[i])).value;
    var b :| Spelled(t, next, end, b, stops);
    SubSpelled(t, i, next, end, inner, b, stops);
  }

  lemma {:induction false} SubSpelled(t: string, i: nat, next: nat, end: nat, inner: Body, b: Body, stops: set<char>)
    requires i < |t| && IsOpener(t[i]) && BodyOk(inner, CloserOf(t[i])) && At(t, i + 1, Show(inner, CloserOf(t[i])))
    requires next == i + 1 + |Show(inner, CloserOf(t[i]))| && Spelled(t, next, end, b, stops)
    ensures Closed(t, i, end, stops)
  {
    AtFirstAnd(t, i, t[i], Show(inner, CloserOf(t[i])), Spell(b));
    assert Spelled(t, i, end, Sub(t[i], inner, b), stops);
  }

  /** The descent opens something that closes nowhere exactly where nothing closed stands. */
  lemma {:induction false} ClosesNowhere(t: string, i: nat)
    requires i < |t| && (IsQuote(t[i]) || IsOpener(t[i]))
    ensures NeverCloses(t, i) <==>
              (if IsQuote(t[i]) then StringEnd(t, i + 1, t[i]).None? else BodyEnd(t, i + 1, CloserOf(t[i])).None?)
  {
    if IsQuote(t[i]) {
      if StringEnd(t, i + 1, t[i]).Some? {
        var x := SkippedText(t, i + 1, t[i]);
        assert TextOk(x, t[i]);
      } else {
        forall x: Text | TextOk(x, t[i]) ensures !At(t, i + 1, ShowText(x, t[i])) {
          if At(t, i + 1, ShowText(x, t[i])) { TextSkipped(t, i + 1, x, t[i]); }
        }
      }
    } else {
      ScannerFindsContainer(t, i);
    }
  }

  /** What the descent skips is a whole value. */
  lemma {:induction false} SkippedValue(t: string, i: nat, stops: set<char>)
    requires i <= |t|
    ensures WholeValue(t, i, FreeEnd(t, i, stops), stops)
    decreases |t| - i
  {
    NothingSpelled(t, i, stops);
    if i < |t| && (IsQuote(t[i]) || IsOpener(t[i])) {
      ClosesNowhere(t, i);
      var inner := if IsQuote(t[i]) then StringEnd(t, i + 1, t[i]) else BodyEnd(t, i + 1, CloserOf(t[i]));
      if inner.Some? {
        SkippedValue(t, inner.value, stops);
        forall end: nat | Closed(t, inner.value, end, stops) ensures Closed(t, i, end, stops) {
          if IsQuote(t[i]) { StringFirst(t, i, end, stops); } else { ContainerFirst(t, i, end, stops); }
        }
      }
    } else if i < |t| && !IsSpace(t[i]) && t[i] !in stops {
      SkippedValue(t, i + 1, stops);
      forall end: nat | Closed(t, i + 1, end, stops) ensures Closed(t, i, end, stops) {
        LooseFirst(t, i, end, stops);
      }
    }
  }

  /** Whatever closed pieces stand at `i`, the descent goes on behind them. */
  lemma {:induction false} ValueSkipped(t: string, i: nat, end: nat, b: Body, stops: set<char>)
    requires Spelled(t, i, end, b, stops)
    ensures end <= |t| && FreeEnd(t, i, stops) == FreeEnd(t, end, stops)
    decreases b
  {
    match b
    case End =>
    case Loose(c, rest) =>
      AtFirst(t, i, c, Spell(rest));
      ValueSkipped(t, i + 1, end, rest, stops);
    case Str(quote, x, rest) =>
      AtFirstAnd(t, i, quote, ShowText(x, quote), Spell(rest));
      TextSkipped(t, i + 1, x, quote);
      ValueSkipped(t, i + 1 + |ShowText(x, quote)|, end, rest, stops);
    case Sub(open, inner, rest) =>
      AtFirstAnd(t, i, open, Show(inner, CloserOf(open)), Spell(rest));
      BodySkipped(t, i + 1, inner, CloserOf(open));
      ValueSkipped(t, i + 1 + |Show(inner, CloserOf(open))|, end, rest, stops);
  }

  /** The value scanner finds the end of the one whole value standing there. */
  lemma {:induction false} ScannerFindsValue(t: string, i: nat, end: nat, stops: set<char>)
    requires i <= |t|
    ensures ValueRun(t, i, [], None, stops) == end <==> WholeValue(t, i, end, stops)
  {
    ValueIsDescent(t, i, stops);
    SkippedValue(t, i, stops);
    if Closed(t, i, end, stops) && Stopped(t, end, stops) {
      var b :| Spelled(t, i, end, b, stops);
      ValueSkipped(t, i, end, b, stops);
    } else if WholeValue(t, i, end, stops) {
      var k: nat :| Closed(t, i, k, stops) && NeverCloses(t, k);
      var b :| Spelled(t, i, k, b, stops);
      ValueSkipped(t, i, k, b, stops);
      ClosesNowhere(t, k);
    }
  }
}
