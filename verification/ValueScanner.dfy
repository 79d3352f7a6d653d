// Where a credential value ends: one-pass automata over brackets, quotes and escapes.

module ValueScanner {
  import opened Outcomes

  // ------------------------------------------------ characters

  /** `str.isspace`. */
  predicate IsSpace(c: char) {
    var n := c as int;
    || 0x09 <= n <= 0x0d || 0x1c <= n <= 0x20 || n == 0x85 || n == 0xa0 || n == 0x1680
    || 0x2000 <= n <= 0x200a || n == 0x2028 || n == 0x2029 || n == 0x202f || n == 0x205f || n == 0x3000
  }

  predicate IsQuote(c: char) { c == '"' || c == '\'' }

  predicate IsOpener(c: char) { c == '{' || c == '[' }

  function CloserOf(c: char): char { if c == '{' then '}' else ']' }

  const UNQUOTED_STOPS: set<char> := {'&', ';', ',', '?', '#'}
  const JSON_STOPS: set<char> := {',', '}', ']'}

  // ------------------------------------------------ by recursive descent

  /** After the closing quote of a string whose text starts at `i`. */
  function StringEnd(t: string, i: nat, quote: char): (end: Option<nat>)
    ensures end.Some? ==> i < end.value <= |t|
    decreases |t| - i
  {
    if i >= |t| then None
    else if t[i] == '\\' then StringEnd(t, i + 2, quote)
    else if t[i] == quote then Some(i + 1)
    else StringEnd(t, i + 1, quote)
  }

  /** After the bracket that closes a container whose content starts at `i`. */
  function BodyEnd(t: string, i: nat, closer: char): (end: Option<nat>)
    ensures end.Some? ==> i < end.value <= |t|
    decreases |t| - i
  {
    if i >= |t| then None
    else if IsQuote(t[i]) || IsOpener(t[i]) then
      var inner := if IsQuote(t[i]) then StringEnd(t, i + 1, t[i]) else BodyEnd(t, i + 1, CloserOf(t[i]));
      if inner.None? then None else BodyEnd(t, inner.value, closer)
    else if t[i] == closer then Some(i + 1)
    else BodyEnd(t, i + 1, closer)
  }

  /** The end of a value from `i` on: a space or stop outside every quote and bracket, and the end
      of the text behind one that never closes. */
  function FreeEnd(t: string, i: nat, stops: set<char>): (end: nat)
    requires i <= |t|
    ensures i <= end <= |t|
    decreases |t| - i
  {
    if i == |t| then |t|
    else if IsQuote(t[i]) || IsOpener(t[i]) then
      var inner := if IsQuote(t[i]) then StringEnd(t, i + 1, t[i]) else BodyEnd(t, i + 1, CloserOf(t[i]));
      if inner.None? then |t| else FreeEnd(t, inner.value, stops)
    else if IsSpace(t[i]) || t[i] in stops then i
    else FreeEnd(t, i + 1, stops)
  }

  // ------------------------------------------------ by automaton, with an explicit stack

  function ContainerRun(t: string, i: nat, stack: seq<char>, quote: Option<char>): (end: nat)
    decreases |t| - i
  {
    if i >= |t| then |t|
    else if quote.Some? then
      if t[i] == '\\' then ContainerRun(t, i + 2, stack, quote)
      else ContainerRun(t, i + 1, stack, if t[i] == quote.value then None else quote)
    else if IsQuote(t[i]) then ContainerRun(t, i + 1, stack, Some(t[i]))
    else if IsOpener(t[i]) then ContainerRun(t, i + 1, stack + [CloserOf(t[i])], None)
    else if stack != [] && t[i] == stack[|stack| - 1] then
      if |stack| == 1 then i + 1 else ContainerRun(t, i + 1, stack[..|stack| - 1], None)
    else ContainerRun(t, i + 1, stack, None)
  }

  function ValueRun(t: string, i: nat, stack: seq<char>, quote: Option<char>, stops: set<char>): (end: nat)
    decreases |t| - i
  {
    if i >= |t| then |t|
    else if quote.Some? then
      if t[i] == '\\' then ValueRun(t, i + 2, stack, quote, stops)
      else ValueRun(t, i + 1, stack, if t[i] == quote.value then None else quote, stops)
    else if IsQuote(t[i]) then ValueRun(t, i + 1, stack, Some(t[i]), stops)
    else if IsOpener(t[i]) then ValueRun(t, i + 1, stack + [CloserOf(t[i])], None, stops)
    else if stack != [] then
      ValueRun(t, i + 1, if t[i] == stack[|stack| - 1] then stack[..|stack| - 1] else stack, None, stops)
    else if IsSpace(t[i]) || t[i] in stops then i
    else ValueRun(t, i + 1, stack, None, stops)
  }

  /** `_container_end`. */
  method ContainerEnd(t: string, start: nat) returns (end: nat)
    ensures end == ContainerRun(t, start, [], None)
  {
    var stack: seq<char>, quote: Option<char>, index := [], None, start;
    while index < |t|
      invariant ContainerRun(t, index, stack, quote) == ContainerRun(t, start, [], None)
      decreases |t| - index
    {
      var c := t[index];
      if quote.Some? {
        if c == '\\' { index := index + 1; }
        else if c == quote.value { quote := None; }
      } else if IsQuote(c) {
        quote := Some(c);
      } else if IsOpener(c) {
        stack := stack + [CloserOf(c)];
      } else if stack != [] && c == stack[|stack| - 1] {
        stack := stack[..|stack| - 1];
        if stack == [] { return index + 1; }
      }
      index := index + 1;
    }
    end := |t|;
  }

  /** `_value_end`. */
  method ValueEnd(t: string, start: nat, stops: set<char>) returns (end: nat)
    ensures end == ValueRun(t, start, [], None, stops)
  {
    var stack: seq<char>, quote: Option<char>, index := [], None, start;
    while index < |t|
      invariant ValueRun(t, index, stack, quote, stops) == ValueRun(t, start, [], None, stops)
      decreases |t| - index
    {
      var c := t[index];
      if quote.Some? {
        if c == '\\' { index := index + 1; }
        else if c == quote.value { quote := None; }
      } else if IsQuote(c) {
        quote := Some(c);
      } else if IsOpener(c) {
        stack := stack + [CloserOf(c)];
      } else if stack != [] {
        if c == stack[|stack| - 1] { stack := stack[..|stack| - 1]; }
      } else if IsSpace(c) || c in stops {
        return index;
      }
      index := index + 1;
    }
    end := |t|;
  }

  /** `_tail_end`. */
  method TailEnd(t: string, end: nat) returns (tail: nat)
    ensures tail == TailRun(t, end)
  {
    if end >= |t| || IsSpace(t[end]) || t[end] in JSON_STOPS { return end; }
    tail := ValueEnd(t, end, JSON_STOPS);
  }

  function TailRun(t: string, end: nat): nat {
    if end >= |t| || IsSpace(t[end]) || t[end] in JSON_STOPS then end else ValueRun(t, end, [], None, JSON_STOPS)
  }

  // ------------------------------------------------ the automata do recursive descent

  lemma {:induction false} ContainerString(t: string, i: nat, stack: seq<char>, quote: char)
    ensures var j := StringEnd(t, i, quote);
            ContainerRun(t, i, stack, Some(quote)) == if j.None? then |t| else ContainerRun(t, j.value, stack, None)
    decreases |t| - i
  {
    if i < |t| {
      if t[i] == '\\' { ContainerString(t, i + 2, stack, quote); }
      else if t[i] != quote { ContainerString(t, i + 1, stack, quote); }
    }
  }

  /** One level of the stack is one call of the descent. */
  lemma {:induction false} ContainerLevel(t: string, i: nat, stack: seq<char>, closer: char)
    ensures var j := BodyEnd(t, i, closer);
            ContainerRun(t, i, stack + [closer], None)
            == if j.None? then |t| else if stack == [] then j.value else ContainerRun(t, j.value, stack, None)
    decreases |t| - i
  {
    if i < |t| {
      var all := stack + [closer];
      assert all[|all| - 1] == closer && all[..|all| - 1] == stack;
      if IsQuote(t[i]) {
        ContainerString(t, i + 1, all, t[i]);
        var j := StringEnd(t, i + 1, t[i]);
        if j.Some? { ContainerLevel(t, j.value, stack, closer); }
      } else if IsOpener(t[i]) {
        ContainerLevel(t, i + 1, all, CloserOf(t[i]));
        var j := BodyEnd(t, i + 1, CloserOf(t[i]));
        if j.Some? { ContainerLevel(t, j.value, stack, closer); }
      } else if t[i] != closer {
        ContainerLevel(t, i + 1, stack, closer);
      }
    }
  }

  lemma {:induction false} ValueString(t: string, i: nat, stack: seq<char>, quote: char, stops: set<char>)
    ensures var j := StringEnd(t, i, quote);
            ValueRun(t, i, stack, Some(quote), stops) == if j.None? then |t| else ValueRun(t, j.value, stack, None, stops)
    decreases |t| - i
  {
    if i < |t| {
      if t[i] == '\\' { ValueString(t, i + 2, stack, quote, stops); }
      else if t[i] != quote { ValueString(t, i + 1, stack, quote, stops); }
    }
  }

  lemma {:induction false} ValueLevel(t: string, i: nat, stack: seq<char>, closer: char, stops: set<char>)
    ensures var j := BodyEnd(t, i, closer);
            ValueRun(t, i, stack + [closer], None, stops) == if j.None? then |t| else ValueRun(t, j.value, stack, None, stops)
    decreases |t| - i
  {
    if i < |t| {
      var all := stack + [closer];
      assert all[|all| - 1] == closer && all[..|all| - 1] == stack;
      if IsQuote(t[i]) {
        ValueString(t, i + 1, all, t[i], stops);
        var j := StringEnd(t, i + 1, t[i]);
        if j.Some? { ValueLevel(t, j.value, stack, closer, stops); }
      } else if IsOpener(t[i]) {
        ValueLevel(t, i + 1, all, CloserOf(t[i]), stops);
        var j := BodyEnd(t, i + 1, CloserOf(t[i]));
        if j.Some? { ValueLevel(t, j.value, stack, closer, stops); }
      } else if t[i] != closer {
        ValueLevel(t, i + 1, stack, closer, stops);
      }
    }
  }

  /** The container automaton ends where the descent closes the container, or at the end of the text. */
  lemma {:induction false} ContainerIsDescent(t: string, start: nat)
    requires start < |t| && IsOpener(t[start])
    ensures var end := BodyEnd(t, start + 1, CloserOf(t[start]));
            ContainerRun(t, start, [], None) == if end.Some? then end.value else |t|
  {
    ContainerLevel(t, start + 1, [], CloserOf(t[start]));
    assert [] + [CloserOf(t[start])] == [CloserOf(t[start])];
  }

  lemma {:induction false} ValueIsDescent(t: string, i: nat, stops: set<char>)
    requires i <= |t|
    ensures ValueRun(t, i, [], None, stops) == FreeEnd(t, i, stops)
    decreases |t| - i
  {
    if i < |t| {
      if IsQuote(t[i]) {
        ValueString(t, i + 1, [], t[i], stops);
        var j := StringEnd(t, i + 1, t[i]);
        if j.Some? { ValueIsDescent(t, j.value, stops); }
      } else if IsOpener(t[i]) {
        ValueLevel(t, i + 1, [], CloserOf(t[i]), stops);
        assert [] + [CloserOf(t[i])] == [CloserOf(t[i])];
        var j := BodyEnd(t, i + 1, CloserOf(t[i]));
        if j.Some? { ValueIsDescent(t, j.value, stops); }
      } else if !IsSpace(t[i]) && t[i] !in stops {
        ValueIsDescent(t, i + 1, stops);
      }
    }
  }

  /** Scanning a container and then its tail is scanning the value in one pass. */
  lemma {:induction false} ScannersFuse(t: string, start: nat)
    requires start < |t| && IsOpener(t[start])
    ensures TailRun(t, ContainerRun(t, start, [], None)) == ValueRun(t, start, [], None, JSON_STOPS)
  {
    ContainerIsDescent(t, start);
    ValueIsDescent(t, start, JSON_STOPS);
    TailIsDescent(t, ContainerRun(t, start, [], None));
  }

  /** The tail scan adds nothing but the value scan from where it starts. */
  lemma {:induction false} TailIsDescent(t: string, end: nat)
    requires end <= |t|
    ensures TailRun(t, end) == FreeEnd(t, end, JSON_STOPS)
  {
    ValueIsDescent(t, end, JSON_STOPS);
    if end < |t| && (IsSpace(t[end]) || t[end] in JSON_STOPS) {
      assert !IsQuote(t[end]) && !IsOpener(t[end]);
    }
  }
}
