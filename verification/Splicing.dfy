// Replacing disjoint spans of a text by markers, everything else kept in place.

module Splicing {
  /** `t[from..to]` becomes `marker`. */
  datatype Span = Span(from: nat, to: nat, marker: string)

  /** Non-empty spans inside `t[pos..]`, each after the last. */
  predicate Ascending(t: string, pos: nat, spans: seq<Span>)
    decreases |spans|
  {
    && pos <= |t|
    && (spans != [] ==> pos <= spans[0].from < spans[0].to <= |t| && Ascending(t, spans[0].to, spans[1..]))
  }

  function Splice(t: string, pos: nat, spans: seq<Span>): string
    requires Ascending(t, pos, spans)
    decreases |spans|
  {
    if spans == [] then t[pos..]
    else t[pos..spans[0].from] + spans[0].marker + Splice(t, spans[0].to, spans[1..])
  }

  /** The same spans, standing for what they were. */
  function Undone(t: string, pos: nat, spans: seq<Span>): (undone: seq<Span>)
    requires Ascending(t, pos, spans)
    ensures |undone| == |spans|
    ensures forall k :: 0 <= k < |spans| ==>
              spans[k].from <= spans[k].to <= |t|
              && undone[k] == Span(spans[k].from, spans[k].to, t[spans[k].from..spans[k].to])
    decreases |spans|
  {
    if spans == [] then []
    else [Span(spans[0].from, spans[0].to, t[spans[0].from..spans[0].to])] + Undone(t, spans[0].to, spans[1..])
  }

  /** Kept slices and replaced spans together are the text. */
  lemma {:induction false} NothingLost(t: string, pos: nat, spans: seq<Span>)
    requires Ascending(t, pos, spans)
    ensures Ascending(t, pos, Undone(t, pos, spans)) && Splice(t, pos, Undone(t, pos, spans)) == t[pos..]
    decreases |spans|
  {
    if spans != [] {
      var undone := Undone(t, pos, spans);
      assert undone[1..] == Undone(t, spans[0].to, spans[1..]);
      NothingLost(t, spans[0].to, spans[1..]);
      assert t[pos..] == t[pos..spans[0].from] + t[spans[0].from..spans[0].to] + t[spans[0].to..];
    }
  }

  /** Any two spans are apart, in their order. */
  lemma {:induction false} SpansApart(t: string, pos: nat, spans: seq<Span>, i: nat, j: nat)
    requires Ascending(t, pos, spans) && i < j < |spans|
    ensures pos <= spans[i].from < spans[i].to <= spans[j].from < spans[j].to <= |t|
    decreases |spans|
  {
    if i > 0 {
      SpansApart(t, spans[0].to, spans[1..], i - 1, j - 1);
    } else if j > 1 {
      SpansApart(t, spans[0].to, spans[1..], 0, j - 1);
    }
  }

  /** The same but for what the spans hold: equal slices are kept, equal markers stand between them. */
  ghost predicate AgreeOutside(t: string, pos: nat, spans: seq<Span>, t': string, pos': nat, spans': seq<Span>)
    requires Ascending(t, pos, spans) && Ascending(t', pos', spans')
    decreases |spans|
  {
    if spans == [] || spans' == [] then spans == spans' && t[pos..] == t'[pos'..]
    else
      && t[pos..spans[0].from] == t'[pos'..spans'[0].from] && spans[0].marker == spans'[0].marker
      && AgreeOutside(t, spans[0].to, spans[1..], t', spans'[0].to, spans'[1..])
  }

  /** Nothing of what the spans hold is in the result. */
  lemma {:induction false} SpansDoNotShow(t: string, pos: nat, spans: seq<Span>, t': string, pos': nat, spans': seq<Span>)
    requires Ascending(t, pos, spans) && Ascending(t', pos', spans') && AgreeOutside(t, pos, spans, t', pos', spans')
    ensures Splice(t, pos, spans) == Splice(t', pos', spans')
    decreases |spans|
  {
    if spans != [] { SpansDoNotShow(t, spans[0].to, spans[1..], t', spans'[0].to, spans'[1..]); }
  }

  lemma {:induction false} SpanBehind(t: string, pos: nat, spans: seq<Span>, span: Span)
    requires Ascending(t, pos, spans) && span in spans
    ensures pos <= span.from < span.to <= |t|
    decreases |spans|
  {
    if span != spans[0] { SpanBehind(t, spans[0].to, spans[1..], span); }
  }

  function Joined(parts: seq<string>): string {
    if parts == [] then "" else Joined(parts[..|parts| - 1]) + parts[|parts| - 1]
  }

  /** Keeping a stretch before the first span leaves the result as it was. */
  lemma {:induction false} KeptAhead(t: string, pos: nat, next: nat, spans: seq<Span>)
    requires pos <= next && Ascending(t, next, spans)
    ensures Ascending(t, pos, spans) && Splice(t, pos, spans) == t[pos..next] + Splice(t, next, spans)
  {
  }

  lemma {:induction false} SplicedFirst(t: string, pos: nat, span: Span, spans: seq<Span>)
    requires pos <= span.from < span.to <= |t| && Ascending(t, span.to, spans)
    ensures Ascending(t, pos, [span] + spans)
    ensures Splice(t, pos, [span] + spans) == t[pos..span.from] + span.marker + Splice(t, span.to, spans)
  {
  }

  /** The parts so far, and the spans still to come from `pos`, make `goal`. */
  ghost predicate OnTheWay(t: string, parts: seq<string>, pos: nat, spans: seq<Span>, goal: string) {
    Ascending(t, pos, spans) && Joined(parts) + Splice(t, pos, spans) == goal
  }

  lemma {:induction false} KeepOn(t: string, parts: seq<string>, pos: nat, next: nat, spans: seq<Span>, goal: string)
    requires OnTheWay(t, parts, pos, spans, goal) && pos <= next && Ascending(t, next, spans)
    ensures OnTheWay(t, parts + [t[pos..next]], next, spans, goal)
  {
  }

  lemma {:induction false} ReplaceOn(t: string, parts: seq<string>, pos: nat, span: Span, rest: seq<Span>, goal: string)
    requires OnTheWay(t, parts, pos, [span] + rest, goal)
    requires pos <= span.from < span.to <= |t| && Ascending(t, span.to, rest)
    ensures OnTheWay(t, parts + [t[pos..span.from] + span.marker], span.to, rest, goal)
  {
  }

  lemma {:induction false} Arrive(t: string, parts: seq<string>, pos: nat, goal: string)
    requires OnTheWay(t, parts, pos, [], goal)
    ensures Joined(parts + [t[pos..]]) == goal
  {
  }
}
