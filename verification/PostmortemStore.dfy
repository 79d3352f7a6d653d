// The knowledge store as the reader of one incident's postmortem sees it, while reviewers write.

module PostmortemStore {
  import opened Outcomes

  type EntryId = nat

  datatype Standing = Active | Superseded | Revoked

  /** A stored knowledge revision; `body` stands for its immutable columns. */
  datatype Revision = Revision(number: nat, body: nat, standing: Standing)

  datatype Entry = Entry(generation: nat, revisions: seq<Revision>, audit: seq<nat>)

  /** Which revision an approval of this postmortem published, with its immutable columns. */
  datatype Link = Link(entry: EntryId, revision: nat, columns: nat)

  datatype Postmortem = Postmortem(id: nat, generation: nat, content: nat, links: seq<Link>, audit: seq<nat>)

  /** Everything stored about one incident's postmortem and the entries it published. */
  datatype Store = Store(postmortem: Option<Postmortem>, entries: map<EntryId, Entry>)

  // ------------------------------------------------ how the store moves

  predicate HasRevision(entry: Entry, number: nat) {
    exists k :: 0 <= k < |entry.revisions| && entry.revisions[k].number == number
  }

  /** The published links name stored revisions. */
  ghost predicate WellFormed(s: Store) {
    s.postmortem.Some? ==>
      forall k {:trigger s.postmortem.value.links[k]} :: 0 <= k < |s.postmortem.value.links| ==>
        var link := s.postmortem.value.links[k];
        link.entry in s.entries && HasRevision(s.entries[link.entry], link.revision)
  }

  /** Generations only grow, an object changes only with its generation, and nothing disappears. */
  ghost predicate Evolves(a: Store, b: Store) {
    && (a.postmortem.Some? ==>
          && b.postmortem.Some? && b.postmortem.value.id == a.postmortem.value.id
          && a.postmortem.value.generation <= b.postmortem.value.generation
          && (a.postmortem.value.generation == b.postmortem.value.generation ==> a.postmortem == b.postmortem))
    && (forall e {:trigger a.entries[e]} {:trigger b.entries[e]} :: e in a.entries ==>
          && e in b.entries && a.entries[e].generation <= b.entries[e].generation
          && (a.entries[e].generation == b.entries[e].generation ==> a.entries[e] == b.entries[e]))
  }

  /** The successive states of the store. */
  ghost predicate ValidHistory(h: seq<Store>) {
    && h != []
    && (forall k {:trigger h[k]} :: 0 <= k < |h| ==> WellFormed(h[k]))
    && (forall k {:trigger h[k]} :: 0 < k < |h| ==> Evolves(h[k - 1], h[k]))
  }

  lemma {:induction false} EvolvesTrans(a: Store, b: Store, c: Store)
    requires Evolves(a, b) && Evolves(b, c)
    ensures Evolves(a, c)
  {
  }

  lemma {:induction false} EvolvesOver(h: seq<Store>, i: nat, j: nat)
    requires ValidHistory(h) && i <= j < |h|
    ensures Evolves(h[i], h[j])
    decreases j
  {
    if i < j {
      EvolvesOver(h, i, j - 1);
      EvolvesTrans(h[i], h[j - 1], h[j]);
    }
  }

  /** An entry whose generation is the same at both ends of a stretch never changed inside it. */
  lemma {:induction false} EntryHeld(h: seq<Store>, i: nat, k: nat, j: nat, e: EntryId)
    requires ValidHistory(h) && i <= k <= j < |h| && e in h[i].entries
    ensures e in h[k].entries && e in h[j].entries
    ensures h[i].entries[e].generation == h[j].entries[e].generation ==>
              h[k].entries[e] == h[i].entries[e] && h[j].entries[e] == h[i].entries[e]
  {
    EvolvesOver(h, i, k);
    EvolvesOver(h, k, j);
    assert h[k].entries[e].generation <= h[j].entries[e].generation;
  }

  function Generation(s: Store): Option<nat> {
    if s.postmortem.None? then None else Some(s.postmortem.value.generation)
  }

  lemma {:induction false} PostmortemHeld(h: seq<Store>, i: nat, k: nat, j: nat)
    requires ValidHistory(h) && i <= k <= j < |h| && Generation(h[i]) == Generation(h[j])
    ensures h[k].postmortem == h[i].postmortem && h[j].postmortem == h[i].postmortem
  {
    EvolvesOver(h, i, k);
    EvolvesOver(h, k, j);
  }

  // ------------------------------------------------ the review actions that write

  function Stand(revisions: seq<Revision>, number: nat, to: Standing): (r: seq<Revision>) {
    seq(|revisions|, i requires 0 <= i < |revisions| =>
      if revisions[i].number == number then revisions[i].(standing := to) else revisions[i])
  }

  predicate InForce(entry: Entry, number: nat) {
    exists k :: 0 <= k < |entry.revisions| && entry.revisions[k].number == number && entry.revisions[k].standing == Active
  }

  /** `revoke`: tombstones a revision and raises the generation of its entry alone. */
  function Revoke(s: Store, e: EntryId, number: nat, event: nat): Store
    requires e in s.entries
  {
    var entry := s.entries[e];
    s.(entries := s.entries[e := Entry(entry.generation + 1, Stand(entry.revisions, number, Revoked), entry.audit + [event])])
  }

  /** The latest revision steps back if it is in force; a revoked one stays revoked. */
  function StepBack(revisions: seq<Revision>): seq<Revision> {
    seq(|revisions|, i requires 0 <= i < |revisions| =>
      if i == |revisions| - 1 && revisions[i].standing == Active then revisions[i].(standing := Superseded) else revisions[i])
  }

  function NextNumber(s: Store, e: EntryId): nat { if e in s.entries then |s.entries[e].revisions| + 1 else 1 }

  /** One proposal of an approval: a new entry, or a new revision after the latest. */
  function Publish(s: Store, e: EntryId, body: nat, event: nat): Store {
    if e !in s.entries then
      s.(entries := s.entries[e := Entry(1, [Revision(1, body, Active)], [event])])
    else
      var entry := s.entries[e];
      s.(entries := s.entries[e := Entry(entry.generation + 1,
           StepBack(entry.revisions) + [Revision(NextNumber(s, e), body, Active)], entry.audit + [event])])
  }

  /** A proposal names the entry it supersedes or a new one. */
  datatype Proposal = Proposal(entry: EntryId, body: nat, columns: nat)

  /** `_publish`: every proposal in turn, each linked from the postmortem. */
  function PublishAll(s: Store, proposals: seq<Proposal>, event: nat): Store
    requires s.postmortem.Some?
    decreases |proposals|
  {
    if proposals == [] then s
    else
      var p, first := s.postmortem.value, proposals[0];
      var next := Publish(s, first.entry, first.body, event).(postmortem :=
        Some(p.(links := p.links + [Link(first.entry, NextNumber(s, first.entry), first.columns)])));
      PublishAll(next, proposals[1..], event)
  }

  /** A review transition of the postmortem: its content, its generation and its audit move. */
  function Transition(s: Store, content: nat, event: nat): Store
    requires s.postmortem.Some?
  {
    var p := s.postmortem.value;
    s.(postmortem := Some(p.(generation := p.generation + 1, content := content, audit := p.audit + [event])))
  }

  datatype Action =
    | Draft(id: nat, content: nat, event: nat)                    // the incident's postmortem is created
    | Approve(content: nat, proposals: seq<Proposal>, event: nat)
    | Review(content: nat, event: nat)                            // submit, reject, return, revise
    | Withdraw(entry: EntryId, number: nat, event: nat)           // `revoke`
    | Elsewhere(proposal: Proposal, event: nat)                   // published by an approval of another postmortem

  /** One committed transaction of a writer. */
  function Act(s: Store, a: Action): Store {
    match a
    case Draft(id, content, event) =>
      if s.postmortem.Some? then s else s.(postmortem := Some(Postmortem(id, 1, content, [], [event])))
    case Approve(content, proposals, event) =>
      if s.postmortem.None? then s else PublishAll(Transition(s, content, event), proposals, event)
    case Review(content, event) => if s.postmortem.None? then s else Transition(s, content, event)
    case Withdraw(e, number, event) =>
      if e !in s.entries || !InForce(s.entries[e], number) then s else Revoke(s, e, number, event)
    case Elsewhere(proposal, event) => Publish(s, proposal.entry, proposal.body, event)
  }

  lemma {:induction false} PublishKeeps(s: Store, e: EntryId, body: nat, event: nat, link: Link)
    requires link.entry in s.entries && HasRevision(s.entries[link.entry], link.revision)
    ensures var b := Publish(s, e, body, event);
            link.entry in b.entries && HasRevision(b.entries[link.entry], link.revision)
  {
    var b := Publish(s, e, body, event);
    var k :| 0 <= k < |s.entries[link.entry].revisions| && s.entries[link.entry].revisions[k].number == link.revision;
    assert b.entries[link.entry].revisions[k].number == link.revision;
  }

  lemma {:induction false} PublishAllKeeps(s: Store, proposals: seq<Proposal>, event: nat)
    requires s.postmortem.Some? && WellFormed(s)
    ensures var b := PublishAll(s, proposals, event);
            && WellFormed(b) && b.postmortem.Some? && b.postmortem.value.id == s.postmortem.value.id
            && b.postmortem.value.generation == s.postmortem.value.generation
            && Evolves(s.(postmortem := None), b.(postmortem := None))
    decreases |proposals|
  {
    if proposals != [] {
      var p, first := s.postmortem.value, proposals[0];
      var b := Publish(s, first.entry, first.body, event);
      var number := NextNumber(s, first.entry);
      var next := b.(postmortem := Some(p.(links := p.links + [Link(first.entry, number, first.columns)])));
      var revisions := b.entries[first.entry].revisions;
      assert revisions[|revisions| - 1].number == number;
      var links := next.postmortem.value.links;
      forall k | 0 <= k < |links| ensures links[k].entry in next.entries && HasRevision(next.entries[links[k].entry], links[k].revision) {
        if k < |p.links| {
          assert links[k] == p.links[k];
          PublishKeeps(s, first.entry, first.body, event, p.links[k]);
        }
      }
      PublishAllKeeps(next, proposals[1..], event);
      EvolvesTrans(s.(postmortem := None), next.(postmortem := None), PublishAll(next, proposals[1..], event).(postmortem := None));
    }
  }

  /** Every writer keeps the links sound and moves what it changes to a new generation. */
  lemma {:induction false} ActionsEvolve(s: Store, a: Action)
    requires WellFormed(s)
    ensures WellFormed(Act(s, a)) && Evolves(s, Act(s, a))
  {
    var b := Act(s, a);
    match a
    case Draft(_, _, _) =>
    case Review(_, _) =>
    case Elsewhere(proposal, event) =>
      if s.postmortem.Some? {
        var links := s.postmortem.value.links;
        forall k | 0 <= k < |links| ensures links[k].entry in b.entries && HasRevision(b.entries[links[k].entry], links[k].revision) {
          PublishKeeps(s, proposal.entry, proposal.body, event, links[k]);
        }
      }
    case Approve(content, proposals, event) =>
      if s.postmortem.Some? { PublishAllKeeps(Transition(s, content, event), proposals, event); }
    case Withdraw(e, number, event) =>
      if e in s.entries && s.postmortem.Some? {
        var links := s.postmortem.value.links;
        forall k | 0 <= k < |links| ensures links[k].entry in b.entries && HasRevision(b.entries[links[k].entry], links[k].revision) {
          var n :| 0 <= n < |s.entries[links[k].entry].revisions| && s.entries[links[k].entry].revisions[n].number == links[k].revision;
          assert b.entries[links[k].entry].revisions[n].number == links[k].revision;
        }
      }
  }

  /** The states a sequence of transactions goes through. */
  function States(s: Store, actions: seq<Action>): (h: seq<Store>)
    ensures |h| == |actions| + 1 && h[0] == s
    decreases |actions|
  {
    if actions == [] then [s] else [s] + States(Act(s, actions[0]), actions[1..])
  }

  /** Whatever the writers do, in whatever order, the store goes through a valid history. */
  lemma {:induction false} WritersMakeHistories(s: Store, actions: seq<Action>)
    requires WellFormed(s)
    ensures ValidHistory(States(s, actions))
    decreases |actions|
  {
    if actions != [] {
      ActionsEvolve(s, actions[0]);
      WritersMakeHistories(Act(s, actions[0]), actions[1..]);
      var h, rest := States(s, actions), States(Act(s, actions[0]), actions[1..]);
      forall k | 0 < k < |h| ensures Evolves(h[k - 1], h[k]) && WellFormed(h[k]) {
        assert h[k] == rest[k - 1];
        if k > 1 { assert h[k - 1] == rest[k - 2]; }
      }
    }
  }

  // ------------------------------------------------ which revision is in force

  /** Revisions are numbered from one, and none but the last is in force. */
  ghost predicate Numbered(entry: Entry) {
    && entry.revisions != []
    && forall k {:trigger entry.revisions[k]} :: 0 <= k < |entry.revisions| ==>
         entry.revisions[k].number == k + 1 && (entry.revisions[k].standing == Active ==> k == |entry.revisions| - 1)
  }

  ghost predicate AllNumbered(s: Store) {
    forall e {:trigger s.entries[e]} :: e in s.entries ==> Numbered(s.entries[e])
  }

  /** Numbers and bodies stay, and a revision once out of force stays as it is. */
  ghost predicate RevisionsKept(a: Entry, b: Entry) {
    && |a.revisions| <= |b.revisions|
    && forall k {:trigger a.revisions[k]} {:trigger b.revisions[k]} :: 0 <= k < |a.revisions| ==>
         && a.revisions[k].number == b.revisions[k].number && a.revisions[k].body == b.revisions[k].body
         && (a.revisions[k].standing != Active ==> b.revisions[k].standing == a.revisions[k].standing)
  }

  ghost predicate Onward(a: Store, b: Store) {
    forall e {:trigger a.entries[e]} {:trigger b.entries[e]} :: e in a.entries ==>
      e in b.entries && RevisionsKept(a.entries[e], b.entries[e])
  }

  lemma {:induction false} OnwardTrans(a: Store, b: Store, c: Store)
    requires Onward(a, b) && Onward(b, c)
    ensures Onward(a, c)
  {
    forall e | e in a.entries ensures e in c.entries && RevisionsKept(a.entries[e], c.entries[e]) {
      assert e in b.entries && RevisionsKept(b.entries[e], c.entries[e]);
    }
  }

  /** A publication is in force, it alone of its entry, and touches no other entry. */
  lemma {:induction false} PublishedInForce(s: Store, e: EntryId, body: nat, event: nat)
    requires AllNumbered(s)
    ensures var b := Publish(s, e, body, event);
            && AllNumbered(b) && Onward(s, b) && b.entries.Keys == s.entries.Keys + {e}
            && (forall x :: x in s.entries && x != e ==> b.entries[x] == s.entries[x])
            && |b.entries[e].revisions| == NextNumber(s, e)
            && (forall number: nat :: InForce(b.entries[e], number) <==> number == NextNumber(s, e))
            && b.entries[e].revisions[NextNumber(s, e) - 1].body == body
  {
    var b := Publish(s, e, body, event);
    var last := NextNumber(s, e) - 1;
    assert b.entries[e].revisions[last] == Revision(last + 1, body, Active);
    assert Numbered(b.entries[e]);
  }

  /** A publication puts the revision that was in force behind it; one revoked stays revoked. */
  lemma {:induction false} PredecessorSuperseded(s: Store, e: EntryId, body: nat, event: nat, k: nat)
    requires AllNumbered(s) && e in s.entries && k < |s.entries[e].revisions|
    ensures var was, now := s.entries[e].revisions[k].standing, Publish(s, e, body, event).entries[e].revisions[k].standing;
            now == if was == Active then Superseded else was
  {
  }

  /** Only what is in force can be withdrawn; then nothing of its entry is, until a later publication. */
  lemma {:induction false} WithdrawnOutOfForce(s: Store, e: EntryId, number: nat, event: nat)
    requires AllNumbered(s) && e in s.entries
    ensures var b := Act(s, Withdraw(e, number, event));
            && AllNumbered(b) && Onward(s, b) && b.postmortem == s.postmortem && b.entries.Keys == s.entries.Keys
            && (forall x :: x in s.entries && x != e ==> b.entries[x] == s.entries[x])
            && (!InForce(s.entries[e], number) ==> b == s)
            && (InForce(s.entries[e], number) ==>
                  && 1 <= number <= |b.entries[e].revisions| && b.entries[e].revisions[number - 1].standing == Revoked
                  && forall other: nat :: !InForce(b.entries[e], other))
  {
    var entry, b := s.entries[e], Act(s, Withdraw(e, number, event));
    if InForce(entry, number) {
      var k :| 0 <= k < |entry.revisions| && entry.revisions[k].number == number && entry.revisions[k].standing == Active;
      assert b.entries[e].revisions[k].standing == Revoked;
      forall j | 0 <= j < |entry.revisions|
        ensures b.entries[e].revisions[j] == if j == k then entry.revisions[j].(standing := Revoked) else entry.revisions[j]
      {
        assert entry.revisions[j].number == j + 1;
      }
      assert Numbered(b.entries[e]);
    }
  }

  lemma {:induction false} PublishAllNumbers(s: Store, proposals: seq<Proposal>, event: nat)
    requires s.postmortem.Some? && AllNumbered(s)
    ensures AllNumbered(PublishAll(s, proposals, event)) && Onward(s, PublishAll(s, proposals, event))
    decreases |proposals|
  {
    if proposals != [] {
      var p, first := s.postmortem.value, proposals[0];
      PublishedInForce(s, first.entry, first.body, event);
      var next := Publish(s, first.entry, first.body, event).(postmortem :=
        Some(p.(links := p.links + [Link(first.entry, NextNumber(s, first.entry), first.columns)])));
      PublishAllNumbers(next, proposals[1..], event);
      OnwardTrans(s, next, PublishAll(next, proposals[1..], event));
    }
  }

  /** Every writer leaves at most the last revision of an entry in force. */
  lemma {:induction false} ActionsNumber(s: Store, a: Action)
    requires AllNumbered(s)
    ensures AllNumbered(Act(s, a)) && Onward(s, Act(s, a))
  {
    match a
    case Draft(_, _, _) =>
    case Review(_, _) =>
    case Elsewhere(proposal, event) => PublishedInForce(s, proposal.entry, proposal.body, event);
    case Approve(content, proposals, event) =>
      if s.postmortem.Some? { PublishAllNumbers(Transition(s, content, event), proposals, event); }
    case Withdraw(e, number, event) =>
      if e in s.entries { WithdrawnOutOfForce(s, e, number, event); }
  }

  /** Whatever the writers do: at every moment at most the last revision of an entry is in force, and one
      superseded or revoked is so for good. */
  lemma {:induction false} OutOfForceForGood(s: Store, actions: seq<Action>, i: nat)
    requires AllNumbered(s) && i <= |actions|
    ensures AllNumbered(States(s, actions)[i]) && Onward(s, States(s, actions)[i])
    decreases i
  {
    if i > 0 {
      ActionsNumber(s, actions[0]);
      OutOfForceForGood(Act(s, actions[0]), actions[1..], i - 1);
      OnwardTrans(s, Act(s, actions[0]), States(s, actions)[i]);
    }
  }
}
