// The stable-generation read: collect every part, then read the generations again.

module PostmortemReader {
  import opened Outcomes
  import opened PostmortemStore

  // ------------------------------------------------ the single reads

  /** The postmortem part of the incident view. */
  datatype View = View(id: nat, generation: nat, content: nat)

  /** A published revision with its standing as of the read. */
  datatype Published = Published(link: Link, standing: Standing)

  datatype HistoryView = HistoryView(generation: nat, revisions: seq<Revision>)

  function ViewOf(s: Store): Option<View> {
    if s.postmortem.None? then None
    else Some(View(s.postmortem.value.id, s.postmortem.value.generation, s.postmortem.value.content))
  }

  function StandingIn(revisions: seq<Revision>, number: nat): Standing
    requires exists k :: 0 <= k < |revisions| && revisions[k].number == number
  {
    if revisions[0].number == number then revisions[0].standing else StandingIn(revisions[1..], number)
  }

  function PublishedRow(s: Store, link: Link): Published
    requires link.entry in s.entries && HasRevision(s.entries[link.entry], link.revision)
  {
    Published(link, StandingIn(s.entries[link.entry].revisions, link.revision))
  }

  /** `knowledge_from_postmortem`: the links joined with the standing the entries have now. */
  ghost function PublishedOf(s: Store): seq<Published>
    requires WellFormed(s)
  {
    if s.postmortem.None? then []
    else
      var links := s.postmortem.value.links;
      seq(|links|, k requires 0 <= k < |links| && links[k].entry in s.entries
                              && HasRevision(s.entries[links[k].entry], links[k].revision) => PublishedRow(s, links[k]))
  }

  function HistoryOf(s: Store, e: EntryId): HistoryView
    requires e in s.entries
  {
    HistoryView(s.entries[e].generation, s.entries[e].revisions)
  }

  /** `active_revision`: the revision in force, if any. */
  function ActiveOf(s: Store, e: EntryId): set<Revision>
    requires e in s.entries
  {
    set r | r in s.entries[e].revisions && r.standing == Active
  }

  /** What is read as in force is the last revision or nothing. */
  lemma {:induction false} ActiveIsLast(s: Store, e: EntryId)
    requires AllNumbered(s) && e in s.entries
    ensures var last := s.entries[e].revisions[|s.entries[e].revisions| - 1];
            ActiveOf(s, e) == if last.standing == Active then {last} else {}
  {
    assert Numbered(s.entries[e]);
  }

  ghost function PostmortemAudit(s: Store): seq<nat> {
    if s.postmortem.None? then [] else s.postmortem.value.audit
  }

  // ------------------------------------------------ records

  datatype Records = Records(
    view: Option<View>, published: seq<Published>, histories: map<EntryId, HistoryView>,
    active: map<EntryId, set<Revision>>, audit: seq<nat>, entryAudits: map<EntryId, seq<nat>>)

  function EntriesOf(rows: seq<Published>): set<EntryId> {
    set k | 0 <= k < |rows| :: rows[k].link.entry
  }

  /** Everything as stored at one instant. */
  ghost function Snapshot(s: Store): Records
    requires WellFormed(s)
  {
    var ids := EntriesOf(PublishedOf(s));
    Records(ViewOf(s), PublishedOf(s),
            map e | e in ids && e in s.entries :: HistoryOf(s, e),
            map e | e in ids && e in s.entries :: ActiveOf(s, e),
            PostmortemAudit(s),
            map e | e in ids && e in s.entries :: s.entries[e].audit)
  }

  /** Each published row's standing is the one its entry's history shows. A caller holding the
      records can check this. */
  ghost predicate StandingsAgree(r: Records) {
    forall k {:trigger r.published[k]} :: 0 <= k < |r.published| ==> RowAgrees(r, r.published[k])
  }

  ghost predicate RowAgrees(r: Records, row: Published) {
    var e, number := row.link.entry, row.link.revision;
    && e in r.histories
    && (exists n :: 0 <= n < |r.histories[e].revisions| && r.histories[e].revisions[n].number == number)
    && row.standing == StandingIn(r.histories[e].revisions, number)
  }

  /** The records are the snapshot but for the standings of the published rows. */
  ghost predicate AtInstant(r: Records, s: Store)
    requires WellFormed(s)
  {
    var now := Snapshot(s);
    && r == now.(published := r.published)
    && |r.published| == |now.published|
    && forall k {:trigger r.published[k]} :: 0 <= k < |r.published| ==> r.published[k].link == now.published[k].link
  }

  lemma {:induction false} SnapshotAgrees(s: Store)
    requires WellFormed(s)
    ensures StandingsAgree(Snapshot(s))
  {
  }

  /** Records taken at an instant are that instant's snapshot exactly when the standings agree. */
  lemma {:induction false} AgreementDecides(r: Records, s: Store)
    requires WellFormed(s) && AtInstant(r, s)
    ensures r == Snapshot(s) <==> StandingsAgree(r)
  {
    SnapshotAgrees(s);
    if StandingsAgree(r) {
      var now := Snapshot(s);
      forall k | 0 <= k < |r.published| ensures r.published[k] == now.published[k] {
        assert now.published[k].link == r.published[k].link;
      }
      assert r.published == now.published;
    }
  }

  // ------------------------------------------------ the double collect

  /** When each part of one pass was read: every part between the first view and the second. */
  datatype Times = Times(view: nat, published: nat, histories: map<EntryId, nat>, active: map<EntryId, nat>,
                         audit: nat, entryAudits: map<EntryId, nat>, second: nat, checks: map<EntryId, nat>)

  ghost predicate EntryTimesOk(h: seq<Store>, t: Times, e: EntryId) {
    && e in t.histories && e in t.active && e in t.entryAudits && e in t.checks
    && t.published <= t.histories[e] <= t.active[e] <= t.second
    && t.histories[e] <= t.entryAudits[e] <= t.second <= t.checks[e] < |h|
  }

  ghost predicate TimesOk(h: seq<Store>, t: Times, ids: set<EntryId>) {
    && t.view <= t.published <= t.second < |h| && t.published <= t.audit <= t.second
    && forall e {:trigger t.histories[e]} :: e in ids ==> EntryTimesOk(h, t, e)
  }

  /** One entry's parts, as read at their times. */
  ghost predicate EntryRead(h: seq<Store>, r: Records, t: Times, e: EntryId)
    requires EntryTimesOk(h, t, e)
  {
    && e in h[t.histories[e]].entries && e in h[t.active[e]].entries && e in h[t.entryAudits[e]].entries
    && e in r.histories && r.histories[e] == HistoryOf(h[t.histories[e]], e)
    && e in r.active && r.active[e] == ActiveOf(h[t.active[e]], e)
    && e in r.entryAudits && r.entryAudits[e] == h[t.entryAudits[e]].entries[e].audit
  }

  /** The records of one pass whose reads happened at these times. */
  ghost predicate Collected(h: seq<Store>, r: Records, t: Times) {
    var ids := EntriesOf(r.published);
    && ValidHistory(h) && TimesOk(h, t, ids)
    && r.view == ViewOf(h[t.view]) && r.audit == PostmortemAudit(h[t.audit])
    && r.published == (if r.view.None? then [] else PublishedOf(h[t.published]))
    && (r.view.None? ==> r.audit == [])
    && r.histories.Keys == ids && r.active.Keys == ids && r.entryAudits.Keys == ids
    && forall e {:trigger r.histories[e]} :: e in ids ==> EntryRead(h, r, t, e)
  }

  /** The second look at the generations finds what the records hold. */
  ghost predicate Stable(h: seq<Store>, r: Records, t: Times)
    requires Collected(h, r, t)
  {
    && Generation(h[t.second]) == (if r.view.None? then None else Some(r.view.value.generation))
    && forall e {:trigger GenerationHeld(h, r, t, e)} :: e in r.histories ==> GenerationHeld(h, r, t, e)
  }

  ghost predicate GenerationHeld(h: seq<Store>, r: Records, t: Times, e: EntryId)
    requires e in r.histories
  {
    EntryTimesOk(h, t, e) && e in h[t.checks[e]].entries && h[t.checks[e]].entries[e].generation == r.histories[e].generation
  }

  lemma {:induction false} EntryAtInstant(h: seq<Store>, r: Records, t: Times, e: EntryId)
    requires Collected(h, r, t) && Stable(h, r, t) && e in EntriesOf(r.published)
    ensures e in h[t.second].entries && e in r.histories && e in r.active && e in r.entryAudits
    ensures r.histories[e] == HistoryOf(h[t.second], e) && r.active[e] == ActiveOf(h[t.second], e)
    ensures r.entryAudits[e] == h[t.second].entries[e].audit
  {
    assert EntryRead(h, r, t, e) && GenerationHeld(h, r, t, e);
    EntryHeld(h, t.histories[e], t.second, t.checks[e], e);
    EntryHeld(h, t.histories[e], t.active[e], t.checks[e], e);
    EntryHeld(h, t.histories[e], t.entryAudits[e], t.checks[e], e);
  }

  lemma {:induction false} PostmortemAtInstant(h: seq<Store>, r: Records, t: Times)
    requires Collected(h, r, t) && Stable(h, r, t)
    ensures r.view == ViewOf(h[t.second]) && r.audit == PostmortemAudit(h[t.second])
    ensures var now := PublishedOf(h[t.second]);
            |r.published| == |now| && forall k {:trigger r.published[k]} :: 0 <= k < |now| ==> r.published[k].link == now[k].link
  {
    PostmortemHeld(h, t.view, t.published, t.second);
    PostmortemHeld(h, t.view, t.audit, t.second);
  }

  /** The theorem of the double collect: whatever was written between the reads, the accepted
      records are those of the instant of the second view read, but for published standings. */
  lemma {:induction false} StableIsInstant(h: seq<Store>, r: Records, t: Times)
    requires Collected(h, r, t) && Stable(h, r, t)
    ensures AtInstant(r, h[t.second])
  {
    PostmortemAtInstant(h, r, t);
    var now := Snapshot(h[t.second]);
    SameEntries(r.published, now.published);
    SnapshotKeys(h[t.second]);
    forall e | e in r.histories
      ensures r.histories[e] == now.histories[e] && r.active[e] == now.active[e] && r.entryAudits[e] == now.entryAudits[e]
    {
      EntryAtInstant(h, r, t, e);
    }
    SameMap(r.histories, now.histories);
    SameMap(r.active, now.active);
    SameMap(r.entryAudits, now.entryAudits);
  }

  lemma {:induction false} SameMap<V>(a: map<EntryId, V>, b: map<EntryId, V>)
    requires a.Keys == b.Keys && forall e {:trigger a[e]} :: e in a ==> a[e] == b[e]
    ensures a == b
  {
  }

  lemma {:induction false} SnapshotKeys(s: Store)
    requires WellFormed(s)
    ensures var r := Snapshot(s); var ids := EntriesOf(PublishedOf(s));
            r.histories.Keys == ids && r.active.Keys == ids && r.entryAudits.Keys == ids && ids <= s.entries.Keys
  {
  }

  lemma {:induction false} SameEntries(a: seq<Published>, b: seq<Published>)
    requires |a| == |b| && forall k {:trigger a[k]} :: 0 <= k < |a| ==> a[k].link == b[k].link
    ensures EntriesOf(a) == EntriesOf(b)
  {
    forall e | e in EntriesOf(a) ensures e in EntriesOf(b) {
      var k :| 0 <= k < |a| && a[k].link.entry == e;
      assert b[k].link.entry == e;
    }
    forall e | e in EntriesOf(b) ensures e in EntriesOf(a) {
      var k :| 0 <= k < |b| && b[k].link.entry == e;
      assert a[k].link.entry == e;
    }
  }

  /** Accepted records are the state of one instant inside the call if and only if the published
      standings agree with the histories. */
  lemma {:induction false} AtomicIffAgreeing(h: seq<Store>, r: Records, t: Times)
    requires Collected(h, r, t) && Stable(h, r, t)
    ensures StandingsAgree(r) <==> exists k :: t.view <= k <= t.second && r == Snapshot(h[k])
  {
    StableIsInstant(h, r, t);
    AgreementDecides(r, h[t.second]);
    if k :| t.view <= k <= t.second && r == Snapshot(h[k]) {
      SnapshotAgrees(h[k]);
    }
  }

  ghost predicate Stored(s: Store, link: Link) {
    link.entry in s.entries && HasRevision(s.entries[link.entry], link.revision)
  }

  /** No write changed the standing of this revision between the listing of the published rows and
      the reading of its entry's history. */
  ghost predicate RowUnmoved(h: seq<Store>, t: Times, link: Link) {
    && link.entry in t.histories && t.published < |h| && t.histories[link.entry] < |h|
    && Stored(h[t.published], link) && Stored(h[t.histories[link.entry]], link)
    && PublishedRow(h[t.published], link) == PublishedRow(h[t.histories[link.entry]], link)
  }

  ghost predicate Unmoved(h: seq<Store>, r: Records, t: Times) {
    forall k {:trigger r.published[k]} :: 0 <= k < |r.published| ==> RowUnmoved(h, t, r.published[k].link)
  }

  /** One published row, as listed and as its entry's history was read. */
  lemma {:induction false} RowRead(h: seq<Store>, r: Records, t: Times, k: nat)
    requires Collected(h, r, t) && k < |r.published|
    ensures var link := r.published[k].link;
            && link.entry in t.histories && t.published <= t.histories[link.entry] < |h|
            && Stored(h[t.published], link) && r.published[k] == PublishedRow(h[t.published], link)
            && link.entry in r.histories && link.entry in h[t.histories[link.entry]].entries
            && r.histories[link.entry] == HistoryOf(h[t.histories[link.entry]], link.entry)
  {
    var e := r.published[k].link.entry;
    assert e in EntriesOf(r.published);
    assert EntryTimesOk(h, t, e) && EntryRead(h, r, t, e);
    ListedRow(h[t.published], k);
  }

  lemma {:induction false} ListedRow(s: Store, k: nat)
    requires WellFormed(s) && k < |PublishedOf(s)|
    ensures var link := PublishedOf(s)[k].link; Stored(s, link) && PublishedOf(s)[k] == PublishedRow(s, link)
  {
  }

  /** The same over what happened: accepted records are the state of one instant inside the call if
      and only if no write changed a published revision's standing between the two reads of it. */
  lemma {:induction false} AtomicIffUnmoved(h: seq<Store>, r: Records, t: Times)
    requires Collected(h, r, t) && Stable(h, r, t)
    ensures (exists k :: t.view <= k <= t.second && r == Snapshot(h[k])) <==> Unmoved(h, r, t)
  {
    AtomicIffAgreeing(h, r, t);
    AgreeingIsUnmoved(h, r, t);
  }

  lemma {:induction false} AgreeingIsUnmoved(h: seq<Store>, r: Records, t: Times)
    requires Collected(h, r, t)
    ensures StandingsAgree(r) <==> Unmoved(h, r, t)
  {
    forall k | 0 <= k < |r.published| ensures RowAgrees(r, r.published[k]) <==> RowUnmoved(h, t, r.published[k].link) {
      RowRead(h, r, t, k);
    }
  }

  /** This entry was not written between the two reads of it. */
  ghost predicate EntryUnwritten(h: seq<Store>, t: Times, e: EntryId) {
    && e in t.histories && t.published < |h| && t.histories[e] < |h|
    && e in h[t.published].entries && e in h[t.histories[e]].entries
    && h[t.published].entries[e].generation == h[t.histories[e]].entries[e].generation
  }

  /** It is enough that no published entry was written in that stretch. */
  lemma {:induction false} QuietIsAtomic(h: seq<Store>, r: Records, t: Times)
    requires Collected(h, r, t) && Stable(h, r, t)
    requires forall k {:trigger r.published[k]} :: 0 <= k < |r.published| ==> EntryUnwritten(h, t, r.published[k].link.entry)
    ensures exists k :: t.view <= k <= t.second && r == Snapshot(h[k])
  {
    AtomicIffUnmoved(h, r, t);
    forall k | 0 <= k < |r.published| ensures RowUnmoved(h, t, r.published[k].link) {
      RowRead(h, r, t, k);
      UnwrittenIsUnmoved(h, t, r.published[k].link);
    }
  }

  lemma {:induction false} UnwrittenIsUnmoved(h: seq<Store>, t: Times, link: Link)
    requires ValidHistory(h) && EntryUnwritten(h, t, link.entry) && t.published <= t.histories[link.entry]
    requires Stored(h[t.published], link)
    ensures RowUnmoved(h, t, link)
  {
    EvolvesOver(h, t.published, t.histories[link.entry]);
  }

  // ------------------------------------------------ a torn read

  /** One published, active revision; then it is revoked. */
  function TornStart(): Store {
    Store(Some(Postmortem(7, 1, 0, [Link(0, 1, 0)], [9])), map[0 := Entry(1, [Revision(1, 5, Active)], [9])])
  }

  function TornEnd(): Store { Revoke(TornStart(), 0, 1, 10) }

  /** The published rows are listed before the revocation, everything else is read after it. */
  function TornTimes(): Times {
    Times(0, 0, map[0 := 1], map[0 := 1], 1, map[0 := 1], 1, map[0 := 1])
  }

  ghost function TornRead(): Records
    requires WellFormed(TornStart())
  {
    Records(ViewOf(TornStart()), PublishedOf(TornStart()), map[0 := HistoryOf(TornEnd(), 0)],
            map[0 := ActiveOf(TornEnd(), 0)], PostmortemAudit(TornEnd()), map[0 := TornEnd().entries[0].audit])
  }

  lemma {:induction false} TornHistory()
    ensures ValidHistory([TornStart(), TornEnd()])
    ensures TornEnd().entries[0].revisions == [Revision(1, 5, Revoked)]
  {
    assert TornStart().entries[0].revisions[0].number == 1;
    assert HasRevision(TornStart().entries[0], 1);
    ActionsEvolve(TornStart(), Withdraw(0, 1, 10));
  }

  lemma {:induction false} TornPublished()
    requires WellFormed(TornStart())
    ensures PublishedOf(TornStart()) == [Published(Link(0, 1, 0), Active)]
    ensures EntriesOf(PublishedOf(TornStart())) == {0}
  {
    assert TornStart().postmortem.value.links[0] == Link(0, 1, 0);
    assert PublishedOf(TornStart())[0] == PublishedRow(TornStart(), Link(0, 1, 0));
  }

  /** A revocation between the listing of the published rows and the reading of the entry's history
      is accepted, and the records then hold at no instant: the row still says active. */
  lemma {:induction false} TornReadAccepted()
    ensures var h := [TornStart(), TornEnd()];
            && WellFormed(h[0]) && WellFormed(h[1])
            && Collected(h, TornRead(), TornTimes()) && Stable(h, TornRead(), TornTimes())
            && TornRead() != Snapshot(h[0]) && TornRead() != Snapshot(h[1])
  {
    TornHistory();
    var h := [TornStart(), TornEnd()];
    assert WellFormed(h[0]) && WellFormed(h[1]);
    TornPublished();
    var r := TornRead();
    assert EntryTimesOk(h, TornTimes(), 0) && EntryRead(h, r, TornTimes(), 0);
    assert Collected(h, r, TornTimes());
    assert r.published[0].standing != StandingIn(r.histories[0].revisions, 1);
    SnapshotAgrees(h[0]);
    SnapshotAgrees(h[1]);
  }

  // ------------------------------------------------ the reading loop

  /** Each id was read once, at a time between `lo` and `hi`. */
  ghost predicate ReadBetween(h: seq<Store>, ids: set<EntryId>, at: map<EntryId, nat>, lo: nat, hi: nat) {
    ids == at.Keys && hi < |h| && forall e {:trigger at[e]} :: e in ids ==> lo <= at[e] <= hi && e in h[at[e]].entries
  }

  ghost predicate HistoriesRead(h: seq<Store>, read: map<EntryId, HistoryView>, at: map<EntryId, nat>, lo: nat, hi: nat) {
    && ReadBetween(h, read.Keys, at, lo, hi)
    && forall e {:trigger read[e]} :: e in read ==> e in h[at[e]].entries && read[e] == HistoryOf(h[at[e]], e)
  }

  ghost predicate ActiveRead(h: seq<Store>, read: map<EntryId, set<Revision>>, at: map<EntryId, nat>, lo: nat, hi: nat) {
    && ReadBetween(h, read.Keys, at, lo, hi)
    && forall e {:trigger read[e]} :: e in read ==> e in h[at[e]].entries && read[e] == ActiveOf(h[at[e]], e)
  }

  ghost predicate AuditsRead(h: seq<Store>, read: map<EntryId, seq<nat>>, at: map<EntryId, nat>, lo: nat, hi: nat) {
    && ReadBetween(h, read.Keys, at, lo, hi)
    && forall e {:trigger read[e]} :: e in read ==> e in h[at[e]].entries && read[e] == h[at[e]].entries[e].audit
  }

  /** One entry's parts were all read in time. */
  ghost predicate EntryGathered(h: seq<Store>, r: Records, t: Times, upto: nat, e: EntryId) {
    && e in t.histories && e in t.active && e in t.entryAudits && upto < |h|
    && t.published <= t.histories[e] <= t.active[e] <= upto && t.histories[e] <= t.entryAudits[e] <= upto
    && e in h[t.histories[e]].entries && e in h[t.active[e]].entries && e in h[t.entryAudits[e]].entries
    && e in r.histories && r.histories[e] == HistoryOf(h[t.histories[e]], e)
    && e in r.active && r.active[e] == ActiveOf(h[t.active[e]], e)
    && e in r.entryAudits && r.entryAudits[e] == h[t.entryAudits[e]].entries[e].audit
  }

  /** The first half of a pass: everything read by the instant `upto`. */
  ghost predicate Gathered(h: seq<Store>, r: Records, t: Times, upto: nat) {
    var ids := EntriesOf(r.published);
    && ValidHistory(h) && t.view <= t.published <= upto < |h| && t.published <= t.audit <= upto
    && r.view == ViewOf(h[t.view]) && r.audit == PostmortemAudit(h[t.audit])
    && r.published == (if r.view.None? then [] else PublishedOf(h[t.published]))
    && (r.view.None? ==> r.audit == [])
    && r.histories.Keys == ids && r.active.Keys == ids && r.entryAudits.Keys == ids
    && forall e {:trigger r.histories[e]} :: e in ids ==> EntryGathered(h, r, t, upto, e)
  }

  /** Times of the second look at the entries, each after the second view read. */
  ghost predicate CheckedAt(h: seq<Store>, second: nat, ids: set<EntryId>, checks: map<EntryId, nat>) {
    ids == checks.Keys && forall e {:trigger checks[e]} :: e in ids ==> second <= checks[e] < |h|
  }

  lemma {:induction false} GatheredIsCollected(h: seq<Store>, r: Records, t: Times, upto: nat, second: nat, checks: map<EntryId, nat>)
    requires Gathered(h, r, t, upto) && upto <= second < |h| && CheckedAt(h, second, EntriesOf(r.published), checks)
    ensures Collected(h, r, t.(second := second, checks := checks))
  {
    var t' := t.(second := second, checks := checks);
    var ids := EntriesOf(r.published);
    forall e | e in ids ensures EntryTimesOk(h, t', e) && EntryRead(h, r, t', e) {
      assert EntryGathered(h, r, t, upto, e);
      assert second <= checks[e];
    }
  }

  datatype Outcome = Read(records: Records) | Unstable

  /** Reads of a store that other writers may move before every single read. */
  class Reader {
    const history: seq<Store>   // the states the store goes through
    var now: nat                // which of them the next read would see

    ghost predicate Valid() reads this { ValidHistory(history) && now < |history| }

    constructor (history: seq<Store>)
      requires ValidHistory(history)
      ensures Valid() && this.history == history && now == 0
    {
      this.history, now := history, 0;
    }

    /** Any number of writes by others. */
    method Elapse()
      requires Valid()
      modifies this`now
      ensures Valid() && old(now) <= now
    {
      var t :| now <= t < |history|;
      now := t;
    }

    method ReadHistories(ids: set<EntryId>) returns (read: map<EntryId, HistoryView>, ghost at: map<EntryId, nat>)
      requires Valid() && ids <= history[now].entries.Keys
      modifies this`now
      ensures Valid() && old(now) <= now && read.Keys == ids && HistoriesRead(history, read, at, old(now), now)
    {
      read, at := map[], map[];
      var todo := ids;
      while todo != {}
        invariant Valid() && old(now) <= now && todo <= ids
        invariant read.Keys == ids - todo && HistoriesRead(history, read, at, old(now), now)
        decreases todo
      {
        var e :| e in todo;
        Elapse();
        EvolvesOver(history, old(now), now);
        read, at := read[e := HistoryOf(history[now], e)], at[e := now];
        todo := todo - {e};
      }
    }

    method ReadActive(ids: set<EntryId>) returns (read: map<EntryId, set<Revision>>, ghost at: map<EntryId, nat>)
      requires Valid() && ids <= history[now].entries.Keys
      modifies this`now
      ensures Valid() && old(now) <= now && read.Keys == ids && ActiveRead(history, read, at, old(now), now)
    {
      read, at := map[], map[];
      var todo := ids;
      while todo != {}
        invariant Valid() && old(now) <= now && todo <= ids
        invariant read.Keys == ids - todo && ActiveRead(history, read, at, old(now), now)
        decreases todo
      {
        var e :| e in todo;
        Elapse();
        EvolvesOver(history, old(now), now);
        read, at := read[e := ActiveOf(history[now], e)], at[e := now];
        todo := todo - {e};
      }
    }

    method ReadAudits(ids: set<EntryId>) returns (read: map<EntryId, seq<nat>>, ghost at: map<EntryId, nat>)
      requires Valid() && ids <= history[now].entries.Keys
      modifies this`now
      ensures Valid() && old(now) <= now && read.Keys == ids && AuditsRead(history, read, at, old(now), now)
    {
      read, at := map[], map[];
      var todo := ids;
      while todo != {}
        invariant Valid() && old(now) <= now && todo <= ids
        invariant read.Keys == ids - todo && AuditsRead(history, read, at, old(now), now)
        decreases todo
      {
        var e :| e in todo;
        Elapse();
        EvolvesOver(history, old(now), now);
        read, at := read[e := history[now].entries[e].audit], at[e := now];
        todo := todo - {e};
      }
    }
  
    /** `knowledge_from_postmortem`, one consistent query. */
    method ReadPublished() returns (rows: seq<Published>)
      requires Valid()
      ensures rows == PublishedOf(history[now])
    {
      var s := history[now];
      rows := [];
      if s.postmortem.Some? {
        var links := s.postmortem.value.links;
        for k := 0 to |links|
          invariant |rows| == k && forall j :: 0 <= j < k ==> rows[j] == PublishedOf(s)[j]
        {
          rows := rows + [PublishedRow(s, links[k])];
        }
      }
    }

    /** `_read_once`: every part of the records, one read after another. */
    method ReadOnce() returns (r: Records, ghost t: Times)
      requires Valid()
      modifies this`now
      ensures Valid() && old(now) <= t.view <= now
      ensures Gathered(history, r, t, now)
    {
      Elapse();
      var view := ViewOf(history[now]);
      ghost var tv := now;
      if view.None? {
        r := Records(view, [], map[], map[], [], map[]);
        t := Times(tv, tv, map[], map[], tv, map[], tv, map[]);
        return;
      }
      r, t := ReadParts(view);
    }

    /** The reads that follow a view with a postmortem. */
    method ReadParts(view: Option<View>) returns (r: Records, ghost t: Times)
      requires Valid() && view.Some? && view == ViewOf(history[now])
      modifies this`now
      ensures Valid() && t.view == old(now) && old(now) <= now
      ensures Gathered(history, r, t, now)
    {
      ghost var tv := now;
      Elapse();
      EvolvesOver(history, tv, now);
      var published := ReadPublished();
      ghost var tp := now;
      var ids := EntriesOf(published);
      PublishedKnown(history[tp]);
      var histories, th := ReadHistories(ids);
      EvolvesOver(history, tp, now);
      ghost var m := now;
      var active, ta := ReadActive(ids);
      ghost var n := now;
      Elapse();
      EvolvesOver(history, tp, now);
      var audit := history[now].postmortem.value.audit;
      ghost var tu := now;
      var audits, tea := ReadAudits(ids);
      r := Records(view, published, histories, active, audit, audits);
      t := Times(tv, tp, th, ta, tu, tea, 0, map[]);
      ActiveLater(history, active, ta, m, n, now);
      AuditsEarlier(history, audits, tea, m, tu, now);
      Assembled(history, r, t, th, ta, tea, m, now);
    }
  
    /** `_generations` compared with what the records hold: the second look. */
    method Recheck(r: Records, ghost t: Times, ghost upto: nat) returns (same: bool, ghost t': Times)
      requires Valid() && Gathered(history, r, t, upto) && upto <= now
      modifies this`now
      ensures Valid() && old(now) <= now && t'.view == t.view && t'.second <= now
      ensures Collected(history, r, t')
      ensures same <==> Stable(history, r, t')
      ensures forall e {:trigger t'.checks[e]} :: e in t'.checks ==> t'.checks[e] <= now
    {
      Elapse();
      var generation := Generation(history[now]);
      ghost var second := now;
      EntriesPersist(history, r, t, upto, now);
      var ids := r.histories.Keys;
      var current, checks := ReadHistories(ids);
      same := generation == (if r.view.None? then None else Some(r.view.value.generation))
              && SameGenerations(current, r.histories);
      GatheredIsCollected(history, r, t, upto, second, checks);
      t' := t.(second := second, checks := checks);
      StableMeansSame(history, r, t', current);
    }

    /** `postmortem_records`. An accepted result is everything but the published standings at one
        instant of the call, and all of it exactly when the standings agree with the histories;
        a refusal used up every attempt, and only a moving store can cause one. */
    method PostmortemRecords(attempts: nat) returns (out: Outcome, tries: nat)
      requires Valid()
      modifies this`now
      ensures Valid() && old(now) <= now
      ensures out.Read? ==> 1 <= tries <= attempts && AtSomeInstant(history, old(now), now, out.records)
      ensures out.Read? ==> (StandingsAgree(out.records) <==> IsSomeSnapshot(history, old(now), now, out.records))
      ensures out.Unstable? ==> tries == attempts && (attempts > 0 ==> Moved(history, old(now), now))
    {
      tries := 0;
      while tries < attempts
        invariant Valid() && old(now) <= now && tries <= attempts
        invariant tries > 0 ==> Moved(history, old(now), now)
      {
        var r, t := ReadOnce();
        var same, t' := Recheck(r, t, now);
        tries := tries + 1;
        if same {
          AcceptedAtInstant(history, r, t', old(now), now);
          return Read(r), tries;
        }
        RefusedMoved(history, r, t', old(now), now);
      }
      out := Unstable;
    }
  }

  ghost predicate AtSomeInstant(h: seq<Store>, lo: nat, hi: nat, r: Records)
    requires ValidHistory(h) && hi < |h|
  {
    exists k :: lo <= k <= hi && AtInstant(r, h[k])
  }

  ghost predicate IsSomeSnapshot(h: seq<Store>, lo: nat, hi: nat, r: Records)
    requires ValidHistory(h) && hi < |h|
  {
    exists k :: lo <= k <= hi && r == Snapshot(h[k])
  }

  /** Some write happened in the stretch. */
  ghost predicate Moved(h: seq<Store>, lo: nat, hi: nat)
    requires hi < |h|
  {
    exists a, b :: lo <= a <= b <= hi && h[a] != h[b]
  }

  lemma {:induction false} EntriesPersist(h: seq<Store>, r: Records, t: Times, upto: nat, later: nat)
    requires Gathered(h, r, t, upto) && upto <= later < |h|
    ensures r.histories.Keys <= h[later].entries.Keys
  {
    forall e | e in r.histories ensures e in h[later].entries {
      assert EntryGathered(h, r, t, upto, e);
      EvolvesOver(h, t.histories[e], later);
    }
  }

  predicate SameGenerations(current: map<EntryId, HistoryView>, held: map<EntryId, HistoryView>)
    requires current.Keys == held.Keys
  {
    forall e {:trigger current[e]} :: e in held ==> current[e].generation == held[e].generation
  }

  lemma {:induction false} CheckedEntry(h: seq<Store>, r: Records, t: Times, current: map<EntryId, HistoryView>, e: EntryId)
    requires Collected(h, r, t) && HistoriesRead(h, current, t.checks, t.second, |h| - 1)
    requires current.Keys == r.histories.Keys && e in r.histories
    ensures EntryTimesOk(h, t, e) && e in h[t.checks[e]].entries && h[t.checks[e]].entries[e].generation == current[e].generation
  {
    assert EntryRead(h, r, t, e);
    assert current[e] == HistoryOf(h[t.checks[e]], e);
  }

  lemma {:induction false} StableMeansSame(h: seq<Store>, r: Records, t: Times, current: map<EntryId, HistoryView>)
    requires Collected(h, r, t) && HistoriesRead(h, current, t.checks, t.second, |h| - 1) && current.Keys == r.histories.Keys
    ensures Stable(h, r, t) <==>
              && Generation(h[t.second]) == (if r.view.None? then None else Some(r.view.value.generation))
              && SameGenerations(current, r.histories)
  {
    if Stable(h, r, t) {
      forall e | e in r.histories ensures current[e].generation == r.histories[e].generation {
        CheckedEntry(h, r, t, current, e);
        assert GenerationHeld(h, r, t, e);
      }
    }
    if SameGenerations(current, r.histories) {
      forall e | e in r.histories ensures GenerationHeld(h, r, t, e) {
        CheckedEntry(h, r, t, current, e);
      }
    }
  }

  lemma {:induction false} AcceptedAtInstant(h: seq<Store>, r: Records, t: Times, lo: nat, hi: nat)
    requires Collected(h, r, t) && Stable(h, r, t) && lo <= t.view && t.second <= hi < |h|
    ensures AtSomeInstant(h, lo, hi, r)
    ensures StandingsAgree(r) <==> IsSomeSnapshot(h, lo, hi, r)
  {
    StableIsInstant(h, r, t);
    AgreementDecides(r, h[t.second]);
    if k :| lo <= k <= hi && r == Snapshot(h[k]) {
      SnapshotAgrees(h[k]);
    }
  }

  /** A refused pass has seen a generation move, so the store was written meanwhile. */
  lemma {:induction false} RefusedMoved(h: seq<Store>, r: Records, t: Times, lo: nat, hi: nat)
    requires Collected(h, r, t) && !Stable(h, r, t) && lo <= t.view && t.second <= hi < |h|
    requires forall e {:trigger t.checks[e]} :: e in t.checks ==> t.checks[e] <= hi
    ensures Moved(h, lo, hi)
  {
    if Generation(h[t.second]) != (if r.view.None? then None else Some(r.view.value.generation)) {
      MovedAt(h, lo, hi, t.view, t.second);
    } else {
      var e :| e in r.histories && !GenerationHeld(h, r, t, e);
      EntryMoved(h, r, t, e);
      MovedAt(h, lo, hi, t.histories[e], t.checks[e]);
    }
  }

  lemma {:induction false} MovedAt(h: seq<Store>, lo: nat, hi: nat, a: nat, b: nat)
    requires lo <= a <= b <= hi < |h| && h[a] != h[b]
    ensures Moved(h, lo, hi)
  {
  }

  lemma {:induction false} EntryMoved(h: seq<Store>, r: Records, t: Times, e: EntryId)
    requires Collected(h, r, t) && e in r.histories && !GenerationHeld(h, r, t, e)
    ensures EntryTimesOk(h, t, e) && h[t.histories[e]] != h[t.checks[e]]
  {
    assert EntryRead(h, r, t, e);
    EvolvesOver(h, t.histories[e], t.checks[e]);
  }

  lemma {:induction false} ActiveLater(h: seq<Store>, read: map<EntryId, set<Revision>>, at: map<EntryId, nat>,
                                       lo: nat, hi: nat, later: nat)
    requires ActiveRead(h, read, at, lo, hi) && hi <= later < |h|
    ensures ActiveRead(h, read, at, lo, later)
  {
  }

  lemma {:induction false} AuditsEarlier(h: seq<Store>, read: map<EntryId, seq<nat>>, at: map<EntryId, nat>, earlier: nat, lo: nat, hi: nat)
    requires AuditsRead(h, read, at, lo, hi) && earlier <= lo
    ensures AuditsRead(h, read, at, earlier, hi)
  {
  }

  lemma {:induction false} Assembled(h: seq<Store>, r: Records, t: Times,
                                     th: map<EntryId, nat>, ta: map<EntryId, nat>, tea: map<EntryId, nat>, m: nat, upto: nat)
    requires ValidHistory(h) && t.view <= t.published <= t.audit <= upto < |h|
    requires r.view.Some? && r.view == ViewOf(h[t.view])
    requires r.published == PublishedOf(h[t.published]) && r.audit == PostmortemAudit(h[t.audit])
    requires th == t.histories && ta == t.active && tea == t.entryAudits
    requires m <= upto && HistoriesRead(h, r.histories, th, t.published, m)
                              && ActiveRead(h, r.active, ta, m, upto) && AuditsRead(h, r.entryAudits, tea, m, upto)
    requires r.histories.Keys == r.active.Keys == r.entryAudits.Keys == EntriesOf(r.published)
    ensures Gathered(h, r, t, upto)
  {
    forall e | e in EntriesOf(r.published) ensures EntryGathered(h, r, t, upto, e) {
      assert th[e] <= m <= ta[e] && m <= tea[e];
      assert r.histories[e] == HistoryOf(h[th[e]], e) && r.active[e] == ActiveOf(h[ta[e]], e);
      assert r.entryAudits[e] == h[tea[e]].entries[e].audit;
    }
  }

  lemma {:induction false} PublishedKnown(s: Store)
    requires WellFormed(s)
    ensures EntriesOf(PublishedOf(s)) <= s.entries.Keys
  {
  }
}
