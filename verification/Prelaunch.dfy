/**
 The life of a prelaunch candidate over any number of reconciliations.  Models
 persist_samsung_reconciliation of intelligence/samsung.py.
 */
module Prelaunch {
  import opened Common
  import opened Models
  import opened Ordering
  import opened Samsung

  datatype CandidateState = GlobalUnknownSupportModel | KnownGloballySupportFirstInRegion | AmbiguousOfficialIdentifier
                          | CommerciallyConfirmed

  datatype Candidate = Candidate(
    baseModel: Option<string>, regionalSku: Option<string>, region: string, supportUrl: Option<string>,
    firstSeen: Instant, lastSeen: Instant, evidence: seq<string>, state: CandidateState,
    matched: Option<string>, catalogueFirstSeen: Option<Instant>, onboardingBaseline: bool)

  datatype EventKind = SupportModelFirstSeen | SupportRegionalSkuFirstSeen | SupportBeforeProduct

  datatype CandidateEvent = CandidateEvent(key: string, kind: EventKind, at: Instant, relationship: Relationship)

  datatype RunEntry = RunEntry(at: Instant, baseline: bool, regions: seq<string>)

  datatype Tables = Tables(
    runs: seq<RunEntry>, records: seq<seq<Record>>, onboarding: map<string, Instant>,
    candidates: map<string, Candidate>, events: seq<CandidateEvent>)

  const EMPTY_TABLES := Tables([], [], map[], map[], [])

  // ---------------------------------------------------------------- one record

  /** The record names a support page and a SKU: it can open or move a candidate. */
  predicate Relevant(r: Record) {
    Truthy(r.supportIdentity) && Truthy(r.regionalSku)
  }

  function CandidateKey(r: Record): string {
    r.region + ":" + Text(r.regionalSku)
  }

  function StateFor(r: Relationship): CandidateState {
    match r
    case SupportOnlyBaseModel => GlobalUnknownSupportModel
    case SupportOnlyRegionalSku => KnownGloballySupportFirstInRegion
    case AmbiguousSupportOnly => AmbiguousOfficialIdentifier
    case CatalogueAndSupport => CommerciallyConfirmed
    case CatalogueOnly => CommerciallyConfirmed
  }

  function FirstSeenKind(s: CandidateState): EventKind {
    if s == GlobalUnknownSupportModel then SupportModelFirstSeen else SupportRegionalSkuFirstSeen
  }

  /** The row the INSERT proposes when the key is new. */
  function Opening(r: Record, now: Instant, onboarding: bool): Candidate {
    var state := StateFor(r.relationship);
    Candidate(r.baseModel, r.regionalSku, r.region, r.supportUrl,
              if r.supportObservedAt.Some? then r.supportObservedAt.value else now, now, r.evidence, state,
              if Truthy(r.productIdentity) then r.productIdentity else None,
              if state == CommerciallyConfirmed then Some(now) else None, onboarding)
  }

  /** The row ON CONFLICT leaves when it is not. */
  function Moved(c: Candidate, r: Record, now: Instant): Candidate {
    var state := StateFor(r.relationship);
    c.(lastSeen := now, state := state, matched := if Truthy(r.productIdentity) then r.productIdentity else None,
       catalogueFirstSeen := if c.catalogueFirstSeen.Some? then c.catalogueFirstSeen
                             else if state == CommerciallyConfirmed then Some(now) else None)
  }

  function MoveEvents(c: Candidate, key: string, r: Record, now: Instant): seq<CandidateEvent> {
    if c.state != StateFor(r.relationship) && StateFor(r.relationship) == CommerciallyConfirmed
    then [CandidateEvent(key, SupportBeforeProduct, now, r.relationship)] else []
  }

  function OpenEvents(key: string, r: Record, now: Instant, onboarding: bool): seq<CandidateEvent> {
    if !onboarding && StateFor(r.relationship) != CommerciallyConfirmed
    then [CandidateEvent(key, FirstSeenKind(StateFor(r.relationship)), now, r.relationship)] else []
  }

  function Upsert(t: Tables, r: Record, now: Instant, baseline: bool, joining: set<string>): Tables {
    var key := CandidateKey(r);
    if !Relevant(r) || (r.relationship == CatalogueAndSupport && key !in t.candidates) then t
    else if key in t.candidates then
      t.(candidates := t.candidates[key := Moved(t.candidates[key], r, now)],
         events := t.events + MoveEvents(t.candidates[key], key, r, now))
    else
      t.(candidates := t.candidates[key := Opening(r, now, baseline || r.region in joining)],
         events := t.events + OpenEvents(key, r, now, baseline || r.region in joining))
  }

  function UpsertAll(t: Tables, records: seq<Record>, now: Instant, baseline: bool, joining: set<string>): Tables {
    if records == [] then t
    else Upsert(UpsertAll(t, records[..|records| - 1], now, baseline, joining), records[|records| - 1], now, baseline, joining)
  }

  // ---------------------------------------------------------------- one reconciliation

  function SupportRegions(records: seq<Record>): set<string> {
    set r | r in records && Truthy(r.supportIdentity) :: r.region
  }

  function Onboard(onboarding: map<string, Instant>, joining: set<string>, now: Instant): map<string, Instant> {
    map region | region in onboarding.Keys + joining :: if region in onboarding then onboarding[region] else now
  }

  /** What a reconciliation makes of the tables before its first record. */
  function Begun(t: Tables, records: seq<Record>, now: Instant): Tables {
    var joining := SupportRegions(records) - t.onboarding.Keys;
    Tables(t.runs + [RunEntry(now, t.runs == [], SortedKeys(SupportRegions(records)))], t.records + [records],
           Onboard(t.onboarding, joining, now), t.candidates, t.events)
  }

  function Persist(t: Tables, records: seq<Record>, now: Instant): Tables {
    UpsertAll(Begun(t, records, now), records, now, t.runs == [], SupportRegions(records) - t.onboarding.Keys)
  }

  datatype Summary = Summary(runId: nat, baseline: bool, newRegions: seq<string>, events: nat, relationships: nat)

  /** The store's tables for Samsung. */
  class SamsungStore {
    var runs: seq<RunEntry>
    var records: seq<seq<Record>>
    var onboarding: map<string, Instant>
    var candidates: map<string, Candidate>
    var events: seq<CandidateEvent>

    constructor ()
      ensures Contents() == EMPTY_TABLES
    {
      runs, records, onboarding, candidates, events := [], [], map[], map[], [];
    }

    function Contents(): Tables
      reads this
    {
      Tables(runs, records, onboarding, candidates, events)
    }

    method PersistSamsungReconciliation(items: seq<Record>, now: Instant) returns (summary: Summary)
      modifies this
      ensures Contents() == Persist(old(Contents()), items, now)
      ensures |old(events)| <= |events|
      ensures summary == Summary(|old(runs)|, old(runs) == [], SortedKeys(SupportRegions(items) - old(onboarding).Keys),
                                 |events| - |old(events)|, |items|)
    {
      var baseline, regions := runs == [], SupportRegions(items);
      var joining := regions - onboarding.Keys;
      var added: nat := 0;
      onboarding := Onboard(onboarding, joining, now);
      runs := runs + [RunEntry(now, baseline, SortedKeys(regions))];
      records := records + [items];
      ghost var begun := Contents();
      for i := 0 to |items|
        invariant Contents() == UpsertAll(begun, items[..i], now, baseline, joining)
        invariant added + |old(events)| == |events| && |runs| == |old(runs)| + 1
      {
        NextUpsert(begun, items, i, now, baseline, joining);
        var item := items[i];
        if !Relevant(item) { continue; }
        var key := CandidateKey(item);
        if item.relationship == CatalogueAndSupport && key !in candidates { continue; }
        var pending: seq<CandidateEvent>;
        if key in candidates {
          pending := MoveEvents(candidates[key], key, item, now);
          candidates := candidates[key := Moved(candidates[key], item, now)];
        } else {
          pending := OpenEvents(key, item, now, baseline || item.region in joining);
          candidates := candidates[key := Opening(item, now, baseline || item.region in joining)];
        }
        events := events + pending;
        added := added + |pending|;
      }
      assert items[..|items|] == items;
      summary := Summary(|runs| - 1, baseline, SortedKeys(joining), added, |items|);
    }
  }

  lemma NextUpsert(t: Tables, items: seq<Record>, i: nat, now: Instant, baseline: bool, joining: set<string>)
    requires i < |items|
    ensures UpsertAll(t, items[..i + 1], now, baseline, joining) ==
            Upsert(UpsertAll(t, items[..i], now, baseline, joining), items[i], now, baseline, joining)
  {
    assert items[..i + 1][..i] == items[..i];
  }

  // ---------------------------------------------------------------- many reconciliations

  datatype Reconciliation = Reconciliation(records: seq<Record>, at: Instant)

  function Persisted(history: seq<Reconciliation>): Tables {
    if history == [] then EMPTY_TABLES
    else
      var last := history[|history| - 1];
      Persist(Persisted(history[..|history| - 1]), last.records, last.at)
  }

  /** The regions whose support pages have been reconciled before. */
  function Onboarded(history: seq<Reconciliation>): set<string> {
    if history == [] then {}
    else Onboarded(history[..|history| - 1]) + SupportRegions(history[|history| - 1].records)
  }

  /** One relevant record of a candidate: when it came, and whether its region was new then. */
  datatype Touch = Touch(record: Record, at: Instant, newRegion: bool)

  function TouchesIn(records: seq<Record>, at: Instant, joining: set<string>, key: string): seq<Touch> {
    if records == [] then []
    else
      var r := records[|records| - 1];
      TouchesIn(records[..|records| - 1], at, joining, key) +
      if Relevant(r) && CandidateKey(r) == key then [Touch(r, at, r.region in joining)] else []
  }

  /** Everything that ever touched the candidate, read off the reconciliations alone. */
  function Touches(history: seq<Reconciliation>, key: string): seq<Touch> {
    if history == [] then []
    else
      var front, last := history[..|history| - 1], history[|history| - 1];
      Touches(front, key) + TouchesIn(last.records, last.at, SupportRegions(last.records) - Onboarded(front), key)
  }

  /** A candidate's life starts at the first touch that is not already in the catalogue. */
  function Living(ts: seq<Touch>): (living: seq<Touch>)
    ensures |living| <= |ts|
    ensures living != [] ==> living[0].record.relationship != CatalogueAndSupport
  {
    if ts == [] then []
    else
      var before, last := Living(ts[..|ts| - 1]), ts[|ts| - 1];
      if before == [] && last.record.relationship == CatalogueAndSupport then [] else before + [last]
  }

  function StateOf(x: Touch): CandidateState {
    StateFor(x.record.relationship)
  }

  function FirstConfirmed(ts: seq<Touch>): Option<Instant> {
    if ts == [] then None
    else
      var before := FirstConfirmed(ts[..|ts| - 1]);
      if before.Some? then before
      else if StateOf(ts[|ts| - 1]) == CommerciallyConfirmed then Some(ts[|ts| - 1].at) else None
  }

  /** The candidate in closed form: what it was at its first touch, where it stands since the last, and
      when it was first confirmed. */
  function Lifecycle(ts: seq<Touch>): Option<Candidate> {
    if ts == [] then None
    else
      var first, last := ts[0], ts[|ts| - 1];
      Some(Candidate(
        first.record.baseModel, first.record.regionalSku, first.record.region, first.record.supportUrl,
        if first.record.supportObservedAt.Some? then first.record.supportObservedAt.value else first.at, last.at,
        first.record.evidence, StateOf(last),
        if Truthy(last.record.productIdentity) then last.record.productIdentity else None,
        FirstConfirmed(ts), first.newRegion))
  }

  function Turn(before: Touch, after: Touch, key: string): seq<CandidateEvent> {
    if StateOf(before) != CommerciallyConfirmed && StateOf(after) == CommerciallyConfirmed
    then [CandidateEvent(key, SupportBeforeProduct, after.at, after.record.relationship)] else []
  }

  /** Its events in closed form: one when it opens in a known region, one at each move into confirmation. */
  function Announced(ts: seq<Touch>, key: string): seq<CandidateEvent> {
    if ts == [] then []
    else
      var last := ts[|ts| - 1];
      Announced(ts[..|ts| - 1], key) +
      if |ts| == 1 then OpenEvents(key, last.record, last.at, last.newRegion) else Turn(ts[|ts| - 2], last, key)
  }

  function Look(t: Tables, key: string): Option<Candidate> {
    if key in t.candidates then Some(t.candidates[key]) else None
  }

  function About(key: string): CandidateEvent -> bool {
    (e: CandidateEvent) => e.key == key
  }

  /** The tables say of this candidate what its touches say. */
  ghost predicate Told(t: Tables, key: string, ts: seq<Touch>) {
    && Look(t, key) == Lifecycle(Living(ts))
    && Filter(t.events, About(key)) == Announced(Living(ts), key)
  }

  lemma LivingNext(ts: seq<Touch>, x: Touch)
    ensures Living(ts + [x]) ==
            if Living(ts) == [] && x.record.relationship == CatalogueAndSupport then [] else Living(ts) + [x]
  {
    assert (ts + [x])[..|ts|] == ts;
  }

  lemma LifecycleNext(ts: seq<Touch>, x: Touch)
    ensures FirstConfirmed(ts + [x]) ==
            if FirstConfirmed(ts).Some? then FirstConfirmed(ts)
            else if StateOf(x) == CommerciallyConfirmed then Some(x.at) else None
    ensures ts != [] ==> Lifecycle(ts + [x]) == Some(Moved(Lifecycle(ts).value, x.record, x.at))
    ensures ts == [] ==> Lifecycle(ts + [x]) == Some(Opening(x.record, x.at, x.newRegion))
  {
    assert (ts + [x])[..|ts|] == ts;
  }

  lemma AnnouncedNext(ts: seq<Touch>, x: Touch, key: string)
    ensures Announced(ts + [x], key) ==
            Announced(ts, key) +
            if ts == [] then OpenEvents(key, x.record, x.at, x.newRegion)
            else MoveEvents(Lifecycle(ts).value, key, x.record, x.at)
  {
    assert (ts + [x])[..|ts|] == ts;
  }

  lemma EventsNext(events: seq<CandidateEvent>, more: seq<CandidateEvent>, key: string, other: string)
    requires |more| <= 1 && forall i :: 0 <= i < |more| ==> more[i].key == key
    ensures Filter(events + more, About(other)) == Filter(events, About(other)) + if other == key then more else []
  {
    if more == [] {
      assert events + more == events;
    } else {
      assert more == [more[0]];
      FilterAppend(events, more[0], About(other));
    }
  }

  lemma UpsertMoves(t: Tables, r: Record, now: Instant, baseline: bool, joining: set<string>, ts: seq<Touch>)
    requires Told(t, CandidateKey(r), ts) && Relevant(r) && CandidateKey(r) in t.candidates
    ensures Told(Upsert(t, r, now, baseline, joining), CandidateKey(r), ts + [Touch(r, now, r.region in joining)])
  {
    var x, living, key := Touch(r, now, r.region in joining), Living(ts), CandidateKey(r);
    EventsNext(t.events, MoveEvents(t.candidates[key], key, r, now), key, key);
    LivingNext(ts, x);
    LifecycleNext(living, x);
    AnnouncedNext(living, x, key);
  }

  lemma UpsertOpens(t: Tables, r: Record, now: Instant, baseline: bool, joining: set<string>, ts: seq<Touch>)
    requires Told(t, CandidateKey(r), ts) && Relevant(r) && CandidateKey(r) !in t.candidates
    requires baseline ==> r.region in joining
    ensures Told(Upsert(t, r, now, baseline, joining), CandidateKey(r), ts + [Touch(r, now, r.region in joining)])
  {
    var x, living, key := Touch(r, now, r.region in joining), Living(ts), CandidateKey(r);
    LivingNext(ts, x);
    if r.relationship != CatalogueAndSupport {
      EventsNext(t.events, OpenEvents(key, r, now, r.region in joining), key, key);
      LifecycleNext(living, x);
      AnnouncedNext(living, x, key);
    }
  }

  lemma UpsertLeavesOthers(t: Tables, r: Record, now: Instant, baseline: bool, joining: set<string>, key: string, ts: seq<Touch>)
    requires Told(t, key, ts) && (Relevant(r) ==> CandidateKey(r) != key)
    ensures Told(Upsert(t, r, now, baseline, joining), key, ts)
  {
    var own := CandidateKey(r);
    if Relevant(r) && own in t.candidates {
      EventsNext(t.events, MoveEvents(t.candidates[own], own, r, now), own, key);
    } else if Relevant(r) && r.relationship != CatalogueAndSupport {
      EventsNext(t.events, OpenEvents(own, r, now, baseline || r.region in joining), own, key);
    }
  }

  /** One record, seen by one candidate. */
  lemma UpsertTells(t: Tables, r: Record, now: Instant, baseline: bool, joining: set<string>, key: string, ts: seq<Touch>)
    requires Told(t, key, ts) && (baseline && Relevant(r) ==> r.region in joining)
    ensures Told(Upsert(t, r, now, baseline, joining), key,
                 if Relevant(r) && CandidateKey(r) == key then ts + [Touch(r, now, r.region in joining)] else ts)
  {
    if !Relevant(r) || CandidateKey(r) != key {
      UpsertLeavesOthers(t, r, now, baseline, joining, key, ts);
    } else if key in t.candidates {
      UpsertMoves(t, r, now, baseline, joining, ts);
    } else {
      UpsertOpens(t, r, now, baseline, joining, ts);
    }
  }

  lemma NextTouch(ts: seq<Touch>, records: seq<Record>, now: Instant, joining: set<string>, key: string)
    requires records != []
    ensures var front, r := records[..|records| - 1], records[|records| - 1];
            var before := ts + TouchesIn(front, now, joining, key);
            ts + TouchesIn(records, now, joining, key) ==
            if Relevant(r) && CandidateKey(r) == key then before + [Touch(r, now, r.region in joining)] else before
  {
  }

  lemma {:induction false} UpsertAllTells(t: Tables, records: seq<Record>, now: Instant, baseline: bool, joining: set<string>,
                                          key: string, ts: seq<Touch>)
    requires Told(t, key, ts) && (baseline ==> SupportRegions(records) <= joining)
    ensures Told(UpsertAll(t, records, now, baseline, joining), key, ts + TouchesIn(records, now, joining, key))
  {
    if records == [] {
      assert ts + [] == ts;
    } else {
      var front, r := records[..|records| - 1], records[|records| - 1];
      assert records == front + [r];
      assert SupportRegions(front) <= SupportRegions(records);
      UpsertAllTells(t, front, now, baseline, joining, key, ts);
      var before := ts + TouchesIn(front, now, joining, key);
      assert Relevant(r) ==> r.region in SupportRegions(records);
      NextTouch(ts, records, now, joining, key);
      UpsertTells(UpsertAll(t, front, now, baseline, joining), r, now, baseline, joining, key, before);
    }
  }

  lemma {:induction false} UpsertAllLeaves(t: Tables, records: seq<Record>, now: Instant, baseline: bool, joining: set<string>)
    ensures var u := UpsertAll(t, records, now, baseline, joining);
            u.runs == t.runs && u.records == t.records && u.onboarding == t.onboarding
  {
    if records != [] { UpsertAllLeaves(t, records[..|records| - 1], now, baseline, joining); }
  }

  /** A region counts as onboarded from its first reconciliation on, and a first reconciliation finds every
      region new: `baseline` adds nothing to `newRegion`. */
  lemma {:induction false} OnboardingIsExact(history: seq<Reconciliation>)
    ensures Persisted(history).onboarding.Keys == Onboarded(history)
    ensures |Persisted(history).runs| == |history|
    ensures Persisted(history).runs == [] ==> Persisted(history).onboarding.Keys == {}
  {
    if history != [] {
      var front, last := history[..|history| - 1], history[|history| - 1];
      OnboardingIsExact(front);
      var t := Persisted(front);
      var joining := SupportRegions(last.records) - t.onboarding.Keys;
      UpsertAllLeaves(Begun(t, last.records, last.at), last.records, last.at, t.runs == [], joining);
    }
  }

  /** After any reconciliations, every candidate and its events are what its touches say. */
  lemma {:induction false} CandidatesFollowTheirTouches(history: seq<Reconciliation>, key: string)
    ensures Told(Persisted(history), key, Touches(history, key))
  {
    if history != [] {
      var front, last := history[..|history| - 1], history[|history| - 1];
      CandidatesFollowTheirTouches(front, key);
      OnboardingIsExact(front);
      var t := Persisted(front);
      var joining := SupportRegions(last.records) - t.onboarding.Keys;
      var begun := Begun(t, last.records, last.at);
      assert Told(begun, key, Touches(front, key));
      UpsertAllTells(begun, last.records, last.at, t.runs == [], joining, key, Touches(front, key));
    }
  }

  // ---------------------------------------------------------------- what never changes

  lemma {:induction false} TouchesGrow(history: seq<Reconciliation>, more: seq<Reconciliation>, key: string)
    ensures Touches(history, key) <= Touches(history + more, key)
  {
    if more == [] {
      assert history + more == history;
    } else {
      TouchesGrow(history, more[..|more| - 1], key);
      assert (history + more)[..|history + more| - 1] == history + more[..|more| - 1];
    }
  }

  lemma {:induction false} LivingGrows(ts: seq<Touch>, more: seq<Touch>)
    ensures Living(ts) <= Living(ts + more)
  {
    if more == [] {
      assert ts + more == ts;
    } else {
      LivingGrows(ts, more[..|more| - 1]);
      assert (ts + more)[..|ts + more| - 1] == ts + more[..|more| - 1];
    }
  }

  lemma {:induction false} ConfirmationStays(ts: seq<Touch>, more: seq<Touch>)
    requires FirstConfirmed(ts).Some?
    ensures FirstConfirmed(ts + more) == FirstConfirmed(ts)
  {
    if more == [] {
      assert ts + more == ts;
    } else {
      ConfirmationStays(ts, more[..|more| - 1]);
      assert (ts + more)[..|ts + more| - 1] == ts + more[..|more| - 1];
    }
  }

  lemma {:induction false} ConfirmedWhenSomeTouchIs(ts: seq<Touch>)
    ensures FirstConfirmed(ts).Some? <==> exists i :: 0 <= i < |ts| && StateOf(ts[i]) == CommerciallyConfirmed
    ensures FirstConfirmed(ts).Some? ==> exists i :: 0 <= i < |ts| && FirstConfirmed(ts) == Some(ts[i].at)
  {
    if ts != [] {
      ConfirmedWhenSomeTouchIs(ts[..|ts| - 1]);
      assert forall i :: 0 <= i < |ts| - 1 ==> ts[..|ts| - 1][i] == ts[i];
    }
  }

  ghost predicate SameOrigin(c: Candidate, c': Candidate) {
    && c'.firstSeen == c.firstSeen && c'.onboardingBaseline == c.onboardingBaseline
    && c'.region == c.region && c'.regionalSku == c.regionalSku
    && (c.catalogueFirstSeen.Some? ==> c'.catalogueFirstSeen == c.catalogueFirstSeen)
  }

  lemma LifecycleKeepsOrigin(living: seq<Touch>, living': seq<Touch>)
    requires living != [] && living <= living'
    ensures Lifecycle(living').Some? && SameOrigin(Lifecycle(living).value, Lifecycle(living').value)
  {
    assert living' == living + living'[|living|..];
    if FirstConfirmed(living).Some? { ConfirmationStays(living, living'[|living|..]); }
  }

  lemma TouchesKeepOrigin(history: seq<Reconciliation>, more: seq<Reconciliation>, key: string)
    requires Living(Touches(history, key)) != []
    ensures Lifecycle(Living(Touches(history + more, key))).Some?
    ensures SameOrigin(Lifecycle(Living(Touches(history, key))).value, Lifecycle(Living(Touches(history + more, key))).value)
  {
    TouchesGrow(history, more, key);
    var ts, ts' := Touches(history, key), Touches(history + more, key);
    assert ts' == ts + ts'[|ts|..];
    LivingGrows(ts, ts'[|ts|..]);
    LifecycleKeepsOrigin(Living(ts), Living(ts'));
  }

  /** Candidates are never dropped; when and where one was first seen, and whether it came with its
      region's onboarding, never change; its catalogue date is written at most once. */
  lemma {:induction false} CandidatesKeepTheirOrigin(history: seq<Reconciliation>, more: seq<Reconciliation>, key: string)
    requires key in Persisted(history).candidates
    ensures key in Persisted(history + more).candidates
    ensures SameOrigin(Persisted(history).candidates[key], Persisted(history + more).candidates[key])
  {
    CandidatesFollowTheirTouches(history, key);
    TouchesKeepOrigin(history, more, key);
    CandidatesFollowTheirTouches(history + more, key);
  }

  /** A confirmed candidate has its catalogue date. */
  lemma {:induction false} ConfirmedCandidatesAreDated(history: seq<Reconciliation>, key: string)
    requires key in Persisted(history).candidates
    ensures var c := Persisted(history).candidates[key];
            c.state == CommerciallyConfirmed ==> c.catalogueFirstSeen.Some?
  {
    CandidatesFollowTheirTouches(history, key);
    ConfirmedWhenSomeTouchIs(Living(Touches(history, key)));
  }

  // ---------------------------------------------------------------- the clock

  /** Reconciliations come in time order, and no support page was observed after its reconciliation. */
  ghost predicate Clocked(history: seq<Reconciliation>) {
    && (forall i, j :: 0 <= i < j < |history| ==> history[i].at <= history[j].at)
    && (forall i, r :: 0 <= i < |history| && r in history[i].records && r.supportObservedAt.Some? ==>
          r.supportObservedAt.value <= history[i].at)
  }

  ghost predicate InOrder(ts: seq<Touch>) {
    && (forall i, j :: 0 <= i < j < |ts| ==> ts[i].at <= ts[j].at)
    && (forall i :: 0 <= i < |ts| && ts[i].record.supportObservedAt.Some? ==> ts[i].record.supportObservedAt.value <= ts[i].at)
  }

  lemma {:induction false} TouchesInAt(records: seq<Record>, at: Instant, joining: set<string>, key: string)
    ensures forall i :: 0 <= i < |TouchesIn(records, at, joining, key)| ==>
              TouchesIn(records, at, joining, key)[i].at == at && TouchesIn(records, at, joining, key)[i].record in records
  {
    if records != [] { TouchesInAt(records[..|records| - 1], at, joining, key); }
  }

  lemma {:induction false} TouchesInOrder(history: seq<Reconciliation>, key: string)
    requires Clocked(history)
    ensures InOrder(Touches(history, key))
    ensures forall i :: 0 <= i < |Touches(history, key)| ==> history != [] && Touches(history, key)[i].at <= history[|history| - 1].at
  {
    if history != [] {
      var front, last := history[..|history| - 1], history[|history| - 1];
      assert Clocked(front) by {
        forall i, r | 0 <= i < |front| && r in front[i].records && r.supportObservedAt.Some?
          ensures r.supportObservedAt.value <= front[i].at
        {
          assert r in history[i].records;
        }
      }
      TouchesInOrder(front, key);
      TouchesInAt(last.records, last.at, SupportRegions(last.records) - Onboarded(front), key);
    }
  }

  lemma SuffixGrows(front: seq<Touch>, last: Touch, n: nat)
    requires n <= |front|
    ensures (front + [last])[n..] == front[n..] + [last]
  {
  }

  lemma {:induction false} LivingIsSuffix(ts: seq<Touch>) returns (n: nat)
    ensures n <= |ts| && Living(ts) == ts[n..]
  {
    n := 0;
    if ts != [] {
      var front, last := ts[..|ts| - 1], ts[|ts| - 1];
      n := LivingIsSuffix(front);
      if Living(front) == [] && last.record.relationship == CatalogueAndSupport {
        n := |ts|;
      } else {
        SuffixGrows(front, last, n);
        assert ts == front + [last];
      }
    }
  }

  lemma LifecycleDatesAreOrdered(ts: seq<Touch>)
    requires ts != [] && InOrder(ts)
    ensures var c := Lifecycle(ts).value;
            && c.firstSeen <= c.lastSeen
            && (c.catalogueFirstSeen.Some? ==> c.firstSeen <= c.catalogueFirstSeen.value <= c.lastSeen)
  {
    ConfirmedWhenSomeTouchIs(ts);
    if FirstConfirmed(ts).Some? {
      var i :| 0 <= i < |ts| && FirstConfirmed(ts) == Some(ts[i].at);
      assert ts[0].at <= ts[i].at <= ts[|ts| - 1].at;
    }
  }

  /** With a clock that never goes back: first seen, then in the catalogue, then last seen. */
  lemma {:induction false} CandidateDatesAreOrdered(history: seq<Reconciliation>, key: string)
    requires Clocked(history) && key in Persisted(history).candidates
    ensures var c := Persisted(history).candidates[key];
            && c.firstSeen <= c.lastSeen
            && (c.catalogueFirstSeen.Some? ==> c.firstSeen <= c.catalogueFirstSeen.value <= c.lastSeen)
  {
    CandidatesFollowTheirTouches(history, key);
    TouchesInOrder(history, key);
    var _ := LivingIsSuffix(Touches(history, key));
    LifecycleDatesAreOrdered(Living(Touches(history, key)));
  }

  // ---------------------------------------------------------------- events

  /** What reconcile_samsung hands over: no record of a support page is CATALOGUE_ONLY. */
  ghost predicate FromReconcile(records: seq<Record>) {
    forall r :: r in records && r.supportIdentity.Some? ==> r.relationship != CatalogueOnly
  }

  lemma ReconcileHandsOverFromReconcile(products: seq<Observation>, supports: seq<Observation>)
    ensures FromReconcile(Reconciled(products, supports))
  {
    forall r | r in Reconciled(products, supports) && r.supportIdentity.Some? ensures r.relationship != CatalogueOnly {
      SupportRecordsTellTheTruth(products, supports, r);
    }
  }

  function OfKind(key: string, first: bool): CandidateEvent -> bool {
    (e: CandidateEvent) => e.key == key && (e.kind == SupportBeforeProduct <==> !first)
  }

  /** The moves of a candidate from any other state into confirmation. */
  function Confirmations(ts: seq<Touch>): nat {
    if |ts| <= 1 then 0
    else
      Confirmations(ts[..|ts| - 1]) +
      if StateOf(ts[|ts| - 2]) != CommerciallyConfirmed && StateOf(ts[|ts| - 1]) == CommerciallyConfirmed then 1 else 0
  }

  lemma OneAnnounced(x: Touch, key: string)
    requires StateOf(x) != CommerciallyConfirmed
    ensures Count(Announced([x], key), OfKind(key, true)) == if x.newRegion then 0 else 1
    ensures Count(Announced([x], key), OfKind(key, false)) == 0
  {
    if !x.newRegion {
      var e := OpenEvents(key, x.record, x.at, x.newRegion)[0];
      assert Announced([x], key) == [] + [e];
      FilterAppend([], e, OfKind(key, true));
      FilterAppend([], e, OfKind(key, false));
    }
  }

  lemma CountNext(events: seq<CandidateEvent>, more: seq<CandidateEvent>, key: string)
    requires |more| <= 1 && forall i :: 0 <= i < |more| ==> more[i].key == key && more[i].kind == SupportBeforeProduct
    ensures Count(events + more, OfKind(key, true)) == Count(events, OfKind(key, true))
    ensures Count(events + more, OfKind(key, false)) == Count(events, OfKind(key, false)) + |more|
  {
    if more == [] {
      assert events + more == events;
    } else {
      assert more == [more[0]];
      FilterAppend(events, more[0], OfKind(key, true));
      FilterAppend(events, more[0], OfKind(key, false));
    }
  }

  lemma {:induction false} AnnouncedCounts(ts: seq<Touch>, key: string)
    requires ts != [] && StateOf(ts[0]) != CommerciallyConfirmed
    ensures Count(Announced(ts, key), OfKind(key, true)) == if ts[0].newRegion then 0 else 1
    ensures Count(Announced(ts, key), OfKind(key, false)) == Confirmations(ts)
  {
    if |ts| == 1 {
      assert ts == [ts[0]];
      OneAnnounced(ts[0], key);
    } else {
      var front, last := ts[..|ts| - 1], ts[|ts| - 1];
      AnnouncedCounts(front, key);
      CountNext(Announced(front, key), Turn(ts[|ts| - 2], last, key), key);
    }
  }

  lemma {:induction false} CountAbout(events: seq<CandidateEvent>, key: string, first: bool)
    ensures Count(Filter(events, About(key)), OfKind(key, first)) == Count(events, OfKind(key, first))
  {
    if events != [] {
      var front, last := events[..|events| - 1], events[|events| - 1];
      CountAbout(front, key, first);
      assert events == front + [last];
      FilterAppend(Filter(front, About(key)), last, OfKind(key, first));
    }
  }

  lemma {:induction false} TouchesAreSupport(history: seq<Reconciliation>, key: string)
    requires forall i :: 0 <= i < |history| ==> FromReconcile(history[i].records)
    ensures forall i :: 0 <= i < |Touches(history, key)| ==> Touches(history, key)[i].record.relationship != CatalogueOnly
  {
    if history != [] {
      var front, last := history[..|history| - 1], history[|history| - 1];
      TouchesAreSupport(front, key);
      TouchesInRelevant(last.records, last.at, SupportRegions(last.records) - Onboarded(front), key);
      assert FromReconcile(last.records);
    }
  }

  lemma {:induction false} TouchesInRelevant(records: seq<Record>, at: Instant, joining: set<string>, key: string)
    ensures forall i :: 0 <= i < |TouchesIn(records, at, joining, key)| ==>
              TouchesIn(records, at, joining, key)[i].record in records && Relevant(TouchesIn(records, at, joining, key)[i].record)
  {
    if records != [] { TouchesInRelevant(records[..|records| - 1], at, joining, key); }
  }

  /** A candidate is announced once when it opens, unless it came with its region's onboarding, and once
      for each of its moves into confirmation. */
  lemma {:induction false} CandidateEventsAreCounted(history: seq<Reconciliation>, key: string)
    requires forall i :: 0 <= i < |history| ==> FromReconcile(history[i].records)
    requires key in Persisted(history).candidates
    ensures var t := Persisted(history);
            && Count(t.events, OfKind(key, true)) == (if t.candidates[key].onboardingBaseline then 0 else 1)
            && Count(t.events, OfKind(key, false)) == Confirmations(Living(Touches(history, key)))
  {
    CandidatesFollowTheirTouches(history, key);
    TouchesAreSupport(history, key);
    var ts := Touches(history, key);
    var _ := LivingIsSuffix(ts);
    AnnouncedCounts(Living(ts), key);
    CountAbout(Persisted(history).events, key, true);
    CountAbout(Persisted(history).events, key, false);
  }

  // ---------------------------------------------------------------- repeating a reconciliation

  predicate Confirms(r: Record) {
    StateFor(r.relationship) == CommerciallyConfirmed
  }

  predicate Touching(r: Record, key: string) {
    Relevant(r) && CandidateKey(r) == key
  }

  /** No two records of one candidate differ in whether they confirm it. */
  ghost predicate Agreeing(records: seq<Record>) {
    forall i, j :: 0 <= i < |records| && 0 <= j < |records| && Relevant(records[i]) && Relevant(records[j])
                   && CandidateKey(records[i]) == CandidateKey(records[j]) ==>
      (Confirms(records[i]) <==> Confirms(records[j]))
  }

  /** The tables have nothing new to learn from the record. */
  ghost predicate Absorbed(t: Tables, r: Record) {
    Relevant(r) ==>
      if CandidateKey(r) in t.candidates
      then t.candidates[CandidateKey(r)].state == CommerciallyConfirmed <==> Confirms(r)
      else r.relationship == CatalogueAndSupport
  }

  lemma UpsertAbsorbs(t: Tables, r: Record, now: Instant, baseline: bool, joining: set<string>)
    ensures Absorbed(Upsert(t, r, now, baseline, joining), r)
    ensures Absorbed(t, r) ==> Upsert(t, r, now, baseline, joining).events == t.events
  {
  }

  /** A record leaves absorbed what it does not contradict. */
  lemma UpsertKeepsAbsorbed(t: Tables, r: Record, other: Record, now: Instant, baseline: bool, joining: set<string>)
    requires Relevant(r) && Relevant(other) && CandidateKey(r) == CandidateKey(other) ==> (Confirms(r) <==> Confirms(other))
    requires Absorbed(t, other)
    ensures Absorbed(Upsert(t, r, now, baseline, joining), other)
  {
  }

  lemma {:induction false} UpsertAllAbsorbs(t: Tables, records: seq<Record>, now: Instant, baseline: bool, joining: set<string>)
    requires Agreeing(records)
    ensures forall i :: 0 <= i < |records| ==> Absorbed(UpsertAll(t, records, now, baseline, joining), records[i])
  {
    if records != [] {
      var front, last := records[..|records| - 1], records[|records| - 1];
      UpsertAllAbsorbs(t, front, now, baseline, joining);
      var before := UpsertAll(t, front, now, baseline, joining);
      UpsertAbsorbs(before, last, now, baseline, joining);
      forall i | 0 <= i < |front| ensures Absorbed(Upsert(before, last, now, baseline, joining), records[i]) {
        assert front[i] == records[i];
        UpsertKeepsAbsorbed(before, last, records[i], now, baseline, joining);
      }
    }
  }

  lemma {:induction false} NothingNewNoEvents(t: Tables, records: seq<Record>, k: nat, now: Instant, baseline: bool, joining: set<string>)
    requires k <= |records| && Agreeing(records)
    requires forall i :: 0 <= i < |records| ==> Absorbed(t, records[i])
    ensures UpsertAll(t, records[..k], now, baseline, joining).events == t.events
    ensures forall i :: 0 <= i < |records| ==> Absorbed(UpsertAll(t, records[..k], now, baseline, joining), records[i])
  {
    if k > 0 {
      NothingNewNoEvents(t, records, k - 1, now, baseline, joining);
      var before := UpsertAll(t, records[..k - 1], now, baseline, joining);
      var r := records[k - 1];
      NextUpsert(t, records, k - 1, now, baseline, joining);
      UpsertAbsorbs(before, r, now, baseline, joining);
      forall i | 0 <= i < |records| ensures Absorbed(Upsert(before, r, now, baseline, joining), records[i]) {
        UpsertKeepsAbsorbed(before, r, records[i], now, baseline, joining);
      }
    }
  }

  /** The last record of the candidate. */
  function LastOf(records: seq<Record>, key: string): Option<Record> {
    if records == [] then None
    else if Touching(records[|records| - 1], key) then Some(records[|records| - 1])
    else LastOf(records[..|records| - 1], key)
  }

  /** A pass leaves a candidate in the state its last record gives it; a candidate it leaves unknown had
      records of the catalogue only. */
  lemma {:induction false} LastDecides(t: Tables, records: seq<Record>, now: Instant, baseline: bool, joining: set<string>, key: string)
    ensures var u, last := UpsertAll(t, records, now, baseline, joining), LastOf(records, key);
            && (key in u.candidates && last.Some? ==> u.candidates[key].state == StateFor(last.value.relationship))
            && (key !in u.candidates ==>
                  forall i :: 0 <= i < |records| && Touching(records[i], key) ==> records[i].relationship == CatalogueAndSupport)
  {
    if records != [] { LastDecides(t, records[..|records| - 1], now, baseline, joining, key); }
  }

  lemma {:induction false} EventsOnlyGrow(t: Tables, records: seq<Record>, now: Instant, baseline: bool, joining: set<string>)
    ensures |t.events| <= |UpsertAll(t, records, now, baseline, joining).events|
    ensures t.events == UpsertAll(t, records, now, baseline, joining).events[..|t.events|]
  {
    if records != [] { EventsOnlyGrow(t, records[..|records| - 1], now, baseline, joining); }
  }

  function StandsConfirmed(t: Tables, key: string): bool {
    key in t.candidates && t.candidates[key].state == CommerciallyConfirmed
  }

  /** A pass that emits nothing never moves a known candidate into confirmation. */
  lemma {:induction false} SilentPassOnlySinks(t: Tables, records: seq<Record>, now: Instant, baseline: bool, joining: set<string>,
                                               key: string)
    requires key in t.candidates && UpsertAll(t, records, now, baseline, joining).events == t.events
    ensures var u := UpsertAll(t, records, now, baseline, joining);
            && key in u.candidates
            && (StandsConfirmed(u, key) ==> StandsConfirmed(t, key))
            && (forall i :: 0 <= i < |records| && Touching(records[i], key) ==>
                  && (Confirms(records[i]) ==> StandsConfirmed(t, key))
                  && (StandsConfirmed(u, key) ==> Confirms(records[i])))
  {
    if records != [] {
      var front, last := records[..|records| - 1], records[|records| - 1];
      var before := UpsertAll(t, front, now, baseline, joining);
      EventsOnlyGrow(t, front, now, baseline, joining);
      SilentStep(before, last, now, baseline, joining, t.events);
      SilentPassOnlySinks(t, front, now, baseline, joining, key);
      forall i | 0 <= i < |front| ensures front[i] == records[i] {
      }
    }
  }

  lemma SilentStep(t: Tables, r: Record, now: Instant, baseline: bool, joining: set<string>, events: seq<CandidateEvent>)
    requires Upsert(t, r, now, baseline, joining).events == events && |events| <= |t.events| && events == t.events[..|events|]
    ensures t.events == events
    ensures Relevant(r) && CandidateKey(r) in t.candidates ==> MoveEvents(t.candidates[CandidateKey(r)], CandidateKey(r), r, now) == []
  {
  }

  /** A silent second pass shows that the records agree. */
  lemma SilenceMeansAgreement(t: Tables, records: seq<Record>, first: Instant, second: Instant, before: Tables,
                              baseline: bool, joining: set<string>, baseline': bool, joining': set<string>)
    requires t.candidates == UpsertAll(before, records, first, baseline, joining).candidates
    requires UpsertAll(t, records, second, baseline', joining').events == t.events
    ensures Agreeing(records)
  {
    forall i, j | 0 <= i < |records| && 0 <= j < |records| && Relevant(records[i]) && Relevant(records[j])
                  && CandidateKey(records[i]) == CandidateKey(records[j])
      ensures Confirms(records[i]) <==> Confirms(records[j])
    {
      var key := CandidateKey(records[i]);
      LastDecides(before, records, first, baseline, joining, key);
      if key in t.candidates {
        LastDecides(t, records, second, baseline', joining', key);
        SilentPassOnlySinks(t, records, second, baseline', joining', key);
        LastOfExists(records, key, i);
      }
    }
  }

  lemma {:induction false} LastOfExists(records: seq<Record>, key: string, i: nat)
    requires i < |records| && Touching(records[i], key)
    ensures LastOf(records, key).Some?
  {
    if !Touching(records[|records| - 1], key) { LastOfExists(records[..|records| - 1], key, i); }
  }

  /** Reconciling the same records again emits nothing if and only if no two records of one candidate differ
      in whether they confirm it: for every history before, every batch and any two times. */
  lemma {:induction false} RepeatingIsSilentExactly(history: seq<Reconciliation>, records: seq<Record>, first: Instant, second: Instant)
    ensures var once := history + [Reconciliation(records, first)];
            Persisted(once + [Reconciliation(records, second)]).events == Persisted(once).events <==> Agreeing(records)
  {
    var once := history + [Reconciliation(records, first)];
    var twice := once + [Reconciliation(records, second)];
    assert once[..|history|] == history && twice[..|once|] == once;
    RepeatedPass(Persisted(history), records, first, second);
  }

  lemma RepeatedPass(t: Tables, records: seq<Record>, first: Instant, second: Instant)
    ensures var u := Persist(t, records, first);
            Persist(u, records, second).events == u.events <==> Agreeing(records)
  {
    var u := Persist(t, records, first);
    var joining, joining' := SupportRegions(records) - t.onboarding.Keys, SupportRegions(records) - u.onboarding.Keys;
    var begun := Begun(u, records, second);
    if Agreeing(records) {
      UpsertAllAbsorbs(Begun(t, records, first), records, first, t.runs == [], joining);
      forall i | 0 <= i < |records| ensures Absorbed(begun, records[i]) {
        assert Absorbed(u, records[i]);
      }
      NothingNewNoEvents(begun, records, |records|, second, u.runs == [], joining');
      assert records[..|records|] == records;
    }
    if Persist(u, records, second).events == u.events {
      SilenceMeansAgreement(begun, records, first, second, Begun(t, records, first), t.runs == [], joining, u.runs == [], joining');
    }
  }

  /** The join hands over batches that do not agree: two support pages with one region and one SKU, one known
      and one not, next to the product with that SKU.  Each repetition of such a batch emits. */
  lemma TwoPagesOfOneSkuDisagree(products: seq<Observation>, supports: seq<Observation>, p: Observation,
                                 known: Observation, other: Observation)
    requires p in products && known in supports && other in supports
    requires Known(known) && !Known(other) && Matches(p, known) && SkuPlace(other) == SkuPlace(known)
    requires known.identity != "" && other.identity != ""
    ensures !Agreeing(Reconciled(products, supports))
  {
    SupportIsRecorded(products, supports, known);
    SupportIsRecorded(products, supports, other);
    var records := Reconciled(products, supports);
    var i :| 0 <= i < |records| && Describes(records[i], known, products);
    var j :| 0 <= j < |records| && Describes(records[j], other, products);
    assert !Confirms(records[j]) && Confirms(records[i]);
  }

  lemma RepeatingTwoPagesEmits(history: seq<Reconciliation>, products: seq<Observation>, supports: seq<Observation>,
                               p: Observation, known: Observation, other: Observation, first: Instant, second: Instant)
    requires p in products && known in supports && other in supports
    requires Known(known) && !Known(other) && Matches(p, known) && SkuPlace(other) == SkuPlace(known)
    requires known.identity != "" && other.identity != ""
    ensures var once := history + [Reconciliation(Reconciled(products, supports), first)];
            Persisted(once + [Reconciliation(Reconciled(products, supports), second)]).events != Persisted(once).events
  {
    TwoPagesOfOneSkuDisagree(products, supports, p, known, other);
    RepeatingIsSilentExactly(history, Reconciled(products, supports), first, second);
  }
}
