/**
 What one record does to its candidate, and what a history of reconciliations leaves, told field by field.
 */
module PrelaunchLaws {
  import opened Common
  import opened Ordering
  import opened Samsung
  import opened SamsungLaws
  import opened Prelaunch

  /** The record names a support page and the SKU this key is made of. */
  predicate Names(r: Record, key: string) {
    Given(r.supportIdentity) && Given(r.regionalSku) && key == r.region + ":" + r.regionalSku.value
  }

  /** The state a relationship stands for. */
  predicate Stands(state: CandidateState, r: Relationship) {
    && (state == GlobalUnknownSupportModel <==> r == SupportOnlyBaseModel)
    && (state == KnownGloballySupportFirstInRegion <==> r == SupportOnlyRegionalSku)
    && (state == AmbiguousOfficialIdentifier <==> r == AmbiguousSupportOnly)
    && (state == CommerciallyConfirmed <==> r == CatalogueAndSupport || r == CatalogueOnly)
  }

  predicate Confirming(r: Record) {
    r.relationship == CatalogueAndSupport || r.relationship == CatalogueOnly
  }

  function MatchOf(r: Record): Option<string> {
    if Given(r.productIdentity) then r.productIdentity else None
  }

  /** The candidate a record opens: everything but its dates and its state is the record's own. */
  ghost predicate OpenedBy(c: Candidate, r: Record, now: Instant, onboarding: bool) {
    && c.baseModel == r.baseModel && c.regionalSku == r.regionalSku && c.region == r.region && c.supportUrl == r.supportUrl
    && c.evidence == r.evidence && Stands(c.state, r.relationship) && c.matched == MatchOf(r)
    && c.firstSeen == (match r.supportObservedAt case Some(at) => at case None => now) && c.lastSeen == now
    && c.catalogueFirstSeen == (if Confirming(r) then Some(now) else None) && c.onboardingBaseline == onboarding
  }

  /** The candidate a record moves: state, match and last sighting are new, the catalogue date is set once, and
      the rest stays. */
  ghost predicate MovedBy(c: Candidate, after: Candidate, r: Record, now: Instant) {
    && after.baseModel == c.baseModel && after.regionalSku == c.regionalSku && after.region == c.region
    && after.supportUrl == c.supportUrl && after.evidence == c.evidence && after.firstSeen == c.firstSeen
    && after.onboardingBaseline == c.onboardingBaseline
    && Stands(after.state, r.relationship) && after.matched == MatchOf(r) && after.lastSeen == now
    && after.catalogueFirstSeen == (match c.catalogueFirstSeen
                                    case Some(at) => Some(at)
                                    case None => if Confirming(r) then Some(now) else None)
  }

  /** What the events gain when a record opens its candidate: nothing in a region that is only being onboarded
      and nothing for a confirmed one, otherwise the first sighting of a model or of a SKU. */
  ghost predicate OpeningTold(events: seq<CandidateEvent>, after: seq<CandidateEvent>, key: string, r: Record, now: Instant,
                              onboarding: bool) {
    if onboarding || Confirming(r) then after == events
    else after == events + [CandidateEvent(key, if r.relationship == SupportOnlyBaseModel then SupportModelFirstSeen
                                                else SupportRegionalSkuFirstSeen, now, r.relationship)]
  }

  /** And when it moves one: only a move into confirmation is told. */
  ghost predicate MoveTold(events: seq<CandidateEvent>, after: seq<CandidateEvent>, c: Candidate, key: string, r: Record, now: Instant) {
    after == events + if Confirming(r) && c.state != CommerciallyConfirmed
                      then [CandidateEvent(key, SupportBeforeProduct, now, r.relationship)] else []
  }

  /** All other candidates and all other tables stay. */
  ghost predicate OnlyCandidate(t: Tables, u: Tables, key: string) {
    && u.runs == t.runs && u.records == t.records && u.onboarding == t.onboarding
    && (forall other :: other != key ==> Look(u, other) == Look(t, other))
  }

  /** One record of a reconciliation: it leaves everything alone unless it names a support page and a SKU; it
      opens its candidate unless the product is in the catalogue already; and it moves one that is open. */
  lemma RecordIsExact(t: Tables, r: Record, now: Instant, baseline: bool, joining: set<string>)
    ensures var u := Upsert(t, r, now, baseline, joining);
            && ((forall key :: !Names(r, key)) ==> u == t)
            && forall key :: Names(r, key) ==>
                 && OnlyCandidate(t, u, key)
                 && match Look(t, key)
                    case None =>
                      if r.relationship == CatalogueAndSupport then u == t
                      else
                        && Look(u, key).Some? && OpenedBy(Look(u, key).value, r, now, baseline || r.region in joining)
                        && OpeningTold(t.events, u.events, key, r, now, baseline || r.region in joining)
                    case Some(c) =>
                      && Look(u, key).Some? && MovedBy(c, Look(u, key).value, r, now)
                      && MoveTold(t.events, u.events, c, key, r, now)
  {
    if Relevant(r) {
      assert Names(r, CandidateKey(r));
      assert forall key :: Names(r, key) ==> key == CandidateKey(r);
    }
  }

  /** The touches of a candidate are the records that name a support page and its SKU, each with the time of its
      reconciliation. */
  lemma {:induction false} TouchesInAreExact(records: seq<Record>, at: Instant, joining: set<string>, key: string)
    ensures forall x :: x in TouchesIn(records, at, joining, key) <==>
              x.record in records && Names(x.record, key) && x.at == at && (x.newRegion <==> x.record.region in joining)
  {
    if records != [] {
      var front, last := records[..|records| - 1], records[|records| - 1];
      TouchesInAreExact(front, at, joining, key);
      assert records == front + [last];
      assert Relevant(last) && CandidateKey(last) == key <==> Names(last, key);
      forall x
        ensures x in TouchesIn(records, at, joining, key) <==>
                x.record in records && Names(x.record, key) && x.at == at && (x.newRegion <==> x.record.region in joining)
      {
        assert x in TouchesIn(records, at, joining, key) <==>
               x in TouchesIn(front, at, joining, key)
               || (Names(last, key) && x == Touch(last, at, last.region in joining));
      }
    }
  }

  // ---------------------------------------------------------------- the other tables

  /** Some support page of the batch is of the region. */
  ghost predicate Concerns(records: seq<Record>, region: string) {
    exists r :: r in records && Given(r.supportIdentity) && r.region == region
  }

  lemma RegionsAreExact(records: seq<Record>, region: string)
    ensures region in SupportRegions(records) <==> Concerns(records, region)
  {
  }

  /** When the first reconciliation concerned the region. */
  ghost function FirstConcern(history: seq<Reconciliation>, region: string): Option<Instant> {
    if history == [] then None
    else
      var before, last := FirstConcern(history[..|history| - 1], region), history[|history| - 1];
      if before.Some? then before else if Concerns(last.records, region) then Some(last.at) else None
  }

  /** A region is onboarded once, at the time of the first reconciliation with a support page of it. */
  lemma {:induction false} RegionsOnboardOnce(history: seq<Reconciliation>, region: string)
    ensures var onboarding := Persisted(history).onboarding;
            FirstConcern(history, region) == if region in onboarding then Some(onboarding[region]) else None
  {
    if history != [] {
      var front, last := history[..|history| - 1], history[|history| - 1];
      RegionsOnboardOnce(front, region);
      RegionsAreExact(last.records, region);
      var t := Persisted(front);
      UpsertAllLeaves(Begun(t, last.records, last.at), last.records, last.at, t.runs == [],
                      SupportRegions(last.records) - t.onboarding.Keys);
    }
  }

  /** Every reconciliation has its run entry and its records, in order; only the first is a baseline. */
  lemma {:induction false} RunsAreExact(history: seq<Reconciliation>)
    ensures var t := Persisted(history);
            && |t.runs| == |history| == |t.records|
            && forall k :: 0 <= k < |history| ==>
                 && t.records[k] == history[k].records && t.runs[k].at == history[k].at && (t.runs[k].baseline <==> k == 0)
                 && forall region :: region in t.runs[k].regions <==> Concerns(history[k].records, region)
  {
    if history != [] {
      var front, last := history[..|history| - 1], history[|history| - 1];
      assert history == front + [last];
      RunsAreExact(front);
      var t := Persisted(front);
      UpsertAllLeaves(Begun(t, last.records, last.at), last.records, last.at, t.runs == [],
                      SupportRegions(last.records) - t.onboarding.Keys);
      forall region ensures region in SupportRegions(last.records) <==> Concerns(last.records, region) {
        RegionsAreExact(last.records, region);
      }
    }
  }
}
