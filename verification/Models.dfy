/** Observations, discoveries and the enums around them.  Models core/models.py. */
module Models {
  import opened Common

  datatype CollectorTier = Production | Experimental

  datatype Confidence = High | Medium | Low

  datatype EditorialLevel = Critical | Newsworthy | Monitor | Noise

  /** The change types the diff can produce. */
  datatype ChangeType = NewDevice | NewsItemAppeared | PriceChange | AvailabilityChange | FirmwareReleased
                      | SpecChanged | ProductRemoved | SourceListingRemoved

  /** The fields of an observation other than its identity, its collector and the time it was seen.  The
      ones no modelled code looks at on its own are kept together in `details`. */
  datatype Facts = Facts(
    sourceUrl: string, sourceKind: Option<string>, sourceClass: Option<string>, region: Option<string>,
    modelNumber: Option<string>, regionalModelNumber: Option<string>, classificationState: Option<string>,
    classificationEvidence: seq<string>, price: Option<string>, currency: Option<string>,
    availability: Option<string>, firmwareVersion: Option<string>, details: map<string, string>)

  datatype Observation = Observation(collector: string, identity: string, observedAt: Instant, facts: Facts)

  /** What a diff compares: everything but `observed_at` and `collector`. */
  datatype Comparable = Comparable(identity: string, facts: Facts)

  function ComparableOf(o: Observation): Comparable {
    Comparable(o.identity, o.facts)
  }

  const OFFICIAL_NEWS := "official_news"
  const PRODUCT_CATALOGUE := "product_catalogue"
  const SUPPORT := "support"

  predicate IsNews(f: Facts) {
    f.sourceClass == Some(OFFICIAL_NEWS)
  }

  datatype Discovery = Discovery(
    collector: string, identity: string, changeType: ChangeType, confidence: Confidence, level: EditorialLevel,
    sourceUrl: string, previous: Option<Comparable>, current: Option<Comparable>, discoveredAt: Instant)

  type Catalogue = map<string, Observation>

  /** Every entry is filed under its own identity. */
  ghost predicate Filed(c: Catalogue) {
    forall id :: id in c ==> c[id].identity == id
  }
}
