/**
 The join of Samsung's product catalogue with its support catalogue.  Models reconcile_samsung of
 intelligence/samsung.py.
 */
module Samsung {
  import opened Common
  import opened Models
  import opened Ordering

  const KNOWN_SMARTWATCH := "known_smartwatch"
  const UNKNOWN_REGION := "UNKNOWN"

  datatype Relationship = CatalogueAndSupport | SupportOnlyBaseModel | SupportOnlyRegionalSku | CatalogueOnly | AmbiguousSupportOnly

  datatype Record = Record(
    relationship: Relationship, region: string, baseModel: Option<string>, regionalSku: Option<string>,
    productIdentity: Option<string>, supportIdentity: Option<string>, supportUrl: Option<string>,
    supportObservedAt: Option<Instant>, evidence: seq<string>)

  /** Python truth of an optional string: the empty string is false. */
  predicate Truthy(s: Option<string>) {
    s.Some? && s.value != ""
  }

  /** Python's `a or b`. */
  function Or(a: Option<string>, b: Option<string>): Option<string> {
    if Truthy(a) then a else b
  }

  function Text(s: Option<string>): string {
    if s.Some? then s.value else "None"
  }

  function RelationshipText(r: Relationship): string {
    match r
    case CatalogueAndSupport => "CATALOGUE_AND_SUPPORT"
    case SupportOnlyBaseModel => "SUPPORT_ONLY_BASE_MODEL"
    case SupportOnlyRegionalSku => "SUPPORT_ONLY_REGIONAL_SKU"
    case CatalogueOnly => "CATALOGUE_ONLY"
    case AmbiguousSupportOnly => "AMBIGUOUS_SUPPORT_ONLY"
  }

  function RecordKey(r: Record): string {
    RelationshipText(r.relationship) + ":" + r.region + ":" + Text(Or(r.regionalSku, Or(r.baseModel, r.productIdentity)))
  }

  function IdentityOf(o: Observation): string {
    o.identity
  }

  function RegionOf(o: Observation): string {
    if Truthy(o.facts.region) then o.facts.region.value else UNKNOWN_REGION
  }

  type Place = (Option<string>, Option<string>)

  /** Where a support page and a product can meet: the region as given, and the SKU. */
  function SkuPlace(o: Observation): Place {
    (o.facts.region, o.facts.regionalModelNumber)
  }

  /** What a product is listed under when no support page covers it. */
  function ListingOf(o: Observation): (string, Option<string>) {
    (RegionOf(o), Or(o.facts.modelNumber, o.facts.regionalModelNumber))
  }

  predicate Known(o: Observation) {
    o.facts.classificationState == Some(KNOWN_SMARTWATCH)
  }

  // ---------------------------------------------------------------- what the program computes

  /** The products by region and SKU; a later one replaces an earlier one. */
  function ExactIndex(products: seq<Observation>): map<Place, Observation> {
    if products == [] then map[]
    else
      var last := products[|products| - 1];
      var before := ExactIndex(products[..|products| - 1]);
      if Truthy(last.facts.regionalModelNumber) then before[SkuPlace(last) := last] else before
  }

  function GlobalBases(products: seq<Observation>): set<Option<string>> {
    set o | o in products && Truthy(o.facts.modelNumber) :: o.facts.modelNumber
  }

  function CoveredBases(supports: seq<Observation>): set<Place> {
    set o | o in supports && Truthy(o.facts.modelNumber) && Known(o) :: (o.facts.region, o.facts.modelNumber)
  }

  function SupportRecord(o: Observation, exact: Option<Observation>, bases: set<Option<string>>): Record {
    Record(
      if !Known(o) then AmbiguousSupportOnly
      else if exact.Some? then CatalogueAndSupport
      else if o.facts.modelNumber !in bases then SupportOnlyBaseModel
      else SupportOnlyRegionalSku,
      RegionOf(o), o.facts.modelNumber, o.facts.regionalModelNumber,
      if exact.Some? then Some(exact.value.identity) else None,
      Some(o.identity), Some(o.facts.sourceUrl), Some(o.observedAt), o.facts.classificationEvidence)
  }

  function Find(index: map<Place, Observation>, place: Place): Option<Observation> {
    if place in index then Some(index[place]) else None
  }

  function SupportRecords(supports: seq<Observation>, index: map<Place, Observation>, bases: set<Option<string>>): seq<Record> {
    seq(|supports|, i requires 0 <= i < |supports| => SupportRecord(supports[i], Find(index, SkuPlace(supports[i])), bases))
  }

  function CatalogueRecord(o: Observation): Record {
    Record(CatalogueOnly, RegionOf(o), o.facts.modelNumber, o.facts.regionalModelNumber, Some(o.identity), None, None, None, [])
  }

  function Listings(products: seq<Observation>): set<(string, Option<string>)> {
    set o | o in products :: ListingOf(o)
  }

  predicate Covers(covered: set<Place>, listing: (string, Option<string>)) {
    (Some(listing.0), listing.1) in covered
  }

  /** A product is listed unless an earlier product has its listing or a support page covers it. */
  function Uncovered(products: seq<Observation>, covered: set<Place>): seq<Record> {
    if products == [] then []
    else
      var front, last := products[..|products| - 1], products[|products| - 1];
      Uncovered(front, covered) +
      if ListingOf(last) in Listings(front) || Covers(covered, ListingOf(last)) then [] else [CatalogueRecord(last)]
  }

  function Unsorted(products: seq<Observation>, supports: seq<Observation>): seq<Record> {
    SupportRecords(supports, ExactIndex(products), GlobalBases(products)) + Uncovered(products, CoveredBases(supports))
  }

  function Reconciled(products: seq<Observation>, supports: seq<Observation>): seq<Record> {
    SortBy(Unsorted(SortBy(products, IdentityOf), SortBy(supports, IdentityOf)), RecordKey)
  }

  lemma NextProduct(products: seq<Observation>, i: nat, covered: set<Place>)
    requires i < |products|
    ensures var front, last := products[..i], products[i];
            && Listings(products[..i + 1]) == Listings(front) + {ListingOf(last)}
            && Uncovered(products[..i + 1], covered) ==
               Uncovered(front, covered) +
               if ListingOf(last) in Listings(front) || Covers(covered, ListingOf(last)) then [] else [CatalogueRecord(last)]
  {
    assert products[..i + 1] == products[..i] + [products[i]];
    assert products[..i + 1][..i] == products[..i];
  }

  lemma NextSupport(supports: seq<Observation>, i: nat, index: map<Place, Observation>, bases: set<Option<string>>)
    requires i < |supports|
    ensures SupportRecords(supports[..i + 1], index, bases) ==
            SupportRecords(supports[..i], index, bases) + [SupportRecord(supports[i], Find(index, SkuPlace(supports[i])), bases)]
  {
  }

  /** The first loop: one record for each support observation. */
  method JoinSupports(supports: seq<Observation>, exact: map<Place, Observation>, bases: set<Option<string>>)
    returns (records: seq<Record>)
    ensures records == SupportRecords(supports, exact, bases)
  {
    records := [];
    for i := 0 to |supports|
      invariant records == SupportRecords(supports[..i], exact, bases)
    {
      NextSupport(supports, i, exact, bases);
      records := records + [SupportRecord(supports[i], Find(exact, SkuPlace(supports[i])), bases)];
    }
    assert supports[..|supports|] == supports;
  }

  /** The second loop: one record for each listing nothing covers. */
  method ListProducts(products: seq<Observation>, covered: set<Place>) returns (records: seq<Record>)
    ensures records == Uncovered(products, covered)
  {
    records := [];
    var seen: set<(string, Option<string>)> := {};
    for i := 0 to |products|
      invariant records == Uncovered(products[..i], covered)
      invariant forall key :: key in seen <==> key in Listings(products[..i]) && !Covers(covered, key)
    {
      var key := ListingOf(products[i]);
      NextProduct(products, i, covered);
      if key in seen || Covers(covered, key) {
        assert records + [] == records;
        continue;
      }
      seen := seen + {key};
      records := records + [CatalogueRecord(products[i])];
    }
    assert products[..|products|] == products;
  }

  method ReconcileSamsung(productObservations: seq<Observation>, supportObservations: seq<Observation>)
    returns (records: seq<Record>)
    ensures records == Reconciled(productObservations, supportObservations)
  {
    var products, supports := SortBy(productObservations, IdentityOf), SortBy(supportObservations, IdentityOf);
    var joined := JoinSupports(supports, ExactIndex(products), GlobalBases(products));
    var listed := ListProducts(products, CoveredBases(supports));
    records := SortBy(joined + listed, RecordKey);
  }

  // ---------------------------------------------------------------- the order of the inputs

  /** The order of either input never shows, as long as an identity names one observation. */
  lemma ReconcileForgetsOrder(products: seq<Observation>, products': seq<Observation>,
                              supports: seq<Observation>, supports': seq<Observation>)
    requires multiset(products) == multiset(products') && Telling(multiset(products), IdentityOf)
    requires multiset(supports) == multiset(supports') && Telling(multiset(supports), IdentityOf)
    ensures Reconciled(products, supports) == Reconciled(products', supports')
  {
    SortForgetsOrder(products, products', IdentityOf);
    SortForgetsOrder(supports, supports', IdentityOf);
  }

  // ---------------------------------------------------------------- counting records

  function Naming(id: string): Record -> bool {
    (r: Record) => r.supportIdentity == Some(id)
  }

  function Named(id: string): Observation -> bool {
    (o: Observation) => o.identity == id
  }

  function ListedAs(listing: (string, Option<string>)): Record -> bool {
    (r: Record) => r.relationship == CatalogueOnly && (r.region, Or(r.baseModel, r.regionalSku)) == listing
  }

  lemma {:induction false} CountBag<T>(s: seq<T>, t: seq<T>, p: T -> bool)
    requires multiset(s) == multiset(t)
    ensures Count(s, p) == Count(t, p)
    decreases |s|
  {
    if s == [] {
      assert |t| == |multiset(t)| == 0;
    } else {
      var x := s[|s| - 1];
      assert x in multiset(t);
      var i :| 0 <= i < |t| && t[i] == x;
      var rest := t[..i] + t[i + 1..];
      assert t == t[..i] + [x] + t[i + 1..];
      DropLast(s);
      assert multiset(t) == multiset(rest) + multiset{x};
      assert multiset(rest) == multiset(t) - multiset{x};
      CountBag(s[..|s| - 1], rest, p);
      FilterConcat(t[..i], t[i + 1..], p);
      FilterConcat(t[..i] + [x], t[i + 1..], p);
      FilterAppend(t[..i], x, p);
    }
  }

  lemma {:induction false} SupportRecordsName(supports: seq<Observation>, index: map<Place, Observation>,
                                              bases: set<Option<string>>, id: string)
    ensures Count(SupportRecords(supports, index, bases), Naming(id)) == Count(supports, Named(id))
  {
    if supports != [] {
      var front := supports[..|supports| - 1];
      SupportRecordsName(front, index, bases, id);
      var all := SupportRecords(supports, index, bases);
      assert all[..|all| - 1] == SupportRecords(front, index, bases);
    }
  }

  lemma {:induction false} UncoveredNamesNothing(products: seq<Observation>, covered: set<Place>)
    ensures forall i :: 0 <= i < |Uncovered(products, covered)| ==>
              && Uncovered(products, covered)[i].supportIdentity == None
              && Uncovered(products, covered)[i].relationship == CatalogueOnly
  {
    if products != [] { UncoveredNamesNothing(products[..|products| - 1], covered); }
  }

  lemma {:induction false} UncoveredLists(products: seq<Observation>, covered: set<Place>, listing: (string, Option<string>))
    ensures Count(Uncovered(products, covered), ListedAs(listing)) ==
            if listing in Listings(products) && !Covers(covered, listing) then 1 else 0
  {
    if products != [] {
      var front, last := products[..|products| - 1], products[|products| - 1];
      assert products == front + [last];
      UncoveredLists(front, covered, listing);
      assert Listings(products) == Listings(front) + {ListingOf(last)};
      var before := Uncovered(front, covered);
      FilterAppend(before, CatalogueRecord(last), ListedAs(listing));
      assert Uncovered(products, covered) ==
             if ListingOf(last) in Listings(front) || Covers(covered, ListingOf(last)) then before
             else before + [CatalogueRecord(last)];
    }
  }

  /** Counting over the result is counting over its two parts. */
  lemma CountReconciled(products: seq<Observation>, supports: seq<Observation>, p: Record -> bool)
    ensures var ps, ss := SortBy(products, IdentityOf), SortBy(supports, IdentityOf);
            Count(Reconciled(products, supports), p) ==
            Count(SupportRecords(ss, ExactIndex(ps), GlobalBases(ps)), p) + Count(Uncovered(ps, CoveredBases(ss)), p)
  {
    var ps, ss := SortBy(products, IdentityOf), SortBy(supports, IdentityOf);
    SortBySorts(Unsorted(ps, ss), RecordKey);
    CountBag(Reconciled(products, supports), Unsorted(ps, ss), p);
    FilterConcat(SupportRecords(ss, ExactIndex(ps), GlobalBases(ps)), Uncovered(ps, CoveredBases(ss)), p);
  }

  /** Every support observation gets exactly one record. */
  lemma OneRecordPerSupport(products: seq<Observation>, supports: seq<Observation>, id: string)
    ensures Count(Reconciled(products, supports), Naming(id)) == Count(supports, Named(id))
  {
    var ps, ss := SortBy(products, IdentityOf), SortBy(supports, IdentityOf);
    CountReconciled(products, supports, Naming(id));
    SupportRecordsName(ss, ExactIndex(ps), GlobalBases(ps), id);
    UncoveredNamesNothing(ps, CoveredBases(ss));
    CountNone(Uncovered(ps, CoveredBases(ss)), Naming(id));
    SortBySorts(supports, IdentityOf);
    CountBag(ss, supports, Named(id));
  }

  lemma SortKeepsMembers<T>(s: seq<T>, key: T -> string)
    ensures forall x :: x in SortBy(s, key) <==> x in s
  {
    SortBySorts(s, key);
    forall x ensures x in SortBy(s, key) <==> x in s {
      assert x in multiset(SortBy(s, key)) <==> x in multiset(s);
    }
  }

  /** Some known support page covers the listing. */
  ghost predicate CoveredBy(supports: seq<Observation>, listing: (string, Option<string>)) {
    exists s :: s in supports && Known(s) && Truthy(s.facts.modelNumber)
                && s.facts.region == Some(listing.0) && s.facts.modelNumber == listing.1
  }

  /** There is one CATALOGUE_ONLY record for each product listing no known support page covers, and none
      for any other. */
  lemma OneRecordPerUncoveredListing(products: seq<Observation>, supports: seq<Observation>, listing: (string, Option<string>))
    ensures Count(Reconciled(products, supports), ListedAs(listing)) ==
            if (exists p :: p in products && ListingOf(p) == listing) && !CoveredBy(supports, listing) then 1 else 0
  {
    var ps, ss := SortBy(products, IdentityOf), SortBy(supports, IdentityOf);
    CountReconciled(products, supports, ListedAs(listing));
    CountNone(SupportRecords(ss, ExactIndex(ps), GlobalBases(ps)), ListedAs(listing));
    UncoveredLists(ps, CoveredBases(ss), listing);
    SortKeepsMembers(products, IdentityOf);
    ListingsAreExact(ps, products, listing);
    SortKeepsMembers(supports, IdentityOf);
    CoverIsExact(ss, supports, listing);
  }

  lemma ListingsAreExact(ps: seq<Observation>, products: seq<Observation>, listing: (string, Option<string>))
    requires forall x :: x in ps <==> x in products
    ensures listing in Listings(ps) <==> exists p :: p in products && ListingOf(p) == listing
  {
  }

  lemma CoverIsExact(ss: seq<Observation>, supports: seq<Observation>, listing: (string, Option<string>))
    requires forall x :: x in ss <==> x in supports
    ensures Covers(CoveredBases(ss), listing) <==> CoveredBy(supports, listing)
  {
  }

  // ---------------------------------------------------------------- what a support record says

  ghost predicate Matches(p: Observation, s: Observation) {
    Truthy(p.facts.regionalModelNumber) && SkuPlace(p) == SkuPlace(s)
  }

  lemma {:induction false} IndexIsExact(products: seq<Observation>, s: Observation)
    ensures SkuPlace(s) in ExactIndex(products) <==> exists p :: p in products && Matches(p, s)
    ensures SkuPlace(s) in ExactIndex(products) ==>
              ExactIndex(products)[SkuPlace(s)] in products && Matches(ExactIndex(products)[SkuPlace(s)], s)
  {
    if products != [] {
      var front, last := products[..|products| - 1], products[|products| - 1];
      assert products == front + [last];
      IndexIsExact(front, s);
      assert last in products;
    }
  }

  ghost predicate Describes(r: Record, s: Observation, products: seq<Observation>) {
    && r.supportIdentity == Some(s.identity) && r.region == RegionOf(s)
    && r.baseModel == s.facts.modelNumber && r.regionalSku == s.facts.regionalModelNumber
    && r.supportObservedAt == Some(s.observedAt)
    && (r.relationship == AmbiguousSupportOnly <==> !Known(s))
    && (r.productIdentity.Some? <==> exists p :: p in products && Matches(p, s))
    && (r.productIdentity.Some? ==> exists p :: p in products && Matches(p, s) && r.productIdentity == Some(p.identity))
    && (r.relationship == CatalogueAndSupport <==> Known(s) && r.productIdentity.Some?)
    && (r.relationship == SupportOnlyBaseModel <==>
          Known(s) && r.productIdentity.None?
          && forall p :: p in products && Truthy(p.facts.modelNumber) ==> p.facts.modelNumber != s.facts.modelNumber)
    && r.relationship != CatalogueOnly
  }

  /** Every record that names a support page says how that page relates to the catalogue. */
  lemma SupportRecordsTellTheTruth(products: seq<Observation>, supports: seq<Observation>, r: Record)
    requires r in Reconciled(products, supports) && r.supportIdentity.Some?
    ensures exists s :: s in supports && Describes(r, s, products)
  {
    var ps, ss := SortBy(products, IdentityOf), SortBy(supports, IdentityOf);
    SortKeepsMembers(Unsorted(ps, ss), RecordKey);
    SortKeepsMembers(products, IdentityOf);
    SortKeepsMembers(supports, IdentityOf);
    UncoveredNamesNothing(ps, CoveredBases(ss));
    var joined := SupportRecords(ss, ExactIndex(ps), GlobalBases(ps));
    assert r in joined;
    var i :| 0 <= i < |joined| && joined[i] == r;
    IndexIsExact(ps, ss[i]);
    assert ss[i] in ss;
    RecordDescribes(ps, ss[i]);
    DescribesSameMembers(r, ss[i], ps, products);
  }

  lemma RecordDescribes(products: seq<Observation>, s: Observation)
    ensures Describes(SupportRecord(s, Find(ExactIndex(products), SkuPlace(s)), GlobalBases(products)), s, products)
  {
    IndexIsExact(products, s);
  }

  lemma DescribesSameMembers(r: Record, s: Observation, ps: seq<Observation>, products: seq<Observation>)
    requires Describes(r, s, ps) && forall x :: x in ps <==> x in products
    ensures Describes(r, s, products)
  {
  }

  /** And every support observation has a record that does. */
  lemma SupportIsRecorded(products: seq<Observation>, supports: seq<Observation>, s: Observation)
    requires s in supports
    ensures exists i :: 0 <= i < |Reconciled(products, supports)| && Describes(Reconciled(products, supports)[i], s, products)
  {
    var ps, ss := SortBy(products, IdentityOf), SortBy(supports, IdentityOf);
    SortKeepsMembers(Unsorted(ps, ss), RecordKey);
    SortKeepsMembers(products, IdentityOf);
    SortKeepsMembers(supports, IdentityOf);
    assert s in ss;
    var k :| 0 <= k < |ss| && ss[k] == s;
    var r := SupportRecord(s, Find(ExactIndex(ps), SkuPlace(s)), GlobalBases(ps));
    assert SupportRecords(ss, ExactIndex(ps), GlobalBases(ps))[k] == r;
    assert Unsorted(ps, ss)[k] == r;
    RecordDescribes(ps, s);
    DescribesSameMembers(r, s, ps, products);
    assert r in Reconciled(products, supports);
  }

  // ---------------------------------------------------------------- matched products

  /** When does a product whose SKU a known support page carries in the same region stay off the
      CATALOGUE_ONLY list?  Exactly when some known page covers its listing; a region and a base model that
      both sides share are enough. */
  lemma MatchedProductIsNotCatalogueOnly(products: seq<Observation>, supports: seq<Observation>, p: Observation, s: Observation)
    requires p in products && s in supports && Known(s) && Matches(p, s)
    ensures Count(Reconciled(products, supports), ListedAs(ListingOf(p))) == 0 <==> CoveredBy(supports, ListingOf(p))
    ensures Truthy(p.facts.region) && Truthy(p.facts.modelNumber) && p.facts.modelNumber == s.facts.modelNumber ==>
              Count(Reconciled(products, supports), ListedAs(ListingOf(p))) == 0
  {
    OneRecordPerUncoveredListing(products, supports, ListingOf(p));
  }

  /** Without the base model on the support side the same SKU in the same region is listed twice: once as
      CATALOGUE_AND_SUPPORT and once as CATALOGUE_ONLY. */
  lemma MatchedProductCanBeCatalogueOnly(p: Observation, s: Observation)
    requires Known(s) && Matches(p, s) && !Truthy(s.facts.modelNumber)
    ensures Count(Reconciled([p], [s]), ListedAs(ListingOf(p))) == 1
    ensures Count(Reconciled([p], [s]), Naming(s.identity)) == 1
  {
    OneRecordPerUncoveredListing([p], [s], ListingOf(p));
    OneRecordPerSupport([p], [s], s.identity);
    assert p in [p];
    FilterAppend([], s, Named(s.identity));
    assert [s] == [] + [s];
  }
}
