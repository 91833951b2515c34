/**
 The records of a reconciliation and what each does to its candidate, told field by field from the
 observations and the records themselves.
 */
module SamsungLaws {
  import opened Common
  import opened Models
  import opened Ordering
  import opened Samsung
  import opened Prelaunch

  predicate Given(s: Option<string>) {
    s.Some? && |s.value| > 0
  }

  function Either(a: Option<string>, b: Option<string>): Option<string> {
    if Given(a) then a else b
  }

  function RegionName(o: Observation): string {
    if Given(o.facts.region) then o.facts.region.value else "UNKNOWN"
  }

  /** A support page the classifier is sure about. */
  predicate Sure(s: Observation) {
    s.facts.classificationState == Some("known_smartwatch")
  }

  /** The product has this page's SKU in this page's region. */
  predicate SameSku(p: Observation, s: Observation) {
    Given(p.facts.regionalModelNumber) && p.facts.region == s.facts.region
    && p.facts.regionalModelNumber == s.facts.regionalModelNumber
  }

  predicate SameBase(p: Observation, s: Observation) {
    Given(p.facts.modelNumber) && p.facts.modelNumber == s.facts.modelNumber
  }

  // ---------------------------------------------------------------- the record of a support page

  /** The last of the products with the page's SKU, in identity order, if there is one. */
  ghost predicate NamesTheProduct(name: Option<string>, s: Observation, products: seq<Observation>) {
    match name
    case None => forall p :: p in products ==> !SameSku(p, s)
    case Some(id) =>
      exists p :: p in products && SameSku(p, s) && p.identity == id
                  && forall q :: q in products && SameSku(q, s) ==> LexLeq(q.identity, p.identity)
  }

  ghost predicate RelationTells(r: Relationship, s: Observation, products: seq<Observation>) {
    var matched := exists p :: p in products && SameSku(p, s);
    var based := exists p :: p in products && SameBase(p, s);
    && (r == AmbiguousSupportOnly <==> !Sure(s))
    && (r == CatalogueAndSupport <==> Sure(s) && matched)
    && (r == SupportOnlyRegionalSku <==> Sure(s) && !matched && based)
    && (r == SupportOnlyBaseModel <==> Sure(s) && !matched && !based)
  }

  ghost predicate RecordOf(r: Record, s: Observation, products: seq<Observation>) {
    && r.supportIdentity == Some(s.identity) && r.supportUrl == Some(s.facts.sourceUrl)
    && r.supportObservedAt == Some(s.observedAt) && r.evidence == s.facts.classificationEvidence
    && r.region == RegionName(s) && r.baseModel == s.facts.modelNumber && r.regionalSku == s.facts.regionalModelNumber
    && NamesTheProduct(r.productIdentity, s, products) && RelationTells(r.relationship, s, products)
  }

  /** The last product with the page's SKU. */
  ghost predicate LastWithSku(p: Observation, s: Observation, products: seq<Observation>) {
    p in products && SameSku(p, s) && forall q :: q in products && SameSku(q, s) ==> LexLeq(q.identity, p.identity)
  }

  /** In identity order, what comes last is largest. */
  lemma LastIsLargest(products: seq<Observation>, last: Observation)
    requires products != [] && SortedBy(products, IdentityOf) && last == products[|products| - 1]
    ensures forall q :: q in products ==> LexLeq(q.identity, last.identity)
    ensures SortedBy(products[..|products| - 1], IdentityOf)
  {
    LexReflexive(last.identity);
    forall q | q in products ensures LexLeq(q.identity, last.identity) {
      var i :| 0 <= i < |products| && products[i] == q;
      if i < |products| - 1 { assert LexLeq(IdentityOf(products[i]), IdentityOf(products[|products| - 1])); }
    }
  }

  /** The index keeps the last product of each place. */
  lemma {:induction false} IndexKeepsTheLast(products: seq<Observation>, s: Observation)
    requires SortedBy(products, IdentityOf)
    ensures SkuPlace(s) in ExactIndex(products) ==> LastWithSku(ExactIndex(products)[SkuPlace(s)], s, products)
    ensures SkuPlace(s) !in ExactIndex(products) ==> forall p :: p in products ==> !SameSku(p, s)
  {
    if products != [] {
      var front, last := products[..|products| - 1], products[|products| - 1];
      LastIsLargest(products, last);
      IndexKeepsTheLast(front, s);
      assert forall p :: p in products <==> p in front || p == last;
      assert last in products;
    }
  }

  lemma SupportRecordIsExact(products: seq<Observation>, s: Observation)
    requires SortedBy(products, IdentityOf)
    ensures RecordOf(SupportRecord(s, Find(ExactIndex(products), SkuPlace(s)), GlobalBases(products)), s, products)
  {
    IndexKeepsTheLast(products, s);
    assert s.facts.modelNumber in GlobalBases(products) <==> exists p :: p in products && SameBase(p, s);
  }

  lemma SameProducts(r: Record, s: Observation, ps: seq<Observation>, products: seq<Observation>)
    requires RecordOf(r, s, ps) && forall x :: x in ps <==> x in products
    ensures RecordOf(r, s, products)
  {
  }

  /** Every support page has its record, and every record that names a page is one: page, address, time,
      evidence, region, model and SKU are the page's own, and product and relationship are told from the
      products alone. */
  lemma SupportRecordsAreExact(products: seq<Observation>, supports: seq<Observation>)
    ensures forall s :: s in supports ==> exists r :: r in Reconciled(products, supports) && RecordOf(r, s, products)
    ensures forall r :: r in Reconciled(products, supports) && r.supportIdentity.Some? ==>
              exists s :: s in supports && RecordOf(r, s, products)
  {
    var ps, ss := SortBy(products, IdentityOf), SortBy(supports, IdentityOf);
    SortBySorts(products, IdentityOf);
    SortKeepsMembers(Unsorted(ps, ss), RecordKey);
    SortKeepsMembers(products, IdentityOf);
    SortKeepsMembers(supports, IdentityOf);
    var joined := SupportRecords(ss, ExactIndex(ps), GlobalBases(ps));
    forall i | 0 <= i < |ss| ensures RecordOf(joined[i], ss[i], products) {
      SupportRecordIsExact(ps, ss[i]);
      SameProducts(joined[i], ss[i], ps, products);
    }
    forall s | s in supports ensures exists r :: r in Reconciled(products, supports) && RecordOf(r, s, products) {
      assert s in ss;
      var i :| 0 <= i < |ss| && ss[i] == s;
      assert Unsorted(ps, ss)[i] == joined[i];
      assert joined[i] in Reconciled(products, supports);
    }
    UncoveredNamesNothing(ps, CoveredBases(ss));
    forall r | r in Reconciled(products, supports) && r.supportIdentity.Some?
      ensures exists s :: s in supports && RecordOf(r, s, products)
    {
      assert r in joined;
      var i :| 0 <= i < |joined| && joined[i] == r;
      assert ss[i] in ss;
    }
  }

  // ---------------------------------------------------------------- the record of a listing

  function ListedModel(p: Observation): Option<string> {
    Either(p.facts.modelNumber, p.facts.regionalModelNumber)
  }

  /** A page the classifier is sure about has this region and this model. */
  ghost predicate Supported(region: string, model: Option<string>, supports: seq<Observation>) {
    exists s :: s in supports && Sure(s) && Given(s.facts.modelNumber) && s.facts.region == Some(region)
                && s.facts.modelNumber == model
  }

  /** The record is that of the first product of a listing no page supports. */
  ghost predicate FirstOfListing(r: Record, p: Observation, products: seq<Observation>) {
    && r == Record(CatalogueOnly, RegionName(p), p.facts.modelNumber, p.facts.regionalModelNumber, Some(p.identity),
                   None, None, None, [])
    && p in products
    && forall q :: q in products && RegionName(q) == RegionName(p) && ListedModel(q) == ListedModel(p) ==>
         LexLeq(p.identity, q.identity)
  }

  lemma {:induction false} UncoveredAreFirst(products: seq<Observation>, covered: set<Place>)
    requires SortedBy(products, IdentityOf)
    ensures forall r :: r in Uncovered(products, covered) ==>
              exists p :: FirstOfListing(r, p, products) && !Covers(covered, (RegionName(p), ListedModel(p)))
  {
    if products != [] {
      var front, last := products[..|products| - 1], products[|products| - 1];
      LastIsLargest(products, last);
      UncoveredAreFirst(front, covered);
      assert products == front + [last];
      forall r | r in Uncovered(products, covered)
        ensures exists p :: FirstOfListing(r, p, products) && !Covers(covered, (RegionName(p), ListedModel(p)))
      {
        if r in Uncovered(front, covered) {
          var p :| FirstOfListing(r, p, front) && !Covers(covered, (RegionName(p), ListedModel(p)));
          assert FirstOfListing(r, p, products);
        } else {
          NewListing(front, last);
          assert FirstOfListing(r, last, products);
        }
      }
    }
  }

  lemma NewListing(front: seq<Observation>, last: Observation)
    ensures ListingOf(last) == (RegionName(last), ListedModel(last))
    ensures ListingOf(last) !in Listings(front) ==>
              forall q :: q in front ==> RegionName(q) != RegionName(last) || ListedModel(q) != ListedModel(last)
  {
    forall q | q in front ensures ListingOf(q) in Listings(front) {
    }
  }

  lemma CoverIsSupport(supports: seq<Observation>, region: string, model: Option<string>)
    ensures Covers(CoveredBases(supports), (region, model)) <==> Supported(region, model, supports)
  {
  }

  /** Every record that names no page is of the first product, in identity order, of a listing no page
      supports, and says no more than that product does. */
  lemma ListingRecordsAreExact(products: seq<Observation>, supports: seq<Observation>, r: Record)
    requires r in Reconciled(products, supports) && r.supportIdentity.None?
    ensures exists p :: FirstOfListing(r, p, products) && !Supported(RegionName(p), ListedModel(p), supports)
  {
    var ps, ss := SortBy(products, IdentityOf), SortBy(supports, IdentityOf);
    SortBySorts(products, IdentityOf);
    SortKeepsMembers(Unsorted(ps, ss), RecordKey);
    SortKeepsMembers(products, IdentityOf);
    SortKeepsMembers(supports, IdentityOf);
    assert r in Uncovered(ps, CoveredBases(ss));
    UncoveredAreFirst(ps, CoveredBases(ss));
    var p :| FirstOfListing(r, p, ps) && !Covers(CoveredBases(ss), (RegionName(p), ListedModel(p)));
    CoverIsSupport(ss, RegionName(p), ListedModel(p));
    assert FirstOfListing(r, p, products);
  }

  function Listed(region: string, model: Option<string>): Record -> bool {
    (r: Record) => r.relationship == CatalogueOnly && r.region == region && Either(r.baseModel, r.regionalSku) == model
  }

  lemma ListedProducts(products: seq<Observation>, region: string, model: Option<string>)
    ensures (exists p :: p in products && ListingOf(p) == (region, model)) <==>
            (exists p :: p in products && RegionName(p) == region && ListedModel(p) == model)
  {
    forall p ensures ListingOf(p) == (RegionName(p), ListedModel(p)) {
      NewListing([], p);
    }
  }

  lemma ListedRecords(records: seq<Record>, region: string, model: Option<string>)
    ensures Count(records, Listed(region, model)) == Count(records, ListedAs((region, model)))
  {
    FilterSame(records, Listed(region, model), ListedAs((region, model)));
  }

  lemma SupportedListing(supports: seq<Observation>, region: string, model: Option<string>)
    ensures CoveredBy(supports, (region, model)) <==> Supported(region, model, supports)
  {
  }

  /** And there is exactly one for each such listing of the products, and none for any other region and model. */
  lemma ListingsAreCounted(products: seq<Observation>, supports: seq<Observation>, region: string, model: Option<string>)
    ensures Count(Reconciled(products, supports), Listed(region, model)) ==
            if (exists p :: p in products && RegionName(p) == region && ListedModel(p) == model)
               && !Supported(region, model, supports) then 1 else 0
  {
    OneRecordPerUncoveredListing(products, supports, (region, model));
    ListedRecords(Reconciled(products, supports), region, model);
    ListedProducts(products, region, model);
    SupportedListing(supports, region, model);
  }

  lemma {:induction false} FilterSame<T(!new)>(s: seq<T>, p: T -> bool, q: T -> bool)
    requires forall x :: p(x) == q(x)
    ensures Filter(s, p) == Filter(s, q)
  {
    if s != [] { FilterSame(s[..|s| - 1], p, q); }
  }

  // ---------------------------------------------------------------- the order of the records

  /** Relationship, region, and the first of SKU, base model and product identity that is given. */
  function KeyText(r: Record): string {
    (match r.relationship
     case CatalogueAndSupport => "CATALOGUE_AND_SUPPORT:"
     case SupportOnlyBaseModel => "SUPPORT_ONLY_BASE_MODEL:"
     case SupportOnlyRegionalSku => "SUPPORT_ONLY_REGIONAL_SKU:"
     case CatalogueOnly => "CATALOGUE_ONLY:"
     case AmbiguousSupportOnly => "AMBIGUOUS_SUPPORT_ONLY:")
    + r.region + ":" +
    (if Given(r.regionalSku) then r.regionalSku.value
     else if Given(r.baseModel) then r.baseModel.value
     else if r.productIdentity.Some? then r.productIdentity.value else "None")
  }

  lemma KeyIsText(r: Record)
    ensures RecordKey(r) == KeyText(r)
  {
    match r.relationship
    case CatalogueAndSupport => assert RelationshipText(r.relationship) + ":" == "CATALOGUE_AND_SUPPORT:";
    case SupportOnlyBaseModel => assert RelationshipText(r.relationship) + ":" == "SUPPORT_ONLY_BASE_MODEL:";
    case SupportOnlyRegionalSku => assert RelationshipText(r.relationship) + ":" == "SUPPORT_ONLY_REGIONAL_SKU:";
    case CatalogueOnly => assert RelationshipText(r.relationship) + ":" == "CATALOGUE_ONLY:";
    case AmbiguousSupportOnly => assert RelationshipText(r.relationship) + ":" == "AMBIGUOUS_SUPPORT_ONLY:";
  }

  /** The records come in the order of these texts. */
  lemma RecordsAreOrdered(products: seq<Observation>, supports: seq<Observation>)
    ensures var records := Reconciled(products, supports);
            forall i, j :: 0 <= i < j < |records| ==> LexLeq(KeyText(records[i]), KeyText(records[j]))
  {
    var ps, ss := SortBy(products, IdentityOf), SortBy(supports, IdentityOf);
    SortBySorts(Unsorted(ps, ss), RecordKey);
    var records := Reconciled(products, supports);
    forall i, j | 0 <= i < j < |records| ensures LexLeq(KeyText(records[i]), KeyText(records[j])) {
      KeyIsText(records[i]);
      KeyIsText(records[j]);
      assert LexLeq(RecordKey(records[i]), RecordKey(records[j]));
    }
  }
}
