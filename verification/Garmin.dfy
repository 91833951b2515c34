/**
 The Garmin catalogue crawl and its write-once cache.  Models GarminCatalogueCollector.collect of
 collectors/garmin/catalogue.py, from the parsed JSON-LD of each product page on; the phrase lists and
 patterns that read its texts are an oracle.
 */
module Garmin {
  import opened Common
  import opened Models
  import opened Ordering
  import opened Diff

  const NON_SMARTWATCH := "non_smartwatch"
  const COLLECTOR := "garmin_catalogue"

  /** What a product page says. */
  datatype Entry = Entry(
    url: string, name: string, classification: string, evidence: seq<string>, price: Option<string>,
    currency: Option<string>, details: map<string, string>)

  /** A JSON value as the collector tells them apart.  `Nothing` is an absent key or any value Python takes for
      false; `Scalar` is any other number or true; a list is not empty; the members of an object stand for the
      values it holds. */
  datatype Json = Nothing | Text(text: string) | Object(members: map<string, string>) | List | Scalar

  predicate Truthy(j: Json) {
    !j.Nothing? && j != Text("") && j != Object(map[])
  }

  /** The Product object of a page, and what the phrase lists and patterns find in its texts. */
  datatype Product = Product(name: Json, offers: Json, url: Json)

  datatype Found = Found(classification: string, evidence: seq<string>, details: map<string, string>)

  /** What lies at a product's address: nothing that can be fetched, a page without a Product object, or one
      with it. */
  datatype Page = Unfetched | NoProduct | ProductPage(product: Product, found: Found)

  /** Reading a page gives its entry, an error that stays with the page, or an exception the collector does
      not catch. */
  datatype Reading = Good(entry: Entry) | FetchError | Explodes

  /** `value or default`, where a text is needed; None stands for the exception any other value leads to. */
  function TextOr(j: Json, default: string): Option<string> {
    if !Truthy(j) then Some(default) else if j.Text? then Some(j.text) else None
  }

  /** `value or {}`, where an object is needed. */
  function ObjectOr(j: Json): Option<map<string, string>> {
    if !Truthy(j) then Some(map[]) else if j.Object? then Some(j.members) else None
  }

  function Lookup(m: map<string, string>, key: string): Option<string> {
    if key in m then Some(m[key]) else None
  }

  function ProductUrl(id: string): string {
    "https://www.garmin.com/en-US/p/" + id + "/"
  }

  /** The body of _fetch_one, in its order: only the fetch and the search for the Product object are guarded. */
  function ReadPage(id: string, page: Page): Reading {
    match page
    case Unfetched => FetchError
    case NoProduct => FetchError
    case ProductPage(product, found) =>
      match TextOr(product.name, "")
      case None => Explodes
      case Some(name) =>
        match TextOr(product.url, ProductUrl(id))
        case None => Explodes
        case Some(url) =>
          match ObjectOr(product.offers)
          case None => Explodes
          case Some(offers) =>
            Good(Entry(url, name, found.classification, found.evidence, Lookup(offers, "price"),
                       Lookup(offers, "priceCurrency"), found.details))
  }

  /** A page the collector cannot read: its name or its url is there and no text, or its offers are there and
      no object.  The list form of offers, which schema.org allows, is one of these. */
  predicate Malformed(page: Page) {
    match page
    case ProductPage(p, _) => NoText(p.name) || NoText(p.url) || NoObject(p.offers)
    case _ => false
  }

  /** There, and no text.  Empty texts and empty objects count as absent. */
  predicate NoText(j: Json) {
    match j
    case Object(members) => members != map[]
    case _ => j.List? || j.Scalar?
  }

  predicate NoObject(j: Json) {
    match j
    case Text(text) => text != ""
    case _ => j.List? || j.Scalar?
  }

  /** A text that is there and not empty, or this default. */
  function TextIn(j: Json, default: string): string {
    match j
    case Text(text) => if text == "" then default else text
    case _ => default
  }

  function MemberIn(j: Json, key: string): Option<string> {
    match j
    case Object(members) => if key in members then Some(members[key]) else None
    case _ => None
  }

  type Cache = map<string, Entry>

  /** One crawl: the product ids of the sitemap, what lies at each address, the order in which the fetches
      complete, and whether the cache file can be written at the end. */
  datatype Crawl = Crawl(ids: seq<string>, pages: map<string, Page>, order: seq<string>, startedAt: Instant, savable: bool)

  datatype CrawlResult = CrawlResult(observations: seq<Observation>, newlyFetched: nat, rejected: nat, fetchErrors: nat)

  function PageOf(c: Crawl, id: string): Page {
    if id in c.pages then c.pages[id] else Unfetched
  }

  function Fetch(c: Crawl, id: string): Reading {
    ReadPage(id, PageOf(c, id))
  }

  /** The page at a product's address is there and cannot be read. */
  predicate MalformedAt(c: Crawl, id: string) {
    id in c.pages && Malformed(c.pages[id])
  }

  /** What fetching a product gives: an entry from a page that can be read, with its own texts or their
      defaults, price and currency from its offers, and what was found in the name; an exception from a
      malformed page; and an error that stays with the product from anything else. */
  lemma EntryIsExact(c: Crawl, id: string)
    ensures Fetch(c, id).Good? <==> id in c.pages && c.pages[id].ProductPage? && !Malformed(c.pages[id])
    ensures Fetch(c, id).Explodes? <==> MalformedAt(c, id)
    ensures Fetch(c, id).Good? ==>
              var e, p, found := Fetch(c, id).entry, c.pages[id].product, c.pages[id].found;
              && e.name == TextIn(p.name, "") && e.url == TextIn(p.url, "https://www.garmin.com/en-US/p/" + id + "/")
              && e.price == MemberIn(p.offers, "price") && e.currency == MemberIn(p.offers, "priceCurrency")
              && e.classification == found.classification && e.evidence == found.evidence && e.details == found.details
  {
  }

  function Unread(cache: Cache): string -> bool {
    (id: string) => id !in cache
  }

  function ToFetch(c: Crawl, cache: Cache): seq<string> {
    Filter(c.ids, Unread(cache))
  }

  /** The sitemap names each product once, and the fetches complete in some order of their own. */
  ghost predicate Proper(c: Crawl, cache: Cache) {
    && Distinct(c.ids)
    && multiset(c.order) == multiset(ToFetch(c, cache))
  }

  function IdentityFor(id: string): string {
    "garmin:catalogue:" + id
  }

  function ObservationFor(id: string, e: Entry, startedAt: Instant): Observation {
    Observation(COLLECTOR, IdentityFor(id), startedAt,
                Facts(e.url, Some(PRODUCT_CATALOGUE), Some(PRODUCT_CATALOGUE), None, None, None, Some(e.classification),
                      e.evidence, e.price, e.currency, None, None, e.details["product_name" := e.name]["oem" := "garmin"]))
  }

  /** The observation of an entry says what the entry says, under the product's identity. */
  lemma ObservationTells(id: string, e: Entry, startedAt: Instant)
    ensures var o := ObservationFor(id, e, startedAt);
            && o.collector == "garmin_catalogue" && o.identity == "garmin:catalogue:" + id && o.observedAt == startedAt
            && o.facts.sourceUrl == e.url && o.facts.sourceKind == o.facts.sourceClass == Some("product_catalogue")
            && o.facts.classificationState == Some(e.classification) && o.facts.classificationEvidence == e.evidence
            && o.facts.price == e.price && o.facts.currency == e.currency
            && o.facts.region == o.facts.modelNumber == o.facts.regionalModelNumber == None
            && o.facts.availability == o.facts.firmwareVersion == None
            && "product_name" in o.facts.details && o.facts.details["product_name"] == e.name
            && "oem" in o.facts.details && o.facts.details["oem"] == "garmin"
            && forall key :: key in e.details && key != "product_name" && key != "oem" ==>
                 key in o.facts.details && o.facts.details[key] == e.details[key]
  {
    assert |"product_name"| != |"oem"|;
  }

  function InIdentityOrder(found: Catalogue): seq<Observation> {
    var keys := SortedKeys(found.Keys);
    seq(|keys|, i requires 0 <= i < |keys| => assert keys[i] in keys; found[keys[i]])
  }

  /** The page was read, and is no watch's. */
  function NoWatch(cache: Cache): string -> bool {
    (id: string) => id in cache && cache[id].classification == "non_smartwatch"
  }

  /** How many of the products are no watches, and how many could not be read. */
  ghost predicate Counted(ids: seq<string>, cache: Cache, rejected: nat, errors: nat) {
    rejected == Count(ids, NoWatch(cache)) && errors == Count(ids, Unread(cache))
  }

  lemma NextCounted(ids: seq<string>, cache: Cache, i: nat)
    requires i < |ids|
    ensures forall rejected: nat, errors: nat :: Counted(ids[..i], cache, rejected, errors) ==>
              Counted(ids[..i + 1], cache, rejected + (if NoWatch(cache)(ids[i]) then 1 else 0),
                      errors + (if Unread(cache)(ids[i]) then 1 else 0))
  {
    assert ids[..i + 1] == ids[..i] + [ids[i]];
    FilterAppend(ids[..i], ids[i], NoWatch(cache));
    FilterAppend(ids[..i], ids[i], Unread(cache));
  }

  // ---------------------------------------------------------------- one crawl

  class GarminCatalogueCollector {
    /** The cache file. */
    var cache: Cache

    constructor ()
      ensures cache == map[]
    {
      cache := map[];
    }

    /** None stands for an exception: it leaves the cache file as it was. */
    method Collect(c: Crawl) returns (result: Option<CrawlResult>)
      requires Proper(c, cache)
      modifies this
      ensures result.Some? <==> Completes(c)
      ensures cache == CacheAfter(old(cache), c)
      ensures result.Some? ==>
                && result.value.observations == InIdentityOrder(Listed(c.ids, cache, c.startedAt))
                && result.value.newlyFetched == |ToFetch(c, old(cache))|
                && |Listed(c.ids, cache, c.startedAt)| + result.value.rejected + result.value.fetchErrors == |c.ids|
                && Counted(c.ids, cache, result.value.rejected, result.value.fetchErrors)
    {
      var toFetch := ToFetch(c, cache);
      var fetched, exploded := FetchAll(c);
      if exploded || !c.savable {
        return None;
      }
      cache := cache + fetched;
      var found, rejected, errors := ListAll(c);
      result := Some(CrawlResult(InIdentityOrder(found), |toFetch|, rejected, errors));
    }

    /** Every product of the sitemap is listed, rejected or counted as an error. */
    method ListAll(c: Crawl) returns (found: Catalogue, rejected: nat, errors: nat)
      requires Distinct(c.ids)
      ensures found == Listed(c.ids, cache, c.startedAt)
      ensures |found| + rejected + errors == |c.ids|
      ensures Counted(c.ids, cache, rejected, errors)
    {
      found, rejected, errors := map[], 0, 0;
      for i := 0 to |c.ids|
        invariant found == Listed(c.ids[..i], cache, c.startedAt)
        invariant Counted(c.ids[..i], cache, rejected, errors)
      {
        NextListed(c.ids, cache, c.startedAt, i);
        NextCounted(c.ids, cache, i);
        var id := c.ids[i];
        if id !in cache {
          errors := errors + 1;
        } else if cache[id].classification == NON_SMARTWATCH {
          rejected := rejected + 1;
        } else {
          var o := ObservationFor(id, cache[id], c.startedAt);
          found := found[o.identity := o];
        }
      }
      assert c.ids[..|c.ids|] == c.ids;
      ListedSize(c.ids, cache, c.startedAt, |c.ids|);
    }

    /** The fetches, as they complete; only what was read well is kept. */
    method FetchAll(c: Crawl) returns (fetched: Cache, exploded: bool)
      ensures fetched == Fetched(c, c.order) && exploded == Exploded(c, c.order)
    {
      fetched, exploded := map[], false;
      for i := 0 to |c.order|
        invariant fetched == Fetched(c, c.order[..i]) && exploded == Exploded(c, c.order[..i])
      {
        assert c.order[..i + 1][..i] == c.order[..i];
        match Fetch(c, c.order[i]) {
          case Good(entry) => fetched := fetched[c.order[i] := entry];
          case FetchError =>
          case Explodes => exploded := true;
        }
      }
      assert c.order[..|c.order|] == c.order;
    }
  }

  /** What has been read well after these fetches, in this order. */
  function Fetched(c: Crawl, order: seq<string>): Cache {
    if order == [] then map[]
    else
      var before, id := Fetched(c, order[..|order| - 1]), order[|order| - 1];
      match Fetch(c, id)
      case Good(entry) => before[id := entry]
      case _ => before
  }

  function Exploded(c: Crawl, order: seq<string>): bool {
    order != [] && (Exploded(c, order[..|order| - 1]) || Fetch(c, order[|order| - 1]).Explodes?)
  }

  lemma {:induction false} FetchedIsExact(c: Crawl, order: seq<string>)
    ensures forall id :: id in Fetched(c, order) <==> id in order && Fetch(c, id).Good?
    ensures forall id :: id in Fetched(c, order) ==> Fetched(c, order)[id] == Fetch(c, id).entry
    ensures Exploded(c, order) <==> exists id :: id in order && Fetch(c, id).Explodes?
  {
    if order != [] {
      var front, last := order[..|order| - 1], order[|order| - 1];
      FetchedIsExact(c, front);
      assert order == front + [last];
    }
  }

  /** Two orders of the same fetches read the same entries and meet the same exception or none. */
  lemma FetchOrderNeverShows(c: Crawl, d: Crawl, first: seq<string>, second: seq<string>)
    requires multiset(first) == multiset(second) && c.pages == d.pages
    ensures Fetched(c, first) == Fetched(d, second) && Exploded(c, first) == Exploded(d, second)
  {
    FetchedIsExact(c, first);
    FetchedIsExact(d, second);
    forall id ensures id in first <==> id in second {
      assert id in multiset(first) <==> id in multiset(second);
    }
    forall id ensures Fetch(c, id) == Fetch(d, id) {
    }
  }

  lemma OrderCovers(c: Crawl, cache: Cache)
    requires Proper(c, cache)
    ensures forall id :: id in c.order <==> id in c.ids && id !in cache
  {
    forall id ensures id in c.order <==> id in c.ids && id !in cache {
      FilterMember(c.ids, Unread(cache), id);
      assert id in multiset(c.order) <==> id in multiset(ToFetch(c, cache));
    }
  }

  /** No fetch explodes, and the cache file can be written. */
  predicate Completes(c: Crawl) {
    c.savable && !Exploded(c, c.order)
  }

  function CacheAfter(cache: Cache, c: Crawl): Cache {
    if Completes(c) then cache + Fetched(c, c.order) else cache
  }

  /** The observations of the given products that a cache supports. */
  function Listed(ids: seq<string>, cache: Cache, startedAt: Instant): (found: Catalogue)
    ensures Filed(found)
  {
    if ids == [] then map[]
    else
      var before, id := Listed(ids[..|ids| - 1], cache, startedAt), ids[|ids| - 1];
      if id !in cache || cache[id].classification == NON_SMARTWATCH then before
      else before[IdentityFor(id) := ObservationFor(id, cache[id], startedAt)]
  }

  lemma SameIdentity(a: string, b: string)
    requires IdentityFor(a) == IdentityFor(b)
    ensures a == b
  {
    assert a == IdentityFor(a)[|"garmin:catalogue:"|..];
  }

  /** A product is listed exactly when it is in the sitemap and the cache takes it for a watch. */
  lemma {:induction false} ListedIsExact(ids: seq<string>, cache: Cache, startedAt: Instant, key: string)
    ensures key in Listed(ids, cache, startedAt) <==>
              exists id :: id in ids && key == IdentityFor(id) && id in cache && cache[id].classification != NON_SMARTWATCH
    ensures key in Listed(ids, cache, startedAt) ==>
              exists id :: id in ids && id in cache && key == IdentityFor(id)
                           && Listed(ids, cache, startedAt)[key] == ObservationFor(id, cache[id], startedAt)
  {
    if ids != [] {
      var front, last := ids[..|ids| - 1], ids[|ids| - 1];
      assert ids == front + [last];
      ListedIsExact(front, cache, startedAt, key);
    }
  }

  lemma NextListed(ids: seq<string>, cache: Cache, startedAt: Instant, i: nat)
    requires i < |ids| && Distinct(ids)
    ensures var id, before := ids[i], Listed(ids[..i], cache, startedAt);
            && IdentityFor(id) !in before
            && Listed(ids[..i + 1], cache, startedAt) ==
               if id !in cache || cache[id].classification == NON_SMARTWATCH then before
               else before[IdentityFor(id) := ObservationFor(id, cache[id], startedAt)]
  {
    assert ids[..i + 1][..i] == ids[..i];
    ListedIsExact(ids[..i], cache, startedAt, IdentityFor(ids[i]));
    forall other | other in ids[..i] ensures IdentityFor(other) != IdentityFor(ids[i]) {
      if IdentityFor(other) == IdentityFor(ids[i]) { SameIdentity(other, ids[i]); }
    }
  }

  lemma {:induction false} ListedSize(ids: seq<string>, cache: Cache, startedAt: Instant, n: nat)
    requires n <= |ids| && Distinct(ids)
    ensures |Listed(ids[..n], cache, startedAt)| + Count(ids[..n], NoWatch(cache)) + Count(ids[..n], Unread(cache)) == n
  {
    if n > 0 {
      ListedSize(ids, cache, startedAt, n - 1);
      NextListed(ids, cache, startedAt, n - 1);
      assert ids[..n] == ids[..n - 1] + [ids[n - 1]];
      FilterAppend(ids[..n - 1], ids[n - 1], NoWatch(cache));
      FilterAppend(ids[..n - 1], ids[n - 1], Unread(cache));
      var before, after := Listed(ids[..n - 1], cache, startedAt), Listed(ids[..n], cache, startedAt);
      if after != before { assert after.Keys == before.Keys + {IdentityFor(ids[n - 1])}; }
    }
  }

  // ---------------------------------------------------------------- many crawls

  function CacheOf(history: seq<Crawl>): Cache {
    if history == [] then map[] else CacheAfter(CacheOf(history[..|history| - 1]), history[|history| - 1])
  }

  /** Each crawl fetches what the cache it found did not hold, in an order of its own. */
  ghost predicate ProperHistory(history: seq<Crawl>) {
    history != [] ==>
      && ProperHistory(history[..|history| - 1])
      && Proper(history[|history| - 1], CacheOf(history[..|history| - 1]))
  }

  lemma {:induction false} ProperPrefix(history: seq<Crawl>, more: seq<Crawl>)
    requires ProperHistory(history + more)
    ensures ProperHistory(history)
    decreases |more|
  {
    if more == [] {
      assert history + more == history;
    } else {
      assert (history + more)[..|history + more| - 1] == history + more[..|more| - 1];
      ProperPrefix(history, more[..|more| - 1]);
    }
  }

  /** The reference: one page at a time, ever again until it is first read well. */
  ghost function FirstSuccess(history: seq<Crawl>, id: string): Option<Entry>
    decreases |history|, 0
  {
    if history == [] then None
    else
      var front, last := history[..|history| - 1], history[|history| - 1];
      var before := FirstSuccess(front, id);
      if before.Some? || !Finishes(front, last) || id !in last.ids || !Fetch(last, id).Good? then before
      else Some(Fetch(last, id).entry)
  }

  /** The crawl reads everything it still needs without an exception, and can save. */
  ghost predicate Finishes(front: seq<Crawl>, last: Crawl)
    decreases |front|, 1
  {
    last.savable && forall id :: id in last.ids && FirstSuccess(front, id).None? ==> !Fetch(last, id).Explodes?
  }

  function Find(cache: Cache, id: string): Option<Entry> {
    if id in cache then Some(cache[id]) else None
  }

  ghost predicate Mirrors(cache: Cache, history: seq<Crawl>) {
    forall id :: Find(cache, id) == FirstSuccess(history, id)
  }

  lemma CrawlMirrors(cache: Cache, front: seq<Crawl>, last: Crawl, id: string)
    requires Mirrors(cache, front) && Proper(last, cache)
    ensures Completes(last) <==> Finishes(front, last)
    ensures Find(CacheAfter(cache, last), id) == FirstSuccess(front + [last], id)
  {
    assert (front + [last])[..|front|] == front;
    OrderCovers(last, cache);
    FetchedIsExact(last, last.order);
    forall other ensures other in cache <==> FirstSuccess(front, other).Some? {
      assert Find(cache, other) == FirstSuccess(front, other);
    }
    assert Find(cache, id) == FirstSuccess(front, id);
  }

  /** After any crawls, with whatever failures and in whatever completion orders, the cache holds for every
      product what the one-page-at-a-time crawl read first. */
  lemma {:induction false} CacheIsFirstSuccess(history: seq<Crawl>)
    requires ProperHistory(history)
    ensures Mirrors(CacheOf(history), history)
  {
    if history != [] {
      var front, last := history[..|history| - 1], history[|history| - 1];
      CacheIsFirstSuccess(front);
      assert history == front + [last];
      forall id ensures Find(CacheOf(history), id) == FirstSuccess(history, id) {
        CrawlMirrors(CacheOf(front), front, last, id);
      }
    }
  }

  /** The catalogue the last crawl reports, if it completes. */
  ghost function LastCatalogue(history: seq<Crawl>): Catalogue
    requires history != []
  {
    Listed(history[|history| - 1].ids, CacheOf(history), history[|history| - 1].startedAt)
  }

  /** What the reference crawl would report about one product. */
  ghost predicate Reports(history: seq<Crawl>, key: string, o: Observation)
    requires history != []
  {
    exists id :: id in history[|history| - 1].ids && key == IdentityFor(id) && FirstSuccess(history, id).Some?
                 && FirstSuccess(history, id).value.classification != NON_SMARTWATCH
                 && o == ObservationFor(id, FirstSuccess(history, id).value, history[|history| - 1].startedAt)
  }

  /** Each crawl reports exactly what the reference crawl would. */
  lemma ObservationsAreFirstSuccess(history: seq<Crawl>, key: string)
    requires history != [] && ProperHistory(history)
    ensures key in LastCatalogue(history) <==> exists o :: Reports(history, key, o)
    ensures key in LastCatalogue(history) ==> Reports(history, key, LastCatalogue(history)[key])
  {
    var last, cache := history[|history| - 1], CacheOf(history);
    CacheIsFirstSuccess(history);
    ListedIsExact(last.ids, cache, last.startedAt, key);
    if key in LastCatalogue(history) {
      var id :| id in last.ids && key == IdentityFor(id) && id in cache && cache[id].classification != NON_SMARTWATCH;
      var other :| other in last.ids && other in cache && key == IdentityFor(other)
                   && LastCatalogue(history)[key] == ObservationFor(other, cache[other], last.startedAt);
      SameIdentity(id, other);
      assert Find(cache, id) == FirstSuccess(history, id);
      assert Reports(history, key, LastCatalogue(history)[key]);
    }
    forall o | Reports(history, key, o) ensures key in LastCatalogue(history) {
      var id :| id in last.ids && key == IdentityFor(id) && FirstSuccess(history, id).Some?
                && FirstSuccess(history, id).value.classification != NON_SMARTWATCH
                && o == ObservationFor(id, FirstSuccess(history, id).value, last.startedAt);
      assert Find(cache, id) == FirstSuccess(history, id);
    }
  }

  /** An entry is written once. */
  lemma {:induction false} EntriesAreWrittenOnce(history: seq<Crawl>, more: seq<Crawl>, id: string)
    requires ProperHistory(history + more) && id in CacheOf(history)
    ensures id in CacheOf(history + more) && CacheOf(history + more)[id] == CacheOf(history)[id]
    decreases |more|
  {
    if more == [] {
      assert history + more == history;
    } else {
      var longer := history + more[..|more| - 1];
      assert (history + more)[..|history + more| - 1] == longer;
      EntriesAreWrittenOnce(history, more[..|more| - 1], id);
      OrderCovers(more[|more| - 1], CacheOf(longer));
      FetchedIsExact(more[|more| - 1], more[|more| - 1].order);
    }
  }

  // ---------------------------------------------------------------- with the diff

  ghost predicate OnlyComesAndGoes(ds: seq<Discovery>) {
    forall i :: 0 <= i < |ds| ==> ds[i].changeType == NewDevice || ds[i].changeType == SourceListingRemoved
  }

  /** Catalogues whose common identities look alike, with no news in them, only differ in what comes and
      goes. */
  lemma {:induction false} SteadyFactsOnlyComeAndGo(previous: Catalogue, current: Catalogue, ids: seq<string>, now: Instant)
    requires forall id :: id in previous && id in current ==> ComparableOf(previous[id]) == ComparableOf(current[id])
    requires forall id :: id in previous ==> previous[id].facts.sourceKind == Some(PRODUCT_CATALOGUE)
    requires forall id :: id in current ==> !IsNews(current[id].facts)
    ensures OnlyComesAndGoes(NewsOf(previous, current, ids, now))
  {
    if ids != [] { SteadyFactsOnlyComeAndGo(previous, current, ids[..|ids| - 1], now); }
  }

  lemma ListedFacts(ids: seq<string>, cache: Cache, at: Instant, key: string)
    requires key in Listed(ids, cache, at)
    ensures exists id :: id in cache && key == IdentityFor(id) && Listed(ids, cache, at)[key] == ObservationFor(id, cache[id], at)
  {
    ListedIsExact(ids, cache, at, key);
  }

  lemma ProductCataloguesHaveNoNews()
    ensures PRODUCT_CATALOGUE != OFFICIAL_NEWS
  {
    assert |PRODUCT_CATALOGUE| != |OFFICIAL_NEWS|;
  }

  /** Between any two crawls of any history the diff finds new devices and removed listings and nothing
      else: no price, availability, firmware or specification ever changes. */
  lemma CrawlsOnlyComeAndGo(history: seq<Crawl>, more: seq<Crawl>, now: Instant)
    requires history != [] && ProperHistory(history + more)
    ensures OnlyComesAndGoes(CatalogueDiff(LastCatalogue(history), LastCatalogue(history + more), now))
  {
    var previous, current := LastCatalogue(history), LastCatalogue(history + more);
    var before, after := history[|history| - 1], (history + more)[|history + more| - 1];
    ProductCataloguesHaveNoNews();
    forall key | key in previous && key in current ensures ComparableOf(previous[key]) == ComparableOf(current[key]) {
      ListedFacts(before.ids, CacheOf(history), before.startedAt, key);
      ListedFacts(after.ids, CacheOf(history + more), after.startedAt, key);
      var id :| id in CacheOf(history) && key == IdentityFor(id)
                && previous[key] == ObservationFor(id, CacheOf(history)[id], before.startedAt);
      var other :| other in CacheOf(history + more) && key == IdentityFor(other)
                   && current[key] == ObservationFor(other, CacheOf(history + more)[other], after.startedAt);
      SameIdentity(id, other);
      EntriesAreWrittenOnce(history, more, id);
    }
    forall key | key in previous ensures previous[key].facts.sourceKind == Some(PRODUCT_CATALOGUE) {
      ListedFacts(before.ids, CacheOf(history), before.startedAt, key);
    }
    forall key | key in current ensures !IsNews(current[key].facts) {
      ListedFacts(after.ids, CacheOf(history + more), after.startedAt, key);
    }
    SteadyFactsOnlyComeAndGo(previous, current,
                             SortedKeys(current.Keys - previous.Keys) + SortedKeys(previous.Keys * current.Keys) +
                             SortedKeys(previous.Keys - current.Keys), now);
  }

  // ---------------------------------------------------------------- orders and exceptions

  /** The same crawls, each with its fetches completing in some other order. */
  ghost predicate SameButOrder(history: seq<Crawl>, other: seq<Crawl>) {
    |other| == |history| && forall k :: 0 <= k < |history| ==> other[k] == history[k].(order := other[k].order)
  }

  /** The completion orders of a history never show: not in the cache, not in whether the last crawl
      completes, and not in what it reports. */
  lemma {:induction false} CompletionOrderNeverShows(history: seq<Crawl>, other: seq<Crawl>)
    requires ProperHistory(history) && ProperHistory(other) && SameButOrder(history, other)
    ensures CacheOf(other) == CacheOf(history)
    ensures history != [] ==> (Completes(other[|other| - 1]) <==> Completes(history[|history| - 1]))
    ensures history != [] ==> LastCatalogue(other) == LastCatalogue(history)
  {
    if history != [] {
      var n := |history| - 1;
      CompletionOrderNeverShows(history[..n], other[..n]);
      assert ToFetch(other[n], CacheOf(other[..n])) == ToFetch(history[n], CacheOf(history[..n]));
      FetchOrderNeverShows(other[n], history[n], other[n].order, history[n].order);
    }
  }

  /** A crawl completes exactly if its cache file can be written and no page it still has to read is
      malformed. */
  lemma CompletesExactly(c: Crawl, cache: Cache)
    requires Proper(c, cache)
    ensures Completes(c) <==> c.savable && forall id :: id in c.ids && id !in cache ==> !MalformedAt(c, id)
  {
    OrderCovers(c, cache);
    FetchedIsExact(c, c.order);
    forall id ensures Fetch(c, id).Explodes? <==> MalformedAt(c, id) {
      EntryIsExact(c, id);
    }
  }

  lemma MalformedPageStalls(c: Crawl, cache: Cache, id: string)
    requires Proper(c, cache) && id in c.ids && id !in cache && MalformedAt(c, id)
    ensures !Completes(c) && CacheAfter(cache, c) == cache
  {
    CompletesExactly(c, cache);
  }

  /** So one malformed page stalls the collector: as long as it stays in the sitemap and stays malformed, no
      crawl completes, whatever it has read well, and the cache never grows. */
  lemma {:induction false} OneMalformedPageStallsTheCrawls(history: seq<Crawl>, more: seq<Crawl>, id: string)
    requires ProperHistory(history + more) && id !in CacheOf(history) && StaysMalformed(more, id)
    ensures CacheOf(history + more) == CacheOf(history) && NoneCompletes(more)
    decreases |more|
  {
    if more == [] {
      assert history + more == history;
    } else {
      var longer, last := history + more[..|more| - 1], more[|more| - 1];
      assert (history + more)[..|history + more| - 1] == longer;
      assert StaysMalformed(more[..|more| - 1], id);
      OneMalformedPageStallsTheCrawls(history, more[..|more| - 1], id);
      assert (history + more)[|longer|] == last;
      MalformedPageStalls(last, CacheOf(longer), id);
      NoneCompletesEither(more);
    }
  }

  /** Each of these crawls finds the product in its sitemap and its page malformed. */
  ghost predicate StaysMalformed(crawls: seq<Crawl>, id: string) {
    forall k :: 0 <= k < |crawls| ==> id in crawls[k].ids && MalformedAt(crawls[k], id)
  }

  ghost predicate NoneCompletes(crawls: seq<Crawl>) {
    forall k :: 0 <= k < |crawls| ==> !Completes(crawls[k])
  }

  lemma NoneCompletesEither(crawls: seq<Crawl>)
    requires crawls != [] && NoneCompletes(crawls[..|crawls| - 1]) && !Completes(crawls[|crawls| - 1])
    ensures NoneCompletes(crawls)
  {
    forall k | 0 <= k < |crawls| ensures !Completes(crawls[k]) {
      if k < |crawls| - 1 { assert crawls[..|crawls| - 1][k] == crawls[k]; }
    }
  }

  /** A product whose offers are a list, with everything else as it should be. */
  function OffersList(name: string, found: Found): Page {
    ProductPage(Product(Text(name), List, Nothing), found)
  }

  /** Such a page is enough: a crawl that meets one it has not cached fails and forgets every page it read. */
  lemma OffersListLosesTheCrawl(history: seq<Crawl>, c: Crawl, id: string, name: string, found: Found)
    requires ProperHistory(history + [c]) && id in c.ids && id !in CacheOf(history)
    requires id in c.pages && c.pages[id] == OffersList(name, found)
    ensures !Completes(c) && CacheOf(history + [c]) == CacheOf(history)
  {
    assert MalformedAt(c, id);
    OneMalformedPageStallsTheCrawls(history, [c], id);
    assert [c][0] == c;
  }
}
