/**
 The catalogue diff, and what its discoveries are good for: replayed over the old catalogue they give
 the new one.  Models core/diff.py.
 */
module Diff {
  import opened Common
  import opened Models
  import opened Ordering

  // ---------------------------------------------------------------- one discovery

  function ClassifyChange(before: Facts, after: Facts): ChangeType {
    if before.price != after.price || before.currency != after.currency then PriceChange
    else if before.availability != after.availability then AvailabilityChange
    else if before.firmwareVersion != after.firmwareVersion then FirmwareReleased
    else SpecChanged
  }

  /** EDITORIAL_BY_CLASSIFICATION of classifiers/news.py, with the diff's default. */
  function NewsEditorial(state: Option<string>): (Confidence, EditorialLevel) {
    if state == Some("SMARTWATCH_RELEVANT") then (High, Newsworthy)
    else if state == Some("POSSIBLY_SMARTWATCH_RELEVANT") then (Medium, Monitor)
    else (Low, Noise)
  }

  function Editorial(f: Facts, change: ChangeType): (Confidence, EditorialLevel) {
    if change == NewsItemAppeared then NewsEditorial(f.classificationState)
    else (High, if change == SpecChanged || change == ProductRemoved then Monitor else Newsworthy)
  }

  function MakeDiscovery(item: Observation, change: ChangeType, previous: Option<Comparable>,
                         current: Option<Comparable>, now: Instant): Discovery {
    var (confidence, level) := Editorial(item.facts, change);
    Discovery(item.collector, item.identity, change, confidence, level, item.facts.sourceUrl, previous, current, now)
  }

  function Appeared(item: Observation, now: Instant): Discovery {
    MakeDiscovery(item, if IsNews(item.facts) then NewsItemAppeared else NewDevice, None, Some(ComparableOf(item)), now)
  }

  function Changed(before: Observation, after: Observation, now: Instant): Discovery {
    MakeDiscovery(after, ClassifyChange(before.facts, after.facts), Some(ComparableOf(before)), Some(ComparableOf(after)), now)
  }

  function Removed(item: Observation, now: Instant): Discovery {
    MakeDiscovery(item,
                  if item.facts.sourceKind == Some(PRODUCT_CATALOGUE) || item.facts.sourceKind == Some(SUPPORT)
                  then SourceListingRemoved else ProductRemoved,
                  Some(ComparableOf(item)), None, now)
  }

  // ---------------------------------------------------------------- the diff, identity by identity

  /** What the diff has to say about one identity, if anything. */
  function News(previous: Catalogue, current: Catalogue, id: string, now: Instant): Option<Discovery> {
    if id in current && id !in previous then Some(Appeared(current[id], now))
    else if id in current then
      if ComparableOf(previous[id]) != ComparableOf(current[id]) then Some(Changed(previous[id], current[id], now)) else None
    else if id in previous then
      if IsNews(previous[id].facts) then None else Some(Removed(previous[id], now))
    else None
  }

  /** The discoveries about the given identities, in their order. */
  function NewsOf(previous: Catalogue, current: Catalogue, ids: seq<string>, now: Instant): seq<Discovery> {
    if ids == [] then []
    else
      NewsOf(previous, current, ids[..|ids| - 1], now) +
      match News(previous, current, ids[|ids| - 1], now)
      case None => []
      case Some(d) => [d]
  }

  /** New identities first, then the changed ones, then the gone ones, each group in identity order. */
  function CatalogueDiff(previous: Catalogue, current: Catalogue, now: Instant): seq<Discovery> {
    NewsOf(previous, current,
           SortedKeys(current.Keys - previous.Keys) + SortedKeys(previous.Keys * current.Keys) +
           SortedKeys(previous.Keys - current.Keys), now)
  }

  lemma DiffOrder(previous: set<string>, current: set<string>, added: seq<string>, common: seq<string>, gone: seq<string>)
    requires added == SortedKeys(current - previous) && common == SortedKeys(previous * current)
    requires gone == SortedKeys(previous - current)
    ensures Distinct(added + common + gone)
    ensures forall id :: id in added + common + gone <==> id in current + previous
  {
    SortedAreDistinct(current - previous, added);
    SortedAreDistinct(previous * current, common);
    SortedAreDistinct(previous - current, gone);
    DistinctParts(added, common);
    DistinctParts(added + common, gone);
  }

  lemma {:induction false} NewsOfConcat(previous: Catalogue, current: Catalogue, first: seq<string>, second: seq<string>, now: Instant)
    ensures NewsOf(previous, current, first + second, now) ==
            NewsOf(previous, current, first, now) + NewsOf(previous, current, second, now)
  {
    if second == [] {
      assert first + second == first;
    } else {
      NewsOfConcat(previous, current, first, second[..|second| - 1], now);
      assert (first + second)[..|first + second| - 1] == first + second[..|second| - 1];
    }
  }

  lemma NextNews(previous: Catalogue, current: Catalogue, ids: seq<string>, i: nat, now: Instant)
    requires i < |ids|
    ensures NewsOf(previous, current, ids[..i + 1], now) ==
            NewsOf(previous, current, ids[..i], now) +
            match News(previous, current, ids[i], now) case None => [] case Some(d) => [d]
  {
    assert ids[..i + 1][..i] == ids[..i];
  }

  method AppearedOnes(previous: Catalogue, current: Catalogue, ids: seq<string>, now: Instant) returns (ds: seq<Discovery>)
    requires forall i :: 0 <= i < |ids| ==> ids[i] in current && ids[i] !in previous
    ensures ds == NewsOf(previous, current, ids, now)
  {
    ds := [];
    for i := 0 to |ids|
      invariant ds == NewsOf(previous, current, ids[..i], now)
    {
      NextNews(previous, current, ids, i, now);
      ds := ds + [Appeared(current[ids[i]], now)];
    }
    assert ids[..|ids|] == ids;
  }

  method ChangedOnes(previous: Catalogue, current: Catalogue, ids: seq<string>, now: Instant) returns (ds: seq<Discovery>)
    requires forall i :: 0 <= i < |ids| ==> ids[i] in current && ids[i] in previous
    ensures ds == NewsOf(previous, current, ids, now)
  {
    ds := [];
    for i := 0 to |ids|
      invariant ds == NewsOf(previous, current, ids[..i], now)
    {
      NextNews(previous, current, ids, i, now);
      if ComparableOf(previous[ids[i]]) != ComparableOf(current[ids[i]]) {
        ds := ds + [Changed(previous[ids[i]], current[ids[i]], now)];
      }
    }
    assert ids[..|ids|] == ids;
  }

  method RemovedOnes(previous: Catalogue, current: Catalogue, ids: seq<string>, now: Instant) returns (ds: seq<Discovery>)
    requires forall i :: 0 <= i < |ids| ==> ids[i] !in current && ids[i] in previous
    ensures ds == NewsOf(previous, current, ids, now)
  {
    ds := [];
    for i := 0 to |ids|
      invariant ds == NewsOf(previous, current, ids[..i], now)
    {
      NextNews(previous, current, ids, i, now);
      if !IsNews(previous[ids[i]].facts) {
        ds := ds + [Removed(previous[ids[i]], now)];
      }
    }
    assert ids[..|ids|] == ids;
  }

  /** The three loops of the diff, one after the other. */
  method DiffCatalogues(previous: Catalogue, current: Catalogue, now: Instant) returns (discoveries: seq<Discovery>)
    ensures discoveries == CatalogueDiff(previous, current, now)
  {
    var added, common := SortedKeys(current.Keys - previous.Keys), SortedKeys(previous.Keys * current.Keys);
    var gone := SortedKeys(previous.Keys - current.Keys);
    SortedMembers(current.Keys - previous.Keys, added);
    SortedMembers(previous.Keys * current.Keys, common);
    SortedMembers(previous.Keys - current.Keys, gone);
    var appeared := AppearedOnes(previous, current, added, now);
    var changed := ChangedOnes(previous, current, common, now);
    var removed := RemovedOnes(previous, current, gone, now);
    NewsOfConcat(previous, current, added, common, now);
    NewsOfConcat(previous, current, added + common, gone, now);
    discoveries := appeared + changed + removed;
  }

  lemma SortedMembers(s: set<string>, ids: seq<string>)
    requires ids == SortedKeys(s)
    ensures forall i :: 0 <= i < |ids| ==> ids[i] in s
  {
    forall i | 0 <= i < |ids| ensures ids[i] in s {
      assert ids[i] in ids;
    }
  }

  // ---------------------------------------------------------------- the last word on an identity

  function LastWord(ds: seq<Discovery>, id: string): Option<Discovery> {
    if ds == [] then None
    else if ds[|ds| - 1].identity == id then Some(ds[|ds| - 1])
    else LastWord(ds[..|ds| - 1], id)
  }

  function About(id: string): Discovery -> bool {
    (d: Discovery) => d.identity == id
  }

  function Said(news: Option<Discovery>): seq<Discovery> {
    if news.Some? then [news.value] else []
  }

  lemma NewsNamesItsIdentity(previous: Catalogue, current: Catalogue, id: string, now: Instant)
    requires Filed(previous) && Filed(current)
    ensures News(previous, current, id, now).Some? ==> News(previous, current, id, now).value.identity == id
  {
  }

  lemma SaidIsAbout(before: seq<Discovery>, news: Option<Discovery>, last: string, id: string)
    requires news.Some? ==> news.value.identity == last
    ensures Filter(before + Said(news), About(id)) == Filter(before, About(id)) + if last == id then Said(news) else []
  {
    if news.Some? {
      FilterAppend(before, news.value, About(id));
    } else {
      assert before + [] == before;
    }
  }

  lemma LastIsNew(ids: seq<string>, id: string)
    requires ids != [] && Distinct(ids)
    ensures var front, last := ids[..|ids| - 1], ids[|ids| - 1];
            Distinct(front) && last !in front && (id in ids <==> id in front || id == last)
  {
    assert ids == ids[..|ids| - 1] + [ids[|ids| - 1]];
  }

  lemma {:induction false} NewsOfSpeaksOnce(previous: Catalogue, current: Catalogue, ids: seq<string>, id: string, now: Instant)
    requires Filed(previous) && Filed(current) && Distinct(ids)
    ensures Filter(NewsOf(previous, current, ids, now), About(id)) ==
            if id in ids then Said(News(previous, current, id, now)) else []
  {
    if ids != [] {
      var front, last := ids[..|ids| - 1], ids[|ids| - 1];
      LastIsNew(ids, id);
      NewsOfSpeaksOnce(previous, current, front, id, now);
      NewsNamesItsIdentity(previous, current, last, now);
      SaidIsAbout(NewsOf(previous, current, front, now), News(previous, current, last, now), last, id);
    }
  }

  lemma DistinctParts(first: seq<string>, second: seq<string>)
    requires Distinct(first) && Distinct(second) && forall x :: x in first ==> x !in second
    ensures Distinct(first + second)
  {
    var all := first + second;
    forall i, j | 0 <= i < j < |all| ensures all[i] != all[j] {
      if i < |first| <= j { assert first[i] in first && second[j - |first|] in second; }
    }
  }

  lemma SortedAreDistinct(s: set<string>, ids: seq<string>)
    requires ids == SortedKeys(s)
    ensures Distinct(ids) && forall x :: x in ids <==> x in s
  {
  }

  /** The diff says about every identity exactly what its two observations call for, once, and nothing about
      any other. */
  lemma DiffIsExact(previous: Catalogue, current: Catalogue, id: string, now: Instant)
    requires Filed(previous) && Filed(current)
    ensures Filter(CatalogueDiff(previous, current, now), About(id)) == Said(News(previous, current, id, now))
  {
    var added, common := SortedKeys(current.Keys - previous.Keys), SortedKeys(previous.Keys * current.Keys);
    var gone := SortedKeys(previous.Keys - current.Keys);
    DiffOrder(previous.Keys, current.Keys, added, common, gone);
    NewsOfSpeaksOnce(previous, current, added + common + gone, id, now);
  }

  lemma {:induction false} LastWordIsLast(ds: seq<Discovery>, id: string)
    ensures var about := Filter(ds, About(id));
            LastWord(ds, id) == if about == [] then None else Some(about[|about| - 1])
  {
    if ds != [] { LastWordIsLast(ds[..|ds| - 1], id); }
  }

  lemma LastWordOfTheDiff(previous: Catalogue, current: Catalogue, id: string, now: Instant)
    requires Filed(previous) && Filed(current)
    ensures LastWord(CatalogueDiff(previous, current, now), id) == News(previous, current, id, now)
  {
    DiffIsExact(previous, current, id, now);
    LastWordIsLast(CatalogueDiff(previous, current, now), id);
  }

  // ---------------------------------------------------------------- replay

  type Image = map<string, Comparable>

  function Apply(image: Image, d: Discovery): Image {
    match d.current
    case None => image - {d.identity}
    case Some(c) => image[d.identity := c]
  }

  /** Apply discoveries in order. */
  function Replay(image: Image, ds: seq<Discovery>): Image {
    if ds == [] then image else Apply(Replay(image, ds[..|ds| - 1]), ds[|ds| - 1])
  }

  function Lookup(image: Image, id: string): Option<Comparable> {
    if id in image then Some(image[id]) else None
  }

  function ImageOf(c: Catalogue): Image {
    map id | id in c :: ComparableOf(c[id])
  }

  lemma {:induction false} ReplayAt(image: Image, ds: seq<Discovery>, id: string)
    ensures Lookup(Replay(image, ds), id) ==
            match LastWord(ds, id) case None => Lookup(image, id) case Some(d) => d.current
  {
    if ds != [] { ReplayAt(image, ds[..|ds| - 1], id); }
  }

  lemma {:induction false} ReplayConcat(image: Image, first: seq<Discovery>, second: seq<Discovery>)
    ensures Replay(image, first + second) == Replay(Replay(image, first), second)
  {
    if second == [] {
      assert first + second == first;
    } else {
      var front, last := second[..|second| - 1], second[|second| - 1];
      ReplayConcat(image, first, front);
      assert (first + second)[..|first + second| - 1] == first + front;
    }
  }

  /** The image tells the truth about every identity of the catalogue, and what it holds beyond the
      catalogue are news items that have left a rolling feed. */
  ghost predicate Agrees(image: Image, c: Catalogue) {
    && (forall id :: id in c ==> id in image && image[id] == ComparableOf(c[id]))
    && (forall id :: id in image && id !in c ==> IsNews(image[id].facts))
  }

  /** Replaying a diff over an image of the old catalogue gives an image of the new one. */
  lemma ReplayingTheDiff(image: Image, previous: Catalogue, current: Catalogue, now: Instant)
    requires Filed(previous) && Filed(current) && Agrees(image, previous)
    ensures Agrees(Replay(image, CatalogueDiff(previous, current, now)), current)
  {
    var ds := CatalogueDiff(previous, current, now);
    var after := Replay(image, ds);
    forall id | id in current ensures id in after && after[id] == ComparableOf(current[id]) {
      ReplayAt(image, ds, id);
      LastWordOfTheDiff(previous, current, id, now);
      assert Lookup(after, id) == Some(ComparableOf(current[id]));
    }
    forall id | id in after && id !in current ensures IsNews(after[id].facts) {
      ReplayAt(image, ds, id);
      LastWordOfTheDiff(previous, current, id, now);
      assert Lookup(after, id) == Lookup(image, id);
    }
  }

  // ---------------------------------------------------------------- what a discovery says

  /** An identity the diff has to speak about: one that is new, one whose facts changed, and one that is gone
      and was no news item. */
  predicate Notable(previous: Catalogue, current: Catalogue, id: string) {
    if id in previous && id in current then previous[id].facts != current[id].facts
    else if id in previous then previous[id].facts.sourceClass != Some("official_news")
    else id in current
  }

  /** The change type, told from the two sets of facts. */
  ghost predicate TypeTells(change: ChangeType, before: Option<Facts>, after: Option<Facts>) {
    && (change == NewsItemAppeared <==>
          before.None? && after.Some? && after.value.sourceClass == Some("official_news"))
    && (change == NewDevice <==> before.None? && after.Some? && after.value.sourceClass != Some("official_news"))
    && (change == SourceListingRemoved <==>
          before.Some? && after.None?
          && (before.value.sourceKind == Some("product_catalogue") || before.value.sourceKind == Some("support")))
    && (change == ProductRemoved <==>
          before.Some? && after.None?
          && before.value.sourceKind != Some("product_catalogue") && before.value.sourceKind != Some("support"))
    && (before.Some? && after.Some? ==> ChangeTells(change, before.value, after.value))
    && (before.Some? || after.Some?)
  }

  predicate SamePrice(before: Facts, after: Facts) {
    before.price == after.price && before.currency == after.currency
  }

  ghost predicate ChangeTells(change: ChangeType, before: Facts, after: Facts) {
    && (change == PriceChange <==> !SamePrice(before, after))
    && (change == AvailabilityChange <==> SamePrice(before, after) && before.availability != after.availability)
    && (change == FirmwareReleased <==>
          SamePrice(before, after) && before.availability == after.availability
          && before.firmwareVersion != after.firmwareVersion)
    && (change == SpecChanged <==>
          SamePrice(before, after) && before.availability == after.availability
          && before.firmwareVersion == after.firmwareVersion)
  }

  /** How sure the discovery is and how loud: only news items are ever unsure, and only changes of
      specification and removed products are not worth a message by themselves. */
  ghost predicate LoudnessTells(d: Discovery, facts: Facts) {
    if d.changeType == NewsItemAppeared then
      && (facts.classificationState == Some("SMARTWATCH_RELEVANT") ==> d.confidence == High && d.level == Newsworthy)
      && (facts.classificationState == Some("POSSIBLY_SMARTWATCH_RELEVANT") ==> d.confidence == Medium && d.level == Monitor)
      && (facts.classificationState !in {Some("SMARTWATCH_RELEVANT"), Some("POSSIBLY_SMARTWATCH_RELEVANT")} ==>
            d.confidence == Low && d.level == Noise)
    else
      && d.confidence == High
      && d.level == if d.changeType == SpecChanged || d.changeType == ProductRemoved then Monitor else Newsworthy
  }

  function FactsAt(c: Catalogue, id: string): Option<Facts> {
    if id in c then Some(c[id].facts) else None
  }

  function Evidence(id: string, facts: Option<Facts>): Option<Comparable> {
    if facts.Some? then Some(Comparable(id, facts.value)) else None
  }

  /** The discovery says what happened to its identity, from the newest observation of it. */
  ghost predicate TellsTheChange(d: Discovery, previous: Catalogue, current: Catalogue, now: Instant) {
    var before, after := FactsAt(previous, d.identity), FactsAt(current, d.identity);
    && (before.Some? || after.Some?)
    && var item := if after.Some? then current[d.identity] else previous[d.identity];
    && TypeTells(d.changeType, before, after) && LoudnessTells(d, item.facts)
    && d.previous == Evidence(d.identity, before) && d.current == Evidence(d.identity, after)
    && d.collector == item.collector && d.sourceUrl == item.facts.sourceUrl && d.discoveredAt == now
  }

  lemma NewsTells(previous: Catalogue, current: Catalogue, id: string, now: Instant)
    requires Filed(previous) && Filed(current)
    ensures News(previous, current, id, now).Some? <==> Notable(previous, current, id)
    ensures News(previous, current, id, now).Some? ==>
              var d := News(previous, current, id, now).value;
              d.identity == id && TellsTheChange(d, previous, current, now)
  {
  }

  /** The diff speaks once about each notable identity and about no other, and every discovery says what
      happened: its change type by the first field that differs, its evidence, its source and its level. */
  lemma DiscoveriesTellTheChange(previous: Catalogue, current: Catalogue, now: Instant)
    requires Filed(previous) && Filed(current)
    ensures forall id: string :: Count(CatalogueDiff(previous, current, now), About(id)) == if Notable(previous, current, id) then 1 else 0
    ensures forall d :: d in CatalogueDiff(previous, current, now) ==> TellsTheChange(d, previous, current, now)
  {
    var ds := CatalogueDiff(previous, current, now);
    forall id: string ensures Count(ds, About(id)) == if Notable(previous, current, id) then 1 else 0 {
      DiffIsExact(previous, current, id, now);
      NewsTells(previous, current, id, now);
    }
    forall d | d in ds ensures TellsTheChange(d, previous, current, now) {
      DiffIsExact(previous, current, d.identity, now);
      FilterMember(ds, About(d.identity), d);
      NewsTells(previous, current, d.identity, now);
    }
  }
}
