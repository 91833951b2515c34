/**
 The observation archive: runs, the observations of each healthy run, and discoveries.  What save_run and
 last_healthy_catalogue of core/store.py do to it, and the story an epoch's discoveries tell.  Ids are
 positions; `observations[r]` groups the observation rows of run `r`.
 */
module RunArchive {
  import opened Common
  import opened Models
  import opened Health
  import opened Diff
  import opened Qualification

  datatype RunError = CollectorRaised | WrongCollectorName | DuplicateIdentities | Unhealthy(reason: HealthError) | StoreFailed

  datatype RunRow = RunRow(
    collector: string, startedAt: Instant, finishedAt: Instant, healthy: bool, observationCount: nat,
    warning: bool, error: Option<RunError>, discoveryCount: nat, execution: Option<nat>, trigger: Trigger,
    epoch: Option<nat>, material: Option<Material>)

  datatype DiscoveryRow = DiscoveryRow(run: nat, discovery: Discovery)

  datatype Archive = Archive(runs: seq<RunRow>, observations: seq<seq<Observation>>, discoveries: seq<DiscoveryRow>)

  const EMPTY_ARCHIVE := Archive([], [], [])

  // ---------------------------------------------------------------- reading

  function Identities(obs: seq<Observation>): set<string> {
    set o | o in obs :: o.identity
  }

  predicate UniqueIdentities(obs: seq<Observation>) {
    forall i, j :: 0 <= i < j < |obs| ==> obs[i].identity != obs[j].identity
  }

  /** {item.identity: item for item in observations}. */
  function CatalogueOf(obs: seq<Observation>): (c: Catalogue)
    ensures Filed(c)
    ensures forall id :: id in c ==> c[id] in obs
  {
    if obs == [] then map[] else CatalogueOf(obs[..|obs| - 1])[obs[|obs| - 1].identity := obs[|obs| - 1]]
  }

  lemma GrowsByOne(c: Catalogue, id: string, o: Observation)
    requires id !in c
    ensures |c[id := o]| == |c| + 1
  {
    assert c[id := o].Keys == c.Keys + {id};
  }

  lemma NotFiled(obs: seq<Observation>, id: string)
    requires forall i :: 0 <= i < |obs| ==> obs[i].identity != id
    ensures id !in CatalogueOf(obs)
  {
  }

  lemma {:induction false} CatalogueSize(obs: seq<Observation>)
    requires UniqueIdentities(obs)
    ensures |CatalogueOf(obs)| == |obs|
  {
    if obs != [] {
      var n := |obs| - 1;
      CatalogueSize(obs[..n]);
      NotFiled(obs[..n], obs[n].identity);
      GrowsByOne(CatalogueOf(obs[..n]), obs[n].identity, obs[n]);
    }
  }

  /** The healthy run the query for the last healthy catalogue finds: the newest one of the collector, in
      the given epoch when one is given. */
  function LastHealthyRun(runs: seq<RunRow>, collector: string, epoch: Option<nat>): (r: Option<nat>)
    ensures r.Some? ==> r.value < |runs|
  {
    if runs == [] then None
    else
      var last := |runs| - 1;
      if runs[last].collector == collector && runs[last].healthy && (epoch.Some? ==> runs[last].epoch == epoch) then Some(last)
      else LastHealthyRun(runs[..last], collector, epoch)
  }

  function LastHealthyCatalogue(a: Archive, collector: string, epoch: Option<nat>): Catalogue {
    match LastHealthyRun(a.runs, collector, epoch)
    case None => map[]
    case Some(r) => if r < |a.observations| then CatalogueOf(a.observations[r]) else map[]
  }

  // ---------------------------------------------------------------- writing

  function RowsFor(run: nat, discoveries: seq<Discovery>): seq<DiscoveryRow> {
    seq(|discoveries|, i requires 0 <= i < |discoveries| => DiscoveryRow(run, discoveries[i]))
  }

  /** One transaction.  Two observations of one identity violate the table's unique key and roll it back. */
  function SaveRun(a: Archive, row: RunRow, obs: seq<Observation>, discoveries: seq<Discovery>): Result<Archive, RunError> {
    if row.healthy && !UniqueIdentities(obs) then Err(StoreFailed)
    else if row.healthy then
      Ok(Archive(a.runs + [row], a.observations + [obs], a.discoveries + RowsFor(|a.runs|, discoveries)))
    else Ok(Archive(a.runs + [row], a.observations + [[]], a.discoveries))
  }

  // ---------------------------------------------------------------- the story of an epoch

  predicate HealthyIn(row: RunRow, collector: string, epoch: nat) {
    row.collector == collector && row.healthy && row.epoch == Some(epoch)
  }

  /** The healthy runs of a collector in an epoch, oldest first. */
  function HealthyRuns(runs: seq<RunRow>, collector: string, epoch: nat): (ids: seq<nat>)
    ensures forall k :: 0 <= k < |ids| ==> ids[k] < |runs| && HealthyIn(runs[ids[k]], collector, epoch)
  {
    if runs == [] then []
    else
      var last := |runs| - 1;
      HealthyRuns(runs[..last], collector, epoch) + if HealthyIn(runs[last], collector, epoch) then [last] else []
  }

  function FoundIn(runs: seq<RunRow>, collector: string, epoch: nat): DiscoveryRow -> bool {
    (d: DiscoveryRow) => d.run < |runs| && runs[d.run].collector == collector && runs[d.run].epoch == Some(epoch)
  }

  function Discoveries(rows: seq<DiscoveryRow>): seq<Discovery> {
    seq(|rows|, i requires 0 <= i < |rows| => rows[i].discovery)
  }

  /** The epoch's stored discoveries, in order. */
  function DiscoveriesIn(a: Archive, collector: string, epoch: nat): seq<Discovery> {
    Discoveries(Filter(a.discoveries, FoundIn(a.runs, collector, epoch)))
  }

  function CatalogueAt(a: Archive, run: nat): Catalogue {
    if run < |a.observations| then CatalogueOf(a.observations[run]) else map[]
  }

  /** The epoch's baseline catalogue with all its discoveries replayed over it. */
  function ReplayedImage(a: Archive, collector: string, epoch: nat): Image
    requires HealthyRuns(a.runs, collector, epoch) != []
  {
    Replay(ImageOf(CatalogueAt(a, HealthyRuns(a.runs, collector, epoch)[0])), DiscoveriesIn(a, collector, epoch))
  }

  function LatestCatalogue(a: Archive, collector: string, epoch: nat): Catalogue
    requires HealthyRuns(a.runs, collector, epoch) != []
  {
    var ids := HealthyRuns(a.runs, collector, epoch);
    CatalogueAt(a, ids[|ids| - 1])
  }

  ghost predicate NewsFree(a: Archive, collector: string, epoch: nat) {
    forall r, id :: r in HealthyRuns(a.runs, collector, epoch) && id in CatalogueAt(a, r) ==> !IsNews(CatalogueAt(a, r)[id].facts)
  }

  ghost predicate Story(a: Archive, collector: string, epoch: nat) {
    if HealthyRuns(a.runs, collector, epoch) == [] then DiscoveriesIn(a, collector, epoch) == []
    else
      var image := ReplayedImage(a, collector, epoch);
      && Agrees(image, LatestCatalogue(a, collector, epoch))
      && (NewsFree(a, collector, epoch) ==> forall id :: id in image ==> !IsNews(image[id].facts))
  }

  ghost predicate Shaped(a: Archive) {
    && |a.observations| == |a.runs|
    && (forall d :: 0 <= d < |a.discoveries| ==> a.discoveries[d].run < |a.runs|)
  }

  /** An epoch without news items replays to its latest catalogue exactly. */
  lemma NewsFreeReplaysExactly(a: Archive, collector: string, epoch: nat)
    requires HealthyRuns(a.runs, collector, epoch) != [] && Story(a, collector, epoch) && NewsFree(a, collector, epoch)
    ensures ReplayedImage(a, collector, epoch) == ImageOf(LatestCatalogue(a, collector, epoch))
  {
  }

  lemma {:induction false} LastHealthyIsNewest(runs: seq<RunRow>, collector: string, epoch: nat)
    ensures var ids := HealthyRuns(runs, collector, epoch);
            LastHealthyRun(runs, collector, Some(epoch)) == if ids == [] then None else Some(ids[|ids| - 1])
  {
    if runs != [] { LastHealthyIsNewest(runs[..|runs| - 1], collector, epoch); }
  }

  // ---------------------------------------------------------------- how a save moves the story

  lemma {:induction false} FilterAgrees<T>(s: seq<T>, p: T -> bool, q: T -> bool)
    requires forall k :: 0 <= k < |s| ==> p(s[k]) == q(s[k])
    ensures Filter(s, p) == Filter(s, q)
  {
    if s != [] { FilterAgrees(s[..|s| - 1], p, q); }
  }

  lemma {:induction false} FilterAll<T>(s: seq<T>, p: T -> bool)
    requires forall k :: 0 <= k < |s| ==> p(s[k])
    ensures Filter(s, p) == s
  {
    if s != [] { FilterAll(s[..|s| - 1], p); }
  }

  /** The discoveries of an epoch after one more run with its own discoveries. */
  lemma DiscoveriesAfter(a: Archive, row: RunRow, found: seq<Discovery>, collector: string, epoch: nat)
    requires Shaped(a)
    ensures var runs, rows := a.runs + [row], RowsFor(|a.runs|, found);
            Discoveries(Filter(a.discoveries + rows, FoundIn(runs, collector, epoch))) ==
            DiscoveriesIn(a, collector, epoch) +
            (if row.collector == collector && row.epoch == Some(epoch) then found else [])
  {
    var runs, rows := a.runs + [row], RowsFor(|a.runs|, found);
    var p := FoundIn(runs, collector, epoch);
    FilterConcat(a.discoveries, rows, p);
    FilterAgrees(a.discoveries, p, FoundIn(a.runs, collector, epoch));
    OwnDiscoveries(a.runs, row, found, collector, epoch);
  }

  lemma OwnDiscoveries(runs: seq<RunRow>, row: RunRow, found: seq<Discovery>, collector: string, epoch: nat)
    ensures Discoveries(Filter(RowsFor(|runs|, found), FoundIn(runs + [row], collector, epoch))) ==
            if row.collector == collector && row.epoch == Some(epoch) then found else []
  {
    var rows, p := RowsFor(|runs|, found), FoundIn(runs + [row], collector, epoch);
    if row.collector == collector && row.epoch == Some(epoch) {
      FilterAll(rows, p);
      assert Discoveries(rows) == found;
    } else {
      CountNone(rows, p);
    }
  }

  lemma HealthyRunsAfter(runs: seq<RunRow>, row: RunRow, collector: string, epoch: nat)
    ensures HealthyRuns(runs + [row], collector, epoch) ==
            HealthyRuns(runs, collector, epoch) + (if HealthyIn(row, collector, epoch) then [|runs|] else [])
  {
    assert (runs + [row])[..|runs|] == runs;
  }

  /** The story of an epoch depends on its own runs and discoveries only. */
  lemma StoryFrame(a: Archive, a': Archive, collector: string, epoch: nat)
    requires Story(a, collector, epoch)
    requires HealthyRuns(a'.runs, collector, epoch) == HealthyRuns(a.runs, collector, epoch)
    requires DiscoveriesIn(a', collector, epoch) == DiscoveriesIn(a, collector, epoch)
    requires forall r :: r in HealthyRuns(a.runs, collector, epoch) ==> CatalogueAt(a', r) == CatalogueAt(a, r)
    ensures Story(a', collector, epoch)
  {
    NewsFreeFrame(a, a', collector, epoch);
    var ids := HealthyRuns(a.runs, collector, epoch);
    if ids != [] {
      assert ids[0] in ids && ids[|ids| - 1] in ids;
      SameImage(a, a', collector, epoch);
    }
  }

  lemma SameImage(a: Archive, a': Archive, collector: string, epoch: nat)
    requires HealthyRuns(a.runs, collector, epoch) != []
    requires HealthyRuns(a'.runs, collector, epoch) == HealthyRuns(a.runs, collector, epoch)
    requires DiscoveriesIn(a', collector, epoch) == DiscoveriesIn(a, collector, epoch)
    requires var ids := HealthyRuns(a.runs, collector, epoch);
             CatalogueAt(a', ids[0]) == CatalogueAt(a, ids[0])
             && CatalogueAt(a', ids[|ids| - 1]) == CatalogueAt(a, ids[|ids| - 1])
    ensures ReplayedImage(a', collector, epoch) == ReplayedImage(a, collector, epoch)
    ensures LatestCatalogue(a', collector, epoch) == LatestCatalogue(a, collector, epoch)
  {
  }

  lemma NewsFreeFrame(a: Archive, a': Archive, collector: string, epoch: nat)
    requires HealthyRuns(a'.runs, collector, epoch) == HealthyRuns(a.runs, collector, epoch)
    requires forall r :: r in HealthyRuns(a.runs, collector, epoch) ==> CatalogueAt(a', r) == CatalogueAt(a, r)
    ensures NewsFree(a', collector, epoch) ==> NewsFree(a, collector, epoch)
  {
    if NewsFree(a', collector, epoch) {
      forall r, id | r in HealthyRuns(a.runs, collector, epoch) && id in CatalogueAt(a, r)
        ensures !IsNews(CatalogueAt(a, r)[id].facts)
      {
        assert id in CatalogueAt(a', r);
      }
    }
  }

  /** A failed run changes nobody's story. */
  lemma FailedRunKeepsStory(a: Archive, row: RunRow, collector: string, epoch: nat)
    requires Shaped(a) && Story(a, collector, epoch) && !row.healthy
    ensures Story(SaveRun(a, row, [], []).value, collector, epoch)
  {
    var a' := SaveRun(a, row, [], []).value;
    HealthyRunsAfter(a.runs, row, collector, epoch);
    DiscoveriesAfter(a, row, [], collector, epoch);
    assert a.discoveries + RowsFor(|a.runs|, []) == a.discoveries;
    SameCatalogues(a, a', collector, epoch);
    StoryFrame(a, a', collector, epoch);
  }

  lemma SameCatalogues(a: Archive, a': Archive, collector: string, epoch: nat)
    requires Shaped(a) && |a.observations| <= |a'.observations| && a'.observations[..|a.observations|] == a.observations
    ensures forall r :: r in HealthyRuns(a.runs, collector, epoch) ==> CatalogueAt(a', r) == CatalogueAt(a, r)
  {
    forall r | r in HealthyRuns(a.runs, collector, epoch) ensures CatalogueAt(a', r) == CatalogueAt(a, r) {
      assert a'.observations[r] == a'.observations[..|a.observations|][r];
    }
  }

  /** What the runner hands to save_run for a healthy run: nothing on the epoch's first, a diff after. */
  ghost predicate FoundByDiff(a: Archive, row: RunRow, obs: seq<Observation>, found: seq<Discovery>, now: Instant) {
    && row.epoch.Some?
    && found == (if HealthyRuns(a.runs, row.collector, row.epoch.value) == [] then []
                 else CatalogueDiff(LatestCatalogue(a, row.collector, row.epoch.value), CatalogueOf(obs), now))
  }

  lemma HealthyRunContinuesStory(a: Archive, row: RunRow, obs: seq<Observation>, found: seq<Discovery>, now: Instant,
                                 collector: string, epoch: nat)
    requires Shaped(a) && Story(a, collector, epoch)
    requires row.healthy && UniqueIdentities(obs) && FoundByDiff(a, row, obs, found, now)
    ensures Story(SaveRun(a, row, obs, found).value, collector, epoch)
  {
    var a' := SaveRun(a, row, obs, found).value;
    HealthyRunsAfter(a.runs, row, collector, epoch);
    DiscoveriesAfter(a, row, found, collector, epoch);
    SameCatalogues(a, a', collector, epoch);
    if !HealthyIn(row, collector, epoch) {
      StoryFrame(a, a', collector, epoch);
    } else if HealthyRuns(a.runs, collector, epoch) == [] {
      StoryBegins(a', |a.runs|, collector, epoch);
    } else {
      var ids, ids' := HealthyRuns(a.runs, collector, epoch), HealthyRuns(a'.runs, collector, epoch);
      assert ids'[0] == ids[0] && ids[0] in ids;
      NewsFreeShrinks(a, a', collector, epoch);
      StoryTurns(a, a', obs, now, collector, epoch);
    }
  }

  /** The first healthy run of an epoch is its baseline. */
  lemma StoryBegins(a: Archive, run: nat, collector: string, epoch: nat)
    requires HealthyRuns(a.runs, collector, epoch) == [run] && DiscoveriesIn(a, collector, epoch) == []
    ensures Story(a, collector, epoch)
  {
    var image := ReplayedImage(a, collector, epoch);
    assert image == ImageOf(CatalogueAt(a, run));
    if NewsFree(a, collector, epoch) {
      forall id | id in image ensures !IsNews(image[id].facts) {
        assert run in HealthyRuns(a.runs, collector, epoch) && id in CatalogueAt(a, run);
      }
    }
  }

  lemma NewsFreeShrinks(a: Archive, a': Archive, collector: string, epoch: nat)
    requires HealthyRuns(a.runs, collector, epoch) != []
    requires exists run :: HealthyRuns(a'.runs, collector, epoch) == HealthyRuns(a.runs, collector, epoch) + [run]
    requires forall r :: r in HealthyRuns(a.runs, collector, epoch) ==> CatalogueAt(a', r) == CatalogueAt(a, r)
    ensures NewsFree(a', collector, epoch) ==>
              && NewsFree(a, collector, epoch)
              && var latest := LatestCatalogue(a', collector, epoch);
                 forall id :: id in latest ==> !IsNews(latest[id].facts)
  {
    var ids, ids' := HealthyRuns(a.runs, collector, epoch), HealthyRuns(a'.runs, collector, epoch);
    if NewsFree(a', collector, epoch) {
      forall r, id | r in ids && id in CatalogueAt(a, r) ensures !IsNews(CatalogueAt(a, r)[id].facts) {
        assert r in ids' && id in CatalogueAt(a', r);
      }
      assert ids'[|ids'| - 1] in ids';
    }
  }

  /** The inductive step: replaying one more diff over an image that agrees with the old catalogue. */
  lemma StoryTurns(a: Archive, a': Archive, obs: seq<Observation>, now: Instant, collector: string, epoch: nat)
    requires HealthyRuns(a.runs, collector, epoch) != [] && HealthyRuns(a'.runs, collector, epoch) != []
    requires Story(a, collector, epoch)
    requires HealthyRuns(a'.runs, collector, epoch)[0] == HealthyRuns(a.runs, collector, epoch)[0]
    requires CatalogueAt(a', HealthyRuns(a.runs, collector, epoch)[0]) == CatalogueAt(a, HealthyRuns(a.runs, collector, epoch)[0])
    requires DiscoveriesIn(a', collector, epoch) ==
             DiscoveriesIn(a, collector, epoch) + CatalogueDiff(LatestCatalogue(a, collector, epoch), CatalogueOf(obs), now)
    requires LatestCatalogue(a', collector, epoch) == CatalogueOf(obs)
    requires NewsFree(a', collector, epoch) ==> NewsFree(a, collector, epoch)
    requires NewsFree(a', collector, epoch) ==> forall id :: id in CatalogueOf(obs) ==> !IsNews(CatalogueOf(obs)[id].facts)
    ensures Story(a', collector, epoch)
  {
    var before, latest := ReplayedImage(a, collector, epoch), LatestCatalogue(a, collector, epoch);
    var step := CatalogueDiff(latest, CatalogueOf(obs), now);
    ReplayConcat(ImageOf(CatalogueAt(a, HealthyRuns(a.runs, collector, epoch)[0])), DiscoveriesIn(a, collector, epoch), step);
    ReplayingTheDiff(before, latest, CatalogueOf(obs), now);
    var after := ReplayedImage(a', collector, epoch);
    if NewsFree(a', collector, epoch) {
      forall id | id in after ensures !IsNews(after[id].facts) {
        if id !in CatalogueOf(obs) {
          ReplayAt(before, step, id);
          LastWordOfTheDiff(latest, CatalogueOf(obs), id, now);
        }
      }
    }
  }
}
