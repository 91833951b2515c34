/**
 Qualification: what identifies a release, the epochs it opens, the terminal evidence it leaves, and the
 gate that reads them.  Models core/qualification.py and the qualification methods of core/store.py.
 */
module Qualification {
  import opened Common

  // ---------------------------------------------------------------- triggers

  /** A normalised trigger: anything that does not spell a known class is Unknown. */
  datatype Trigger = Scheduled | Manual | Unknown

  // ---------------------------------------------------------------- material

  datatype RunScope = ProductionScope | ExperimentalScope | AllScope

  /** The material of a release.  Its identity digest is injective, so the components stand for it. */
  datatype Material = Material(appVersion: Option<string>, configFingerprint: Option<string>, gitRevision: Option<string>,
                               schemaVersion: nat, scope: RunScope)

  predicate Truthy(s: Option<string>) {
    s.Some? && s.value != ""
  }

  function LowerChar(c: char): char {
    if 'A' <= c <= 'Z' then c - 'A' + 'a' else c
  }

  function Lower(s: string): string {
    seq(|s|, i requires 0 <= i < |s| => LowerChar(s[i]))
  }

  predicate Trustworthy(m: Material) {
    Truthy(m.appVersion) && Truthy(m.configFingerprint) && Truthy(m.gitRevision) && Lower(m.gitRevision.value) != "unknown"
  }

  // ---------------------------------------------------------------- the book

  datatype Reason = InitialMaterialIdentity | MaterialIdentityChanged

  datatype EpochRow = EpochRow(
    collector: string, epochId: nat, material: Material, startedAt: Instant, createdBy: nat, trigger: Trigger,
    reason: Reason, previousEpoch: Option<nat>, previousMaterial: Option<Material>)

  datatype EventKind = EpochStarted | Reset | Terminal

  /** The stored components of an event: JSON that decodes to a material, or text that does not decode. */
  datatype Components = Malformed | Parsed(material: Material)

  datatype EventRow = EventRow(
    collector: string, kind: EventKind, execution: nat, epochId: nat, material: Material, components: Components,
    trigger: Trigger, healthy: Option<bool>, previousEpoch: Option<nat>, previousMaterial: Option<Material>, at: Instant)

  /** The two qualification tables, in insertion order. */
  datatype Book = Book(epochs: seq<EpochRow>, events: seq<EventRow>)

  function CurrentEpoch(epochs: seq<EpochRow>, collector: string): Option<EpochRow> {
    if epochs == [] then None
    else if epochs[|epochs| - 1].collector == collector then Some(epochs[|epochs| - 1])
    else CurrentEpoch(epochs[..|epochs| - 1], collector)
  }

  function PreviousEpoch(e: Option<EpochRow>): Option<nat> {
    if e.Some? then Some(e.value.epochId) else None
  }

  function PreviousMaterial(e: Option<EpochRow>): Option<Material> {
    if e.Some? then Some(e.value.material) else None
  }

  /** The call the runner makes before it reads any catalogue. `newId` is a freshly drawn id. */
  function Prepare(b: Book, collector: string, execution: nat, material: Material, trigger: Trigger, at: Instant, newId: nat)
    : (Book, EpochRow)
  {
    var current := CurrentEpoch(b.epochs, collector);
    if current.Some? && current.value.material == material then (b, current.value)
    else
      var reason := if current.None? then InitialMaterialIdentity else MaterialIdentityChanged;
      var epoch := EpochRow(collector, newId, material, at, execution, trigger, reason,
                            PreviousEpoch(current), PreviousMaterial(current));
      var event := EventRow(collector, if current.None? then EpochStarted else Reset, execution, newId, material,
                            Parsed(material), trigger, None, PreviousEpoch(current), PreviousMaterial(current), at);
      (Book(b.epochs + [epoch], b.events + [event]), epoch)
  }

  predicate HasTerminal(events: seq<EventRow>, collector: string, execution: nat) {
    exists i :: 0 <= i < |events| && events[i].collector == collector && events[i].kind == Terminal && events[i].execution == execution
  }

  function TerminalRow(collector: string, execution: nat, epochId: nat, material: Material, trigger: Trigger, healthy: bool,
                       at: Instant): EventRow {
    EventRow(collector, Terminal, execution, epochId, material, Parsed(material), trigger, Some(healthy), None, None, at)
  }

  /** INSERT OR IGNORE: the first terminal of an execution stays. */
  function RecordTerminal(b: Book, row: EventRow): Book {
    if HasTerminal(b.events, row.collector, row.execution) then b else b.(events := b.events + [row])
  }

  // ---------------------------------------------------------------- the gate

  datatype GateReason = NoActiveEpoch | StaleEpoch | MaterialIdentityMismatch | NoTerminalEvidence | UnknownProvenance
                      | MalformedMaterialIdentity | UntrustworthyMaterialIdentity | LatestExecutionUnhealthy
                      | TerminalMaterialIdentityMismatch | Qualified

  datatype Gate = Gate(eligible: bool, reason: GateReason)

  function LatestTerminal(events: seq<EventRow>, collector: string, epochId: nat): Option<EventRow> {
    if events == [] then None
    else
      var e := events[|events| - 1];
      if e.collector == collector && e.kind == Terminal && e.epochId == epochId then Some(e)
      else LatestTerminal(events[..|events| - 1], collector, epochId)
  }

  function QualificationGate(b: Book, collector: string, epochId: Option<nat>, material: Option<Material>): Gate {
    var current := CurrentEpoch(b.epochs, collector);
    if current.None? then Gate(false, NoActiveEpoch)
    else if epochId.Some? && epochId.value != current.value.epochId then Gate(false, StaleEpoch)
    else if material.Some? && material.value != current.value.material then Gate(false, MaterialIdentityMismatch)
    else
      match LatestTerminal(b.events, collector, current.value.epochId)
      case None => Gate(false, NoTerminalEvidence)
      case Some(t) =>
        if t.trigger == Unknown then Gate(false, UnknownProvenance)
        else if t.components.Malformed? then Gate(false, MalformedMaterialIdentity)
        else if !Trustworthy(t.components.material) then Gate(false, UntrustworthyMaterialIdentity)
        else if t.healthy != Some(true) then Gate(false, LatestExecutionUnhealthy)
        else if t.material != current.value.material then Gate(false, TerminalMaterialIdentityMismatch)
        else Gate(true, Qualified)
  }

  // ---------------------------------------------------------------- invariants of the book

  function EpochOf(collector: string): EpochRow -> bool { (e: EpochRow) => e.collector == collector }

  function OpeningOf(collector: string): EventRow -> bool { (e: EventRow) => e.collector == collector && e.kind != Terminal }

  function EventOf(collector: string): EventRow -> bool { (e: EventRow) => e.collector == collector }

  /** A collector's epochs, oldest first. */
  function Epochs(b: Book, collector: string): seq<EpochRow> {
    Filter(b.epochs, EpochOf(collector))
  }

  /** The events that opened them. */
  function Openings(b: Book, collector: string): seq<EventRow> {
    Filter(b.events, OpeningOf(collector))
  }

  ghost predicate Linked(epochs: seq<EpochRow>, k: nat)
    requires k < |epochs|
  {
    if k == 0 then epochs[0].reason == InitialMaterialIdentity && epochs[0].previousEpoch == None && epochs[0].previousMaterial == None
    else
      && epochs[k].reason == MaterialIdentityChanged
      && epochs[k].previousEpoch == Some(epochs[k - 1].epochId) && epochs[k].previousMaterial == Some(epochs[k - 1].material)
      && epochs[k].material != epochs[k - 1].material
  }

  /** One linked chain: each epoch names its predecessor, and neighbours differ in material. */
  ghost predicate Chained(epochs: seq<EpochRow>) {
    forall k :: 0 <= k < |epochs| ==> Linked(epochs, k)
  }

  /** The opening events tell the same story: EPOCH_STARTED once and first, then one RESET an epoch. */
  ghost predicate Opened(epochs: seq<EpochRow>, openings: seq<EventRow>) {
    && |openings| == |epochs|
    && forall k :: 0 <= k < |openings| ==>
         && openings[k].kind == (if k == 0 then EpochStarted else Reset)
         && openings[k].epochId == epochs[k].epochId && openings[k].material == epochs[k].material
         && openings[k].execution == epochs[k].createdBy
  }

  /** A terminal carries the material of an epoch of its own collector. */
  ghost predicate Attested(b: Book, t: EventRow) {
    && t.components == Parsed(t.material)
    && exists k :: 0 <= k < |b.epochs| && b.epochs[k].collector == t.collector && b.epochs[k].epochId == t.epochId
                   && b.epochs[k].material == t.material
  }

  predicate SameSubject(e: EventRow, f: EventRow) {
    e.kind == Terminal && f.kind == Terminal && e.collector == f.collector
  }

  ghost predicate OneTerminalEach(events: seq<EventRow>) {
    forall i, j :: 0 <= i < j < |events| && SameSubject(events[i], events[j]) ==> events[i].execution != events[j].execution
  }

  ghost predicate ChainTold(b: Book, c: string) {
    Chained(Epochs(b, c)) && Opened(Epochs(b, c), Openings(b, c)) && StartsFirst(b, c)
  }

  ghost predicate BookInv(b: Book, drawn: nat) {
    && (forall i, j :: 0 <= i < j < |b.epochs| ==> b.epochs[i].epochId < b.epochs[j].epochId)
    && (forall i :: 0 <= i < |b.epochs| ==> b.epochs[i].epochId < drawn)
    && (forall c: string :: ChainTold(b, c))
    && (forall i :: 0 <= i < |b.events| && b.events[i].kind == Terminal ==> Attested(b, b.events[i]))
    && OneTerminalEach(b.events)
  }

  /** EPOCH_STARTED is the very first thing the book says about a collector. */
  ghost predicate StartsFirst(b: Book, collector: string) {
    var told := Filter(b.events, EventOf(collector));
    && (told != [] ==> told[0].kind == EpochStarted)
    && (told == [] ==> Epochs(b, collector) == [])
  }

  lemma {:induction false} CurrentIsLast(epochs: seq<EpochRow>, collector: string)
    ensures var mine := Filter(epochs, EpochOf(collector));
            CurrentEpoch(epochs, collector) == if mine == [] then None else Some(mine[|mine| - 1])
  {
    if epochs != [] { CurrentIsLast(epochs[..|epochs| - 1], collector); }
  }

  /** One more epoch, opened by one more event. */
  lemma StoryGrows(epochs: seq<EpochRow>, openings: seq<EventRow>, told: seq<EventRow>, epoch: EpochRow, event: EventRow)
    requires Chained(epochs) && Opened(epochs, openings)
    requires told != [] ==> told[0].kind == EpochStarted
    requires told == [] ==> epochs == []
    requires Linked(epochs + [epoch], |epochs|)
    requires event.kind == (if epochs == [] then EpochStarted else Reset)
    requires event.epochId == epoch.epochId && event.material == epoch.material && event.execution == epoch.createdBy
    ensures Chained(epochs + [epoch]) && Opened(epochs + [epoch], openings + [event])
    ensures (told + [event])[0].kind == EpochStarted
  {
    forall k | 0 <= k < |epochs| ensures Linked(epochs + [epoch], k) {
      assert Linked(epochs, k);
    }
  }

  lemma NewEpochLinks(epochs: seq<EpochRow>, current: Option<EpochRow>, epoch: EpochRow)
    requires current == if epochs == [] then None else Some(epochs[|epochs| - 1])
    requires current.Some? ==> current.value.material != epoch.material
    requires epoch.reason == if current.None? then InitialMaterialIdentity else MaterialIdentityChanged
    requires epoch.previousEpoch == PreviousEpoch(current) && epoch.previousMaterial == PreviousMaterial(current)
    ensures Linked(epochs + [epoch], |epochs|)
  {
  }

  lemma OpeningLeavesOthers(b: Book, epoch: EpochRow, event: EventRow, c: string)
    requires ChainTold(b, c) && epoch.collector != c && event.collector != c
    ensures ChainTold(Book(b.epochs + [epoch], b.events + [event]), c)
  {
    FilterAppend(b.epochs, epoch, EpochOf(c));
    FilterAppend(b.events, event, OpeningOf(c));
    FilterAppend(b.events, event, EventOf(c));
  }

  lemma OpeningExtends(b: Book, epoch: EpochRow, event: EventRow, c: string)
    requires ChainTold(b, c) && epoch.collector == c == event.collector && event.kind != Terminal
    requires Linked(Epochs(b, c) + [epoch], |Epochs(b, c)|)
    requires event.kind == (if Epochs(b, c) == [] then EpochStarted else Reset)
    requires event.epochId == epoch.epochId && event.material == epoch.material && event.execution == epoch.createdBy
    ensures ChainTold(Book(b.epochs + [epoch], b.events + [event]), c)
  {
    FilterAppend(b.epochs, epoch, EpochOf(c));
    FilterAppend(b.events, event, OpeningOf(c));
    FilterAppend(b.events, event, EventOf(c));
    StoryGrows(Epochs(b, c), Openings(b, c), Filter(b.events, EventOf(c)), epoch, event);
  }

  lemma PrepareExtendsTheChain(b: Book, collector: string, execution: nat, material: Material, trigger: Trigger,
                               at: Instant, newId: nat, c: string)
    requires ChainTold(b, c)
    ensures ChainTold(Prepare(b, collector, execution, material, trigger, at, newId).0, c)
  {
    var (b', epoch) := Prepare(b, collector, execution, material, trigger, at, newId);
    if b' != b {
      var event := b'.events[|b.events|];
      if c == collector {
        CurrentIsLast(b.epochs, c);
        NewEpochLinks(Epochs(b, c), CurrentEpoch(b.epochs, c), epoch);
        OpeningExtends(b, epoch, event, c);
      } else {
        OpeningLeavesOthers(b, epoch, event, c);
      }
    }
  }

  lemma PrepareKeepsTheBook(b: Book, collector: string, execution: nat, material: Material, trigger: Trigger,
                            at: Instant, drawn: nat)
    requires BookInv(b, drawn)
    ensures BookInv(Prepare(b, collector, execution, material, trigger, at, drawn).0, drawn + 1)
  {
    var b' := Prepare(b, collector, execution, material, trigger, at, drawn).0;
    forall c: string ensures ChainTold(b', c) {
      PrepareExtendsTheChain(b, collector, execution, material, trigger, at, drawn, c);
    }
    forall i | 0 <= i < |b'.events| && b'.events[i].kind == Terminal ensures Attested(b', b'.events[i]) {
      assert Attested(b, b.events[i]);
      var k :| 0 <= k < |b.epochs| && b.epochs[k].collector == b.events[i].collector && b.epochs[k].epochId == b.events[i].epochId
               && b.epochs[k].material == b.events[i].material;
      assert b'.epochs[k] == b.epochs[k];
    }
  }

  /** An epoch is opened exactly when the material is not that of the current one: it is named by the new id and
      carries the run's material, execution, trigger and start; its opening event says the same, and both name
      the epoch before. */
  lemma PrepareIsExact(b: Book, collector: string, execution: nat, material: Material, trigger: Trigger, at: Instant, newId: nat)
    ensures var (b', epoch) := Prepare(b, collector, execution, material, trigger, at, newId);
            var before := CurrentEpoch(b.epochs, collector);
            if before.Some? && before.value.material == material then b' == b && epoch == before.value
            else
              && b'.epochs == b.epochs + [epoch] && |b'.events| == |b.events| + 1 && b'.events[..|b.events|] == b.events
              && epoch.collector == collector && epoch.epochId == newId && epoch.material == material
              && epoch.startedAt == at && epoch.createdBy == execution && epoch.trigger == trigger
              && var e := b'.events[|b.events|];
                 && e.collector == collector && e.execution == execution && e.epochId == newId && e.material == material
                 && e.components == Parsed(material) && e.trigger == trigger && e.healthy == None && e.at == at
                 && match before
                    case None =>
                      && epoch.reason == InitialMaterialIdentity && epoch.previousEpoch == None && epoch.previousMaterial == None
                      && e.kind == EpochStarted && e.previousEpoch == None && e.previousMaterial == None
                    case Some(last) =>
                      && epoch.reason == MaterialIdentityChanged && e.kind == Reset
                      && epoch.previousEpoch == Some(last.epochId) && epoch.previousMaterial == Some(last.material)
                      && e.previousEpoch == Some(last.epochId) && e.previousMaterial == Some(last.material)
  {
  }

  /** The epoch a run gets is the collector's current one and carries the run's material. */
  lemma PrepareGivesTheCurrentEpoch(b: Book, collector: string, execution: nat, material: Material, trigger: Trigger,
                                    at: Instant, newId: nat)
    ensures var (b', epoch) := Prepare(b, collector, execution, material, trigger, at, newId);
            && CurrentEpoch(b'.epochs, collector) == Some(epoch)
            && epoch.material == material && epoch.collector == collector && epoch in b'.epochs
            && (forall c: string :: c != collector ==> CurrentEpoch(b'.epochs, c) == CurrentEpoch(b.epochs, c))
  {
    var (b', epoch) := Prepare(b, collector, execution, material, trigger, at, newId);
    if b' != b {
      assert b'.epochs[..|b.epochs|] == b.epochs;
    } else {
      CurrentIsMember(b.epochs, collector);
    }
  }

  lemma {:induction false} CurrentIsMember(epochs: seq<EpochRow>, collector: string)
    ensures var e := CurrentEpoch(epochs, collector);
            e.Some? ==> e.value in epochs && e.value.collector == collector
  {
    if epochs != [] { CurrentIsMember(epochs[..|epochs| - 1], collector); }
  }

  lemma TerminalKeepsTheChain(b: Book, row: EventRow, c: string)
    requires ChainTold(b, c) && row.kind == Terminal && (row.collector == c ==> Epochs(b, c) != [])
    ensures ChainTold(b.(events := b.events + [row]), c)
  {
    FilterAppend(b.events, row, OpeningOf(c));
    FilterAppend(b.events, row, EventOf(c));
  }

  lemma RecordKeepsTheBook(b: Book, row: EventRow, drawn: nat)
    requires BookInv(b, drawn) && row.kind == Terminal && Attested(b, row) && Epochs(b, row.collector) != []
    ensures BookInv(RecordTerminal(b, row), drawn)
  {
    var b' := RecordTerminal(b, row);
    if b' != b {
      forall c: string ensures ChainTold(b', c) {
        assert ChainTold(b, c);
        TerminalKeepsTheChain(b, row, c);
      }
      forall i | 0 <= i < |b'.events| && b'.events[i].kind == Terminal ensures Attested(b', b'.events[i]) {
        if i < |b.events| { assert Attested(b, b.events[i]); }
      }
    }
  }

  // ---------------------------------------------------------------- what the gate decides

  lemma {:induction false} LatestTerminalIsEvent(events: seq<EventRow>, collector: string, epochId: nat)
    ensures var t := LatestTerminal(events, collector, epochId);
            t.Some? ==> t.value in events && t.value.collector == collector && t.value.kind == Terminal && t.value.epochId == epochId
  {
    if events != [] { LatestTerminalIsEvent(events[..|events| - 1], collector, epochId); }
  }

  /** Each answer of the gate, on any book: the first of these conditions that holds is the reason. */
  lemma GateReasonsAreExact(b: Book, collector: string, epochId: Option<nat>, material: Option<Material>)
    ensures var gate, active := QualificationGate(b, collector, epochId, material), CurrentEpoch(b.epochs, collector);
            && (gate.reason == NoActiveEpoch <==> active.None?)
            && (active.Some? ==>
                  var stale := epochId.Some? && epochId.value != active.value.epochId;
                  var other := material.Some? && material.value != active.value.material;
                  var t := LatestTerminal(b.events, collector, active.value.epochId);
                  && (gate.reason == StaleEpoch <==> stale)
                  && (gate.reason == MaterialIdentityMismatch <==> !stale && other)
                  && (gate.reason == NoTerminalEvidence <==> !stale && !other && t.None?)
                  && (!stale && !other && t.Some? ==> TerminalDecides(gate, t.value, active.value)))
            && (gate.eligible <==> gate.reason == Qualified)
  {
  }

  /** What the gate makes of the latest terminal of the active epoch. */
  ghost predicate TerminalDecides(gate: Gate, t: EventRow, active: EpochRow) {
    var unknown := t.trigger == Unknown;
    var garbled := t.components.Malformed?;
    var untrusted := t.components.Parsed? && !Trustworthy(t.components.material);
    var unhealthy := t.healthy != Some(true);
    && (gate.reason == UnknownProvenance <==> unknown)
    && (gate.reason == MalformedMaterialIdentity <==> !unknown && garbled)
    && (gate.reason == UntrustworthyMaterialIdentity <==> !unknown && untrusted)
    && (gate.reason == LatestExecutionUnhealthy <==> !unknown && !garbled && !untrusted && unhealthy)
    && (gate.reason == TerminalMaterialIdentityMismatch <==>
          !unknown && !garbled && !untrusted && !unhealthy && t.material != active.material)
    && (gate.reason == Qualified <==>
          !unknown && !garbled && !untrusted && !unhealthy && t.material == active.material)
  }

  /** On a book written by the runner the gate is open exactly when the caller names the active epoch and
      material (or leaves them open), the material of the active epoch is trustworthy, and its latest
      terminal is healthy with a known trigger.  The two material contradictions cannot be reported. */
  lemma GateIsExact(b: Book, drawn: nat, collector: string, epochId: Option<nat>, material: Option<Material>)
    requires BookInv(b, drawn)
    ensures var gate, active := QualificationGate(b, collector, epochId, material), CurrentEpoch(b.epochs, collector);
            && gate.reason != TerminalMaterialIdentityMismatch && gate.reason != MalformedMaterialIdentity
            && (gate.eligible <==>
                && active.Some?
                && (epochId == None || epochId == Some(active.value.epochId))
                && (material == None || material == Some(active.value.material))
                && Trustworthy(active.value.material)
                && var t := LatestTerminal(b.events, collector, active.value.epochId);
                   t.Some? && t.value.healthy == Some(true) && t.value.trigger != Unknown)
  {
    var active := CurrentEpoch(b.epochs, collector);
    CurrentIsMember(b.epochs, collector);
    if active.Some? {
      var t := LatestTerminal(b.events, collector, active.value.epochId);
      LatestTerminalIsEvent(b.events, collector, active.value.epochId);
      if t.Some? {
        assert Attested(b, t.value);
        var k :| 0 <= k < |b.epochs| && b.epochs[k].collector == t.value.collector && b.epochs[k].epochId == t.value.epochId
                 && b.epochs[k].material == t.value.material;
        var j :| 0 <= j < |b.epochs| && b.epochs[j] == active.value;
        assert j == k;
      }
    }
  }
}
