/** The life of a model between the master, which trains, publishes and collects
    models, and a worker, which pulls them.

    The master runs training and collection one after the other; every call to
    the blob store, the vector store or the metadata store is one step, and the
    master can give up, or be restarted, between any two steps. The worker's Sync
    and Pull take their steps at any time in between. Model ids are millisecond
    timestamps, assumed to increase from one training to the next. */
module ModelLifecycle {
  import opened Collections
  import opened ModelCollector

  datatype Payload = Users(content: int) | Click(content: int)

  /** A blob that has been created but not closed is `Partial`. */
  datatype File = Partial | Whole(payload: Payload)

  /** Where the master is. `Recorded` is a factor model whose id is in the
      metadata store but not yet in memory; `ClickShown` the reverse. */
  datatype Phase =
    | Idle
    | Indexed(id: int, payload: Payload)
    | Writing(id: int, payload: Payload)
    | Written(id: int, payload: Payload)
    | Recorded(id: int)
    | ClickShown(id: int)
    | Collecting(plan: Plan, models: set<int>)

  /** Where the worker's Pull is for one of the two models. The field with the
      target id is read three times: for the check, to open the blob, and as the
      id to install. */
  datatype Pull =
    | Resting
    | Checked(target: int)
    | Opened(target: int, source: int, payload: Payload)
    | Approved(target: int, source: int, id: int, payload: Payload)

  /** The worker's fields for one model. `raced` tells whether some installation
      so far was based on reads of different target ids. */
  datatype Slot = Slot(latest: int, installedId: int, installed: Option<Payload>, pull: Pull, raced: bool)

  datatype State = State(
    clock: int,
    files: map<int, File>,
    collections: set<int>,
    factorsId: int,
    clickId: int,
    recordedFactors: int,
    recordedClick: int,
    phase: Phase,
    factors: Slot,
    click: Slot,
    written: map<int, Payload>,
    published: seq<int>)

  datatype Which = ForFactors | ForClick

  datatype Step =
    | BeginFactors(id: int, users: int)
    | BeginClick(id: int, model: int)
    | CreateBlob
    | FinishBlob
    | RecordFactors
    | ShowFactors
    | ShowClick
    | RecordClick
    | Abort
    | Restart
    | BeginCollect
    | RemoveBlob(id: int)
    | DropCollection(id: int)
    | SweepBlob(id: int)
    | EndCollect
    | Sync
    | PullCheck(which: Which)
    | PullOpen(which: Which)
    | PullApprove(which: Which)
    | PullInstall(which: Which)
    | PullGiveUp(which: Which)

  const EMPTY_SLOT := Slot(0, 0, None, Resting, false)

  const INITIAL := State(0, map[], {}, 0, 0, 0, 0, Idle, EMPTY_SLOT, EMPTY_SLOT, map[], [])

  function SlotOf(s: State, w: Which): Slot {
    if w == ForFactors then s.factors else s.click
  }

  function WithSlot(s: State, w: Which, slot: Slot): State {
    if w == ForFactors then s.(factors := slot) else s.(click := slot)
  }

  /** The blob that Open and Unmarshal accept for the model. */
  predicate Readable(s: State, w: Which, id: int) {
    id in s.files && s.files[id].Whole? && (s.files[id].payload.Users? <==> w == ForFactors)
  }

  predicate Enabled(s: State, step: Step) {
    match step
    case BeginFactors(id, _) => s.phase.Idle? && id > s.clock
    case BeginClick(id, _) => s.phase.Idle? && id > s.clock
    case CreateBlob => s.phase.Indexed?
    case FinishBlob => s.phase.Writing?
    case RecordFactors => s.phase.Written? && s.phase.payload.Users?
    case ShowFactors => s.phase.Recorded?
    case ShowClick => s.phase.Written? && s.phase.payload.Click?
    case RecordClick => s.phase.ClickShown?
    case Abort => s.phase.Indexed? || s.phase.Writing? || s.phase.Written? || s.phase.ClickShown?
    case Restart => true
    case BeginCollect => s.phase.Idle?
    case RemoveBlob(id) => s.phase.Collecting? && BlobGoesFirst(s.phase.plan, id) && id in s.phase.models
    case DropCollection(id) => s.phase.Collecting? && MayDrop(s.phase.plan, s.phase.models, id)
    case SweepBlob(id) => s.phase.Collecting? && MaySweep(s.phase.plan, s.phase.models, id)
    case EndCollect => s.phase.Collecting?
    case Sync => true
    case PullCheck(w) => SlotOf(s, w).pull.Resting? && SlotOf(s, w).latest > SlotOf(s, w).installedId
    case PullOpen(w) => SlotOf(s, w).pull.Checked? && Readable(s, w, SlotOf(s, w).latest)
    case PullApprove(w) =>
      SlotOf(s, w).pull.Opened? && (w == ForFactors ==> SlotOf(s, w).latest in s.collections)
    case PullInstall(w) => SlotOf(s, w).pull.Approved?
    case PullGiveUp(w) => true
  }

  function Apply(s: State, step: Step): State
    requires Enabled(s, step)
  {
    match step
    case BeginFactors(id, users) =>
      s.(clock := id, collections := s.collections + {id}, phase := Indexed(id, Users(users)))
    case BeginClick(id, model) =>
      s.(clock := id, files := s.files[id := Partial], phase := Writing(id, Click(model)))
    case CreateBlob =>
      s.(files := s.files[s.phase.id := Partial], phase := Writing(s.phase.id, s.phase.payload))
    case FinishBlob =>
      s.(files := s.files[s.phase.id := Whole(s.phase.payload)],
         written := s.written[s.phase.id := s.phase.payload],
         phase := Written(s.phase.id, s.phase.payload))
    case RecordFactors => s.(recordedFactors := s.phase.id, phase := Recorded(s.phase.id))
    case ShowFactors => s.(factorsId := s.phase.id, published := s.published + [s.phase.id], phase := Idle)
    case ShowClick => s.(clickId := s.phase.id, phase := ClickShown(s.phase.id))
    case RecordClick => s.(recordedClick := s.phase.id, phase := Idle)
    case Abort => s.(phase := Idle)
    case Restart =>
      s.(factorsId := s.recordedFactors, clickId := s.recordedClick, phase := Idle,
         published := if s.recordedFactors != s.factorsId then s.published + [s.recordedFactors] else s.published)
    case BeginCollect =>
      s.(phase := Collecting(MakePlan(s.factorsId, s.clickId, s.files.Keys, s.collections), s.files.Keys))
    case RemoveBlob(id) => s.(files := s.files - {id}, phase := s.phase.(models := s.phase.models - {id}))
    case DropCollection(id) => s.(collections := s.collections - {id})
    case SweepBlob(id) => s.(files := s.files - {id})
    case EndCollect => s.(phase := Idle)
    case Sync => s.(factors := s.factors.(latest := s.factorsId), click := s.click.(latest := s.clickId))
    case PullCheck(w) => WithSlot(s, w, Check(SlotOf(s, w)))
    case PullOpen(w) => WithSlot(s, w, Open(SlotOf(s, w), s.files[SlotOf(s, w).latest].payload))
    case PullApprove(w) => WithSlot(s, w, Approve(SlotOf(s, w)))
    case PullInstall(w) => WithSlot(s, w, Install(SlotOf(s, w)))
    case PullGiveUp(w) => WithSlot(s, w, SlotOf(s, w).(pull := Resting))
  }

  function Check(t: Slot): Slot {
    t.(pull := Checked(t.latest))
  }

  function Open(t: Slot, payload: Payload): Slot
    requires t.pull.Checked?
  {
    t.(pull := Opened(t.pull.target, t.latest, payload))
  }

  function Approve(t: Slot): Slot
    requires t.pull.Opened?
  {
    t.(pull := Approved(t.pull.target, t.pull.source, t.latest, t.pull.payload))
  }

  function Install(t: Slot): Slot
    requires t.pull.Approved?
  {
    t.(installedId := t.pull.id, installed := Some(t.pull.payload), pull := Resting,
       raced := t.raced || Races(t.pull))
  }

  /** The three reads of the target id did not agree. */
  predicate Races(p: Pull)
    requires p.Approved?
  {
    !(p.target == p.source == p.id)
  }

  predicate ValidRun(s: State, steps: seq<Step>)
    decreases |steps|
  {
    steps == [] || (Enabled(s, steps[0]) && ValidRun(Apply(s, steps[0]), steps[1..]))
  }

  function After(s: State, steps: seq<Step>): State
    requires ValidRun(s, steps)
    decreases |steps|
  {
    if steps == [] then s else After(Apply(s, steps[0]), steps[1..])
  }

  // ------------------------------------------------------------------
  // What holds in every state of every run
  // ------------------------------------------------------------------

  /** The factor model `id` can be served: it has its collection and its blob. */
  predicate Servable(s: State, id: int) {
    id in s.collections && id in s.files && s.files[id].Whole? && s.files[id].payload.Users?
  }

  predicate ClickServable(s: State, id: int) {
    id in s.files && s.files[id].Whole? && s.files[id].payload.Click?
  }

  predicate IdsBounded(s: State) {
    && (forall id :: id in s.files ==> 0 < id <= s.clock)
    && (forall id :: id in s.collections ==> 0 < id <= s.clock)
    && (forall id :: id in s.written ==> 0 < id <= s.clock)
    && 0 <= s.factorsId <= s.clock && 0 <= s.clickId <= s.clock
    && 0 <= s.recordedClick <= s.clock
  }

  predicate FilesAsWritten(s: State) {
    forall id :: id in s.files && s.files[id].Whole? ==> id in s.written && s.written[id] == s.files[id].payload
  }

  predicate PhaseOk(s: State) {
    match s.phase
    case Idle => true
    case Indexed(id, p) =>
      id == s.clock && id in s.collections && id !in s.files && id !in s.written && p.Users? && id > s.factorsId
    case Writing(id, p) =>
      id == s.clock && id in s.files && id !in s.written && (p.Users? <==> id in s.collections) && id > s.factorsId
    case Written(id, p) =>
      id == s.clock && id in s.files && s.files[id] == Whole(p) && (p.Users? <==> id in s.collections)
        && id > s.factorsId
    case Recorded(id) => id == s.clock && id > s.factorsId && Servable(s, id)
    case ClickShown(id) => id == s.clickId
    case Collecting(p, models) =>
      && p.factorsId == s.factorsId && p.clickId == s.clickId && p.factorsId in p.keep
  }

  predicate FactorsPublished(s: State) {
    && (s.factorsId != 0 ==> Servable(s, s.factorsId))
    && s.recordedFactors == (if s.phase.Recorded? then s.phase.id else s.factorsId)
  }

  predicate SlotOk(written: map<int, Payload>, t: Slot) {
    && (t.pull.Checked? ==> t.pull.target > t.installedId)
    && (t.pull.Opened? ==>
          t.pull.target > t.installedId && t.pull.source in written && written[t.pull.source] == t.pull.payload)
    && (t.pull.Approved? ==>
          t.pull.target > t.installedId && t.pull.source in written && written[t.pull.source] == t.pull.payload)
    && (!t.raced && t.installedId != 0 ==>
          t.installedId in written && t.installed == Some(written[t.installedId]))
  }

  /** Published factor ids only grow, and so do the reads of the worker. */
  predicate ReadsGrow(t: Slot, publishedId: int) {
    && t.latest <= publishedId
    && (t.pull.Checked? ==> t.pull.target <= t.latest)
    && (t.pull.Opened? ==> t.pull.target <= t.pull.source <= t.latest)
    && (t.pull.Approved? ==> t.pull.target <= t.pull.source <= t.pull.id <= t.latest)
  }

  /** A click id that was shown or recorded is that of a click model, and its blob
      is complete for as long as it exists. */
  predicate ClickKnown(s: State, id: int) {
    id != 0 ==> id in s.written && s.written[id].Click? && (id in s.files ==> ClickServable(s, id))
  }

  /** Every id the worker reads is 0 or that of a model that was written. */
  predicate ReadsWritten(written: map<int, Payload>, t: Slot) {
    && t.installedId >= 0
    && (t.installedId != 0 ==> t.installedId in written)
    && (t.latest != 0 ==> t.latest in written)
    && (t.pull.Approved? && t.pull.id != 0 ==> t.pull.id in written)
  }

  predicate SlotsOk(s: State) {
    && SlotOk(s.written, s.factors) && SlotOk(s.written, s.click) && ReadsGrow(s.factors, s.factorsId)
    && ReadsWritten(s.written, s.factors) && ReadsWritten(s.written, s.click)
  }

  predicate Inv(s: State) {
    && IdsBounded(s) && FilesAsWritten(s) && PhaseOk(s) && FactorsPublished(s)
    && ClickKnown(s, s.clickId) && ClickKnown(s, s.recordedClick) && SlotsOk(s)
  }

  predicate IsPull(step: Step) {
    step.PullCheck? || step.PullOpen? || step.PullApprove? || step.PullInstall? || step.PullGiveUp?
  }

  lemma MasterKeepsIds(s: State, step: Step)
    requires Inv(s) && Enabled(s, step) && !IsPull(step)
    ensures IdsBounded(Apply(s, step)) && FilesAsWritten(Apply(s, step))
  {
  }

  lemma MasterKeepsPhase(s: State, step: Step)
    requires Inv(s) && Enabled(s, step) && !IsPull(step)
    ensures PhaseOk(Apply(s, step))
  {
  }

  lemma MasterKeepsFactors(s: State, step: Step)
    requires Inv(s) && Enabled(s, step) && !IsPull(step)
    ensures FactorsPublished(Apply(s, step))
  {
  }

  lemma MasterKeepsClick(s: State, step: Step)
    requires Inv(s) && Enabled(s, step) && !IsPull(step)
    ensures ClickKnown(Apply(s, step), Apply(s, step).clickId)
    ensures ClickKnown(Apply(s, step), Apply(s, step).recordedClick)
  {
  }

  lemma MasterKeepsSlots(s: State, step: Step)
    requires Inv(s) && Enabled(s, step) && !IsPull(step)
    ensures SlotsOk(Apply(s, step))
  {
    MasterExtendsWritten(s, step);
    SlotsStayOk(s, Apply(s, step));
  }

  /** A step of the master or of Sync reads the published ids at most. */
  lemma MasterExtendsWritten(s: State, step: Step)
    requires Inv(s) && Enabled(s, step) && !IsPull(step)
    ensures var s' := Apply(s, step);
      && (forall id :: id in s.written ==> id in s'.written && s'.written[id] == s.written[id])
      && s'.factorsId >= s.factorsId
      && (s'.factors == s.factors || s'.factors == s.factors.(latest := s.factorsId))
      && (s'.click == s.click || s'.click == s.click.(latest := s.clickId))
  {
  }

  lemma SlotsStayOk(s: State, s': State)
    requires SlotsOk(s) && FilesAsWritten(s) && FactorsPublished(s) && ClickKnown(s, s.clickId)
    requires forall id :: id in s.written ==> id in s'.written && s'.written[id] == s.written[id]
    requires s'.factorsId >= s.factorsId
    requires s'.factors == s.factors || s'.factors == s.factors.(latest := s.factorsId)
    requires s'.click == s.click || s'.click == s.click.(latest := s.clickId)
    ensures SlotsOk(s')
  {
    assert s.factorsId != 0 ==> s.factorsId in s.written;
    assert forall t: Slot :: SlotOk(s.written, t) ==> SlotOk(s'.written, t);
  }

  lemma MasterStepKeepsInv(s: State, step: Step)
    requires Inv(s) && Enabled(s, step) && !IsPull(step)
    ensures Inv(Apply(s, step))
  {
    MasterKeepsIds(s, step);
    MasterKeepsPhase(s, step);
    MasterKeepsFactors(s, step);
    MasterKeepsClick(s, step);
    MasterKeepsSlots(s, step);
  }

  /** One step of Pull on one slot. */
  predicate SlotStep(s: State, w: Which, t: Slot, t': Slot) {
    || (t.pull.Resting? && t.latest > t.installedId && t' == Check(t))
    || (t.pull.Checked? && Readable(s, w, t.latest) && t' == Open(t, s.files[t.latest].payload))
    || (t.pull.Opened? && t' == Approve(t))
    || (t.pull.Approved? && t' == Install(t))
    || t' == t.(pull := Resting)
  }

  lemma SlotStepKeepsOk(s: State, w: Which, t: Slot, t': Slot)
    requires FilesAsWritten(s) && SlotOk(s.written, t) && ReadsWritten(s.written, t) && SlotStep(s, w, t, t')
    requires t.pull.Approved? && t' == Install(t) ==> t.pull.id >= 0
    ensures SlotOk(s.written, t') && ReadsWritten(s.written, t')
    ensures forall n :: ReadsGrow(t, n) ==> ReadsGrow(t', n)
  {
  }

  lemma SlotChangeKeepsInv(s: State, w: Which, t: Slot)
    requires Inv(s) && SlotOk(s.written, t) && ReadsWritten(s.written, t)
    requires w == ForFactors ==> ReadsGrow(t, s.factorsId)
    ensures Inv(WithSlot(s, w, t))
  {
  }

  lemma PullStepIsSlotStep(s: State, step: Step)
    requires Enabled(s, step) && IsPull(step)
    ensures var w := step.which; var t' := SlotOf(Apply(s, step), w);
      SlotStep(s, w, SlotOf(s, w), t') && Apply(s, step) == WithSlot(s, w, t')
  {
  }

  lemma PullStepKeepsInv(s: State, step: Step)
    requires Inv(s) && Enabled(s, step) && IsPull(step)
    ensures Inv(Apply(s, step))
  {
    var w := step.which;
    var t' := SlotOf(Apply(s, step), w);
    PullStepIsSlotStep(s, step);
    SlotStepKeepsOk(s, w, SlotOf(s, w), t');
    SlotChangeKeepsInv(s, w, t');
  }

  lemma StepKeepsInv(s: State, step: Step)
    requires Inv(s) && Enabled(s, step)
    ensures Inv(Apply(s, step))
  {
    if IsPull(step) {
      PullStepKeepsInv(s, step);
    } else {
      MasterStepKeepsInv(s, step);
    }
  }

  lemma {:induction false} RunKeepsInv(s: State, steps: seq<Step>)
    requires Inv(s) && ValidRun(s, steps)
    ensures Inv(After(s, steps))
    decreases |steps|
  {
    if steps != [] {
      StepKeepsInv(s, steps[0]);
      RunKeepsInv(Apply(s, steps[0]), steps[1..]);
    }
  }

  /** In every state of every run, with calls failing and the master restarting
      anywhere, the published factor model has its collection and its blob, and
      an installed model comes from the blob of its own id unless the worker's
      reads of the target id have disagreed. */
  lemma PublishedFactorsServable(steps: seq<Step>)
    requires ValidRun(INITIAL, steps)
    ensures var s := After(INITIAL, steps);
      && (s.factorsId != 0 ==> Servable(s, s.factorsId))
      && (forall w: Which :: var t := SlotOf(s, w);
            !t.raced && t.installedId != 0 ==>
              t.installedId in s.written && t.installed == Some(s.written[t.installedId]))
  {
    RunKeepsInv(INITIAL, steps);
  }

  /** The installed factor model never gets older, not even when the reads race; the
      installed click model gets older exactly when the id to install is read after
      the target has dropped below the installed one. */
  lemma InstalledIdGrows(s: State, step: Step)
    requires Inv(s) && Enabled(s, step)
    ensures Apply(s, step).factors.installedId >= s.factors.installedId
    ensures Apply(s, step).click.installedId < s.click.installedId
       <==> step == PullInstall(ForClick) && s.click.pull.id < s.click.installedId
    ensures Apply(s, step).click.installedId < s.click.installedId ==> Races(s.click.pull)
  {
  }

  lemma {:induction false} InstalledFactorsGrowOverRun(s: State, steps: seq<Step>)
    requires Inv(s) && ValidRun(s, steps)
    ensures After(s, steps).factors.installedId >= s.factors.installedId
    ensures After(s, steps).factorsId >= s.factorsId
    decreases |steps|
  {
    if steps != [] {
      StepKeepsInv(s, steps[0]);
      InstalledIdGrows(s, steps[0]);
      InstalledFactorsGrowOverRun(Apply(s, steps[0]), steps[1..]);
    }
  }

  /** No restart finds another click id recorded than the one in memory. */
  predicate RestartsKeepClick(s: State, steps: seq<Step>)
    requires ValidRun(s, steps)
    decreases |steps|
  {
    steps == [] || ((steps[0].Restart? ==> s.recordedClick == s.clickId)
                    && RestartsKeepClick(Apply(s, steps[0]), steps[1..]))
  }

  lemma ClickReadsGrow(s: State, step: Step)
    requires Inv(s) && Enabled(s, step) && ReadsGrow(s.click, s.clickId)
      && (step.Restart? ==> s.recordedClick == s.clickId)
    ensures ReadsGrow(Apply(s, step).click, Apply(s, step).clickId)
    ensures Apply(s, step).click.installedId >= s.click.installedId
  {
  }

  /** Without such restarts the installed click model never gets older either. */
  lemma {:induction false} InstalledClickGrowsOverRun(s: State, steps: seq<Step>)
    requires Inv(s) && ReadsGrow(s.click, s.clickId) && ValidRun(s, steps) && RestartsKeepClick(s, steps)
    ensures After(s, steps).click.installedId >= s.click.installedId
    decreases |steps|
  {
    if steps != [] {
      StepKeepsInv(s, steps[0]);
      ClickReadsGrow(s, steps[0]);
      InstalledClickGrowsOverRun(Apply(s, steps[0]), steps[1..]);
    }
  }

  /** The installed payload is that of the installed id. */
  predicate InstalledMatches(s: State, w: Which) {
    var t := SlotOf(s, w);
    t.installedId in s.written && t.installed == Some(s.written[t.installedId])
  }

  /** An installation is of its own id's payload exactly when the id that was opened
      is the id that is installed, which for factors is always one that was written:
      for distinct payloads, exactly when no Sync changed the target in between. */
  lemma InstallMatchesIffSameId(s: State, w: Which)
    requires Inv(s) && Enabled(s, PullInstall(w))
    requires forall a, b :: a in s.written && b in s.written && a != b ==> s.written[a] != s.written[b]
    ensures InstalledMatches(Apply(s, PullInstall(w)), w) <==> SlotOf(s, w).pull.source == SlotOf(s, w).pull.id
    ensures w == ForFactors ==> SlotOf(s, w).pull.id in s.written
  {
  }

  // ------------------------------------------------------------------
  // Delivery
  // ------------------------------------------------------------------

  function PublishedId(s: State, w: Which): int {
    match w
    case ForFactors => s.factorsId
    case ForClick => s.clickId
  }

  /** One Sync followed by one undisturbed Pull of a model. */
  function SyncAndPull(w: Which): seq<Step> {
    [Sync, PullCheck(w), PullOpen(w), PullApprove(w), PullInstall(w)]
  }

  lemma {:induction false} RunConcat(s: State, a: seq<Step>, b: seq<Step>)
    requires ValidRun(s, a)
    ensures ValidRun(s, a + b) <==> ValidRun(After(s, a), b)
    ensures ValidRun(s, a + b) ==> After(s, a + b) == After(After(s, a), b)
    decreases |a|
  {
    if a == [] {
      assert a + b == b;
    } else {
      assert (a + b)[1..] == a[1..] + b;
      RunConcat(Apply(s, a[0]), a[1..], b);
    }
  }

  lemma RunOne(s: State, step: Step)
    ensures ValidRun(s, [step]) <==> Enabled(s, step)
    ensures Enabled(s, step) ==> After(s, [step]) == Apply(s, step)
  {
    assert [step][1..] == [];
  }

  lemma RunNext(s: State, step: Step, rest: seq<Step>)
    ensures ValidRun(s, [step] + rest) <==> Enabled(s, step) && ValidRun(Apply(s, step), rest)
    ensures ValidRun(s, [step] + rest) ==> After(s, [step] + rest) == After(Apply(s, step), rest)
  {
    assert ([step] + rest)[1..] == rest;
  }

  lemma SlotTwice(s: State, w: Which, t: Slot, u: Slot)
    ensures SlotOf(WithSlot(s, w, t), w) == t
    ensures WithSlot(WithSlot(s, w, t), w, u) == WithSlot(s, w, u)
    ensures WithSlot(s, w, t).files == s.files && WithSlot(s, w, t).collections == s.collections
  {
  }

  lemma ApprovedInstalls(s: State, w: Which)
    requires SlotOf(s, w).pull.Opened?
    ensures var t, run := SlotOf(s, w), [PullApprove(w), PullInstall(w)];
      && (ValidRun(s, run) <==> (w == ForFactors ==> t.latest in s.collections))
      && (ValidRun(s, run) ==> After(s, run) == WithSlot(s, w, Install(Approve(t))))
  {
    var t := SlotOf(s, w);
    assert [PullApprove(w)] + [PullInstall(w)] == [PullApprove(w), PullInstall(w)];
    RunNext(s, PullApprove(w), [PullInstall(w)]);
    if Enabled(s, PullApprove(w)) {
      RunOne(Apply(s, PullApprove(w)), PullInstall(w));
      SlotTwice(s, w, Approve(t), Install(Approve(t)));
    }
  }

  lemma OpenedInstalls(s: State, w: Which)
    requires SlotOf(s, w).pull.Checked?
    ensures var t, run := SlotOf(s, w), [PullOpen(w), PullApprove(w), PullInstall(w)];
      && (ValidRun(s, run) <==> Readable(s, w, t.latest) && (w == ForFactors ==> t.latest in s.collections))
      && (ValidRun(s, run) ==>
            After(s, run) == WithSlot(s, w, Install(Approve(Open(t, s.files[t.latest].payload)))))
  {
    var t := SlotOf(s, w);
    assert [PullOpen(w)] + [PullApprove(w), PullInstall(w)] == [PullOpen(w), PullApprove(w), PullInstall(w)];
    RunNext(s, PullOpen(w), [PullApprove(w), PullInstall(w)]);
    if Enabled(s, PullOpen(w)) {
      var t' := Open(t, s.files[t.latest].payload);
      SlotTwice(s, w, t', Install(Approve(t')));
      ApprovedInstalls(Apply(s, PullOpen(w)), w);
    }
  }

  /** A Pull can go through if and only if its target is newer than the installed
      model and its blob, and for factors its collection, are there; it installs what
      the blob holds. */
  lemma PullInstalls(s: State, w: Which)
    ensures var t, run := SlotOf(s, w), [PullCheck(w), PullOpen(w), PullApprove(w), PullInstall(w)];
      && (ValidRun(s, run) <==>
            && t.pull.Resting? && t.latest > t.installedId && Readable(s, w, t.latest)
            && (w == ForFactors ==> t.latest in s.collections))
      && (ValidRun(s, run) ==>
            After(s, run) == WithSlot(s, w, Install(Approve(Open(Check(t), s.files[t.latest].payload)))))
  {
    var t, rest := SlotOf(s, w), [PullOpen(w), PullApprove(w), PullInstall(w)];
    assert [PullCheck(w)] + rest == [PullCheck(w), PullOpen(w), PullApprove(w), PullInstall(w)];
    RunNext(s, PullCheck(w), rest);
    if Enabled(s, PullCheck(w)) {
      SlotTwice(s, w, Check(t), Check(t));
      OpenedInstalls(Apply(s, PullCheck(w)), w);
      if ValidRun(Apply(s, PullCheck(w)), rest) {
        SlotTwice(s, w, Check(t), Install(Approve(Open(Check(t), s.files[t.latest].payload))));
      }
    }
  }

  /** After a Sync the worker can install the published model of either kind if and
      only if its Pull rests, the published id is newer than the installed one, and
      the model can be served. Then exactly that model is installed: its id, and the
      payload that was written under that id. */
  lemma SyncDelivers(s: State, w: Which)
    requires Inv(s)
    ensures ValidRun(s, SyncAndPull(w)) <==>
      && SlotOf(s, w).pull.Resting? && PublishedId(s, w) > SlotOf(s, w).installedId
      && if w == ForFactors then Servable(s, s.factorsId) else ClickServable(s, s.clickId)
    ensures ValidRun(s, SyncAndPull(w)) ==>
      var t, id := SlotOf(After(s, SyncAndPull(w)), w), if w == ForFactors then s.factorsId else s.clickId;
      && t.installedId == id && id in s.written && t.installed == Some(s.written[id])
      && t.pull.Resting? && t.raced == SlotOf(s, w).raced
  {
    var pull := [PullCheck(w), PullOpen(w), PullApprove(w), PullInstall(w)];
    assert [Sync] + pull == SyncAndPull(w);
    RunNext(s, Sync, pull);
    PullInstalls(Apply(s, Sync), w);
  }

  /** A factor model that is newer than the worker's is always deliverable. */
  lemma PublishedFactorsReachWorker(s: State)
    requires Inv(s) && s.factors.pull.Resting? && s.factorsId > s.factors.installedId
    ensures ValidRun(s, SyncAndPull(ForFactors))
    ensures var t := After(s, SyncAndPull(ForFactors)).factors;
      t.installedId == s.factorsId && t.installed == Some(s.written[s.factorsId])
  {
    SyncDelivers(s, ForFactors);
  }

  function TrainFactors(id: int, users: int): seq<Step> {
    [BeginFactors(id, users), CreateBlob, FinishBlob, RecordFactors, ShowFactors]
  }

  function TrainClick(id: int, model: int): seq<Step> {
    [BeginClick(id, model), FinishBlob, ShowClick, RecordClick]
  }

  lemma TrainFactorsPublishes(s: State, id: int, users: int)
    requires s.phase.Idle? && id > s.clock
    ensures ValidRun(s, TrainFactors(id, users))
    ensures var s' := After(s, TrainFactors(id, users));
      && s'.factorsId == s'.recordedFactors == id && s'.factors == s.factors
      && id in s'.written && s'.written[id] == Users(users)
  {
    var s1 := Apply(s, BeginFactors(id, users));
    var s2 := Apply(s1, CreateBlob);
    var s3 := Apply(s2, FinishBlob);
    var s4 := Apply(s3, RecordFactors);
    RunOne(s4, ShowFactors);
    RunNext(s3, RecordFactors, [ShowFactors]);
    assert [RecordFactors] + [ShowFactors] == [RecordFactors, ShowFactors];
    RunNext(s2, FinishBlob, [RecordFactors, ShowFactors]);
    assert [FinishBlob] + [RecordFactors, ShowFactors] == [FinishBlob, RecordFactors, ShowFactors];
    RunNext(s1, CreateBlob, [FinishBlob, RecordFactors, ShowFactors]);
    assert [CreateBlob] + [FinishBlob, RecordFactors, ShowFactors]
        == [CreateBlob, FinishBlob, RecordFactors, ShowFactors];
    RunNext(s, BeginFactors(id, users), [CreateBlob, FinishBlob, RecordFactors, ShowFactors]);
    assert [BeginFactors(id, users)] + [CreateBlob, FinishBlob, RecordFactors, ShowFactors] == TrainFactors(id, users);
  }

  lemma TrainClickPublishes(s: State, id: int, model: int)
    requires s.phase.Idle? && id > s.clock
    ensures ValidRun(s, TrainClick(id, model))
    ensures var s' := After(s, TrainClick(id, model));
      && s'.clickId == s'.recordedClick == id && s'.click == s.click
      && id in s'.written && s'.written[id] == Click(model) && ClickServable(s', id)
  {
    var s1 := Apply(s, BeginClick(id, model));
    var s2 := Apply(s1, FinishBlob);
    var s3 := Apply(s2, ShowClick);
    RunOne(s3, RecordClick);
    RunNext(s2, ShowClick, [RecordClick]);
    assert [ShowClick] + [RecordClick] == [ShowClick, RecordClick];
    RunNext(s1, FinishBlob, [ShowClick, RecordClick]);
    assert [FinishBlob] + [ShowClick, RecordClick] == [FinishBlob, ShowClick, RecordClick];
    RunNext(s, BeginClick(id, model), [FinishBlob, ShowClick, RecordClick]);
    assert [BeginClick(id, model)] + [FinishBlob, ShowClick, RecordClick] == TrainClick(id, model);
  }

  /** Whatever has happened before, a training that is not interrupted, a Sync and a
      Pull bring the new model of either kind to the worker. */
  lemma TrainedModelReachesWorker(s: State, id: int, content: int)
    requires Inv(s) && s.phase.Idle? && id > s.clock
    ensures s.factors.pull.Resting? ==>
      var run := TrainFactors(id, content) + SyncAndPull(ForFactors);
      ValidRun(s, run) && After(s, run).factors.installedId == id
      && After(s, run).factors.installed == Some(Users(content))
    ensures s.click.pull.Resting? ==>
      var run := TrainClick(id, content) + SyncAndPull(ForClick);
      ValidRun(s, run) && After(s, run).click.installedId == id && After(s, run).click.installed == Some(Click(content))
  {
    TrainFactorsPublishes(s, id, content);
    RunKeepsInv(s, TrainFactors(id, content));
    RunConcat(s, TrainFactors(id, content), SyncAndPull(ForFactors));
    SyncDelivers(After(s, TrainFactors(id, content)), ForFactors);
    TrainClickPublishes(s, id, content);
    RunKeepsInv(s, TrainClick(id, content));
    RunConcat(s, TrainClick(id, content), SyncAndPull(ForClick));
    SyncDelivers(After(s, TrainClick(id, content)), ForClick);
  }
}
