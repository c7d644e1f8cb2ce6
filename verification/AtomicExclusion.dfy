/**
 Create-only publication (`require_absent`): any number of concurrent writers, at most one
 winner per name, and no writer dislodges it. Nothing is assumed of other processes except that
 they do not delete the name once it is bound; where they do not rebind it either (`exact`), the
 winner's object stays under it.
 */
module AtomicExclusion {
  import opened Wrappers
  import opened FileSystem
  import opened AtomicInstall
  import opened AtomicRuns

  /** Published, and not taken back into quarantine. */
  predicate Standing(s: Run) {
    s.commit.published.Some? && !s.commit.quarantine.Moved?
  }

  /** The winner's object is where the winner put it. */
  ghost predicate InPlace(w: World, s: Run) {
    var p := s.commit.published;
    p.Some? && Bound(w, p.value.entry) == Some(p.value.id)
  }

  /** The winner's name is taken, and if `exact` by the winner's object. */
  ghost predicate Occupied(w: World, s: Run, exact: bool) {
    && s.commit.published.Some?
    && s.commit.published.value.entry in w.names
    && (exact ==> InPlace(w, s))
  }

  ghost predicate CreateOnly(s: Run, target: string) {
    s.cfg.target == target && s.cfg.task.Write? && s.cfg.task.requireAbsent
  }

  /** The tempfile has not been created, or never will be. */
  predicate Unnamed(pc: Pc) {
    pc.Ending? || pc == Preparing(OpenParent) || pc == Preparing(CheckParent) || pc == Preparing(CreateTemp)
  }

  ghost predicate WriterInv(w: World, s: Run, target: string, exact: bool) {
    && CreateOnly(s, target)
    && Ready(s)
    && s.dest.snap.None?
    && (if s.temp == "" then Unnamed(s.pc) else |s.temp| > |target|)
    && (s.pin.Some? ==> s.pin.value.from.name == s.temp)
    && (match s.commit.published
        case None => !s.commit.quarantine.Moved?
        case Some(p) =>
          && p.entry.name == target
          && (s.pc == Close || s.pc.Ending? || s.pc.Capturing? || s.pc.Published?)
          && (s.commit.quarantine.Moved? ==> s.pc == Close || s.pc.Ending?)
          && (s.cfg.platform.Windows? && s.pin.Some? ==> p.id == s.pin.value.fd))
    && (Standing(s) ==> Occupied(w, s, exact))
  }

  ghost predicate SameTarget(a: Run, b: Run) {
    Standing(a) && Standing(b) && a.commit.published.value.entry == b.commit.published.value.entry
  }

  ghost predicate ExclusionInv(y: System, target: string, exact: bool) {
    && (forall i | 0 <= i < |y.runs| :: WriterInv(y.world, y.runs[i], target, exact))
    && (forall i, j | 0 <= i < |y.runs| && 0 <= j < |y.runs| && i != j :: !SameTarget(y.runs[i], y.runs[j]))
  }

  /** The target name stays bound in every directory where it is, and if `exact` to the same object. */
  ghost predicate Keeps(w: World, w': World, target: string, exact: bool) {
    forall e | e in w.names && e.name == target :: e in w'.names && (exact ==> w'.names[e] == w.names[e])
  }

  /** What is assumed of everybody else. */
  ghost predicate Undeleted(y: System, es: seq<Event>, target: string, exact: bool)
    decreases |es|
  {
    es != [] ==>
      && (es[0].Others? ==> Keeps(y.world, es[0].w, target, exact))
      && Undeleted(After(y, es[0]), es[1..], target, exact)
  }

  lemma CreateTempKeepsWriter(w: World, s: Run, c: Choice, o: Outcome, target: string, exact: bool)
    requires WriterInv(w, s, target, exact) && s.pc == Preparing(CreateTemp) && o == StepCreateTemp(w, s, c)
    ensures WriterInv(o.w, o.s, target, exact)
  {
  }

  lemma PreparingKeepsWriter(w: World, s: Run, c: Choice, o: Outcome, target: string, exact: bool)
    requires WriterInv(w, s, target, exact) && s.pc.Preparing? && o == StepPreparing(w, s, c)
    ensures WriterInv(o.w, o.s, target, exact)
  {
    hide Occupied, StepCreateTemp, StatPath, Overlay;
    match s.pc.prep
    case CreateTemp => CreateTempKeepsWriter(w, s, c, o, target, exact);
    case _ =>
  }

  lemma ValidatedKeepsWriter(w: World, s: Run, c: Choice, o: Outcome, target: string, exact: bool)
    requires WriterInv(w, s, target, exact) && s.pc.Validated? && o == StepValidated(w, s, c)
    ensures WriterInv(o.w, o.s, target, exact)
  {
    hide Occupied, StatPath;
  }

  lemma PinnedKeepsWriter(w: World, s: Run, c: Choice, o: Outcome, target: string, exact: bool)
    requires WriterInv(w, s, target, exact) && s.pc.Pinned? && o == StepPinned(w, s)
    ensures WriterInv(o.w, o.s, target, exact)
  {
    hide Occupied, StatPath, StatDescriptor;
  }

  lemma CapReadKeepsWriter(w: World, s: Run, c: Choice, o: Outcome, target: string, exact: bool)
    requires WriterInv(w, s, target, exact) && s.pc == Capturing(CapRead) && o == StepCapRead(w, s, s.pin.value, c)
    ensures WriterInv(o.w, o.s, target, exact)
  {
    hide ReadRequest;
  }

  lemma CapturingKeepsWriter(w: World, s: Run, c: Choice, o: Outcome, target: string, exact: bool)
    requires WriterInv(w, s, target, exact) && s.pc.Capturing? && o == StepCapturing(w, s, c)
    ensures WriterInv(o.w, o.s, target, exact)
  {
    hide StepCapRead, StatDescriptor;
    match s.pc.capture
    case CapRead => CapReadKeepsWriter(w, s, c, o, target, exact);
    case _ =>
  }

  lemma RenameKeepsWriter(w: World, s: Run, c: Choice, o: Outcome, target: string, exact: bool)
    requires WriterInv(w, s, target, exact) && s.pc == Proved(Rename) && o == StepRename(w, s, s.pin.value, c)
    ensures WriterInv(o.w, o.s, target, exact)
  {
  }

  lemma ProvedKeepsWriter(w: World, s: Run, c: Choice, o: Outcome, target: string, exact: bool)
    requires WriterInv(w, s, target, exact) && s.pc.Proved? && o == StepProved(w, s, c)
    ensures WriterInv(o.w, o.s, target, exact)
  {
    hide Occupied, StepRename, StatPath, StatDescriptor;
    match s.pc.proof
    case Rename => RenameKeepsWriter(w, s, c, o, target, exact);
    case _ =>
  }

  lemma QuarantiningKeepsWriter(w: World, s: Run, c: Choice, o: Outcome, target: string, exact: bool)
    requires WriterInv(w, s, target, exact) && s.pc == Published(Quarantining)
    requires o == StepQuarantining(w, s, s.pin.value, s.commit.published.value, c)
    ensures WriterInv(o.w, o.s, target, exact)
  {
    hide QuarantineName;
  }

  lemma PublishedKeepsWriter(w: World, s: Run, c: Choice, o: Outcome, target: string, exact: bool)
    requires WriterInv(w, s, target, exact) && s.pc.Published? && o == StepPublished(w, s, c)
    ensures WriterInv(o.w, o.s, target, exact)
  {
    hide StepQuarantining;
    match s.pc.aftermath
    case Quarantining => QuarantiningKeepsWriter(w, s, c, o, target, exact);
    case FlushAgain =>
  }

  lemma CleanupKeepsWriter(w: World, s: Run, c: Choice, o: Outcome, target: string, exact: bool)
    requires WriterInv(w, s, target, exact) && s.pc == Ending(Cleanup) && o == StepCleanup(w, s, c)
    ensures WriterInv(o.w, o.s, target, exact)
  {
  }

  lemma EndKeepsWriter(w: World, s: Run, c: Choice, o: Outcome, target: string, exact: bool)
    requires WriterInv(w, s, target, exact) && (s.pc == Close || s.pc.Ending?) && o == Step(w, s, c)
    ensures WriterInv(o.w, o.s, target, exact)
  {
    hide StepCleanup;
    if s.pc == Ending(Cleanup) {
      assert o == StepCleanup(w, s, c);
      CleanupKeepsWriter(w, s, c, o, target, exact);
    }
  }

  lemma StepKeepsWriter(w: World, s: Run, c: Choice, o: Outcome, target: string, exact: bool)
    requires WriterInv(w, s, target, exact) && o == Step(w, s, c)
    ensures WriterInv(o.w, o.s, target, exact)
  {
    match s.pc
    case Preparing(_) => PreparingKeepsWriter(w, s, c, o, target, exact);
    case Validated(_) => ValidatedKeepsWriter(w, s, c, o, target, exact);
    case Pinned(_) => PinnedKeepsWriter(w, s, c, o, target, exact);
    case Capturing(_) => CapturingKeepsWriter(w, s, c, o, target, exact);
    case Proved(_) => ProvedKeepsWriter(w, s, c, o, target, exact);
    case Published(_) => PublishedKeepsWriter(w, s, c, o, target, exact);
    case _ => EndKeepsWriter(w, s, c, o, target, exact);
  }

  lemma QuietKeepsOthers(w: World, s: Run, o: Outcome, other: Run, target: string, exact: bool)
    requires WriterInv(w, other, target, exact) && !SameTarget(s, other)
    requires o.w.names == w.names && o.s.commit.published == s.commit.published
    requires o.s.commit.quarantine.Moved? <==> s.commit.quarantine.Moved?
    ensures Standing(other) ==> Occupied(o.w, other, exact)
    ensures !SameTarget(o.s, other)
  {
  }

  lemma CreateTempKeepsOthers(w: World, s: Run, c: Choice, o: Outcome, other: Run, target: string, exact: bool)
    requires WriterInv(w, other, target, exact) && !SameTarget(s, other)
    requires s.pc == Preparing(CreateTemp) && o == StepCreateTemp(w, s, c)
    ensures Standing(other) ==> Occupied(o.w, other, exact)
    ensures !SameTarget(o.s, other)
  {
  }

  lemma EarlyKeepsOthers(w: World, s: Run, c: Choice, o: Outcome, other: Run, target: string, exact: bool)
    requires WriterInv(w, s, target, exact) && WriterInv(w, other, target, exact) && !SameTarget(s, other) && o == Step(w, s, c)
    requires s.pc.Preparing? || s.pc.Validated? || s.pc.Pinned? || s.pc.Capturing?
    ensures Standing(other) ==> Occupied(o.w, other, exact)
    ensures !SameTarget(o.s, other)
  {
    hide Occupied, SameTarget, StepCreateTemp, StepValidated, StepPinned, StepCapturing, StatPath, Overlay;
    match s.pc
    case Preparing(CreateTemp) => CreateTempKeepsOthers(w, s, c, o, other, target, exact);
    case Preparing(_) => QuietKeepsOthers(w, s, o, other, target, exact);
    case Validated(_) =>
      ValidatedKeepsFiles(w, s, c);
      ValidatedPublishesNothing(w, s, c);
      QuietKeepsOthers(w, s, o, other, target, exact);
    case Pinned(_) =>
      PinnedKeepsFiles(w, s);
      PinnedPublishesNothing(w, s);
      QuietKeepsOthers(w, s, o, other, target, exact);
    case Capturing(_) =>
      CapturingKeepsFiles(w, s, c);
      CapturingPublishesNothing(w, s, c);
      QuietKeepsOthers(w, s, o, other, target, exact);
  }

  lemma RenameKeepsOthers(w: World, s: Run, c: Choice, o: Outcome, other: Run, target: string, exact: bool)
    requires WriterInv(w, s, target, exact) && WriterInv(w, other, target, exact) && !SameTarget(s, other)
    requires s.pc == Proved(Rename) && o == StepRename(w, s, s.pin.value, c)
    ensures Standing(other) ==> Occupied(o.w, other, exact)
    ensures !SameTarget(o.s, other)
  {
  }

  lemma ProvedKeepsOthers(w: World, s: Run, c: Choice, o: Outcome, other: Run, target: string, exact: bool)
    requires WriterInv(w, s, target, exact) && WriterInv(w, other, target, exact) && !SameTarget(s, other)
    requires s.pc.Proved? && o == StepProved(w, s, c)
    ensures Standing(other) ==> Occupied(o.w, other, exact)
    ensures !SameTarget(o.s, other)
  {
    hide Occupied, SameTarget, StepRename, StatPath, StatDescriptor;
    match s.pc.proof
    case Rename => RenameKeepsOthers(w, s, c, o, other, target, exact);
    case _ => QuietKeepsOthers(w, s, o, other, target, exact);
  }

  lemma LateKeepsOthers(w: World, s: Run, c: Choice, o: Outcome, other: Run, target: string, exact: bool)
    requires WriterInv(w, s, target, exact) && WriterInv(w, other, target, exact) && !SameTarget(s, other) && o == Step(w, s, c)
    requires s.pc.Proved? || s.pc.Published? || s.pc == Close || s.pc.Ending?
    ensures Standing(other) ==> Occupied(o.w, other, exact)
    ensures !SameTarget(o.s, other)
  {
    hide StepProved;
    if s.pc.Proved? { ProvedKeepsOthers(w, s, c, o, other, target, exact); }
  }

  /** A step dislodges no standing publication, and a new one lands on a free name. */
  lemma StepKeepsOthers(w: World, s: Run, c: Choice, o: Outcome, other: Run, target: string, exact: bool)
    requires WriterInv(w, s, target, exact) && WriterInv(w, other, target, exact) && !SameTarget(s, other) && o == Step(w, s, c)
    ensures Standing(other) ==> Occupied(o.w, other, exact)
    ensures !SameTarget(o.s, other)
  {
    if s.pc.Preparing? || s.pc.Validated? || s.pc.Pinned? || s.pc.Capturing? {
      EarlyKeepsOthers(w, s, c, o, other, target, exact);
    } else {
      LateKeepsOthers(w, s, c, o, other, target, exact);
    }
  }

  lemma EventKeepsExclusion(y: System, e: Event, target: string, exact: bool)
    requires ExclusionInv(y, target, exact)
    requires e.Others? ==> Keeps(y.world, e.w, target, exact)
    ensures ExclusionInv(After(y, e), target, exact)
  {
    if e.Move? && e.i < |y.runs| {
      var o := Step(y.world, y.runs[e.i], e.c);
      StepKeepsWriter(y.world, y.runs[e.i], e.c, o, target, exact);
      forall j | 0 <= j < |y.runs| && j != e.i
        ensures WriterInv(o.w, y.runs[j], target, exact) && !SameTarget(o.s, y.runs[j]) && !SameTarget(y.runs[j], o.s)
      {
        StepKeepsOthers(y.world, y.runs[e.i], e.c, o, y.runs[j], target, exact);
      }
    }
  }

  lemma {:induction false} ExclusionHolds(y: System, es: seq<Event>, target: string, exact: bool)
    requires ExclusionInv(y, target, exact) && Undeleted(y, es, target, exact)
    ensures ExclusionInv(Final(y, es), target, exact) && |Final(y, es).runs| == |y.runs|
    decreases |es|
  {
    if es != [] {
      EventKeepsExclusion(y, es[0], target, exact);
      ExclusionHolds(After(y, es[0]), es[1..], target, exact);
    }
  }

  /**
   Main result: of all create-only writers to one name at most one wins, whatever the losers do
   and whatever others put under the name, as long as they do not delete it. If they do not rebind
   it either, the winner's object stays there for the rest of the run.
   */
  lemma AtMostOneWinner(y: System, es: seq<Event>, target: string, exact: bool, i: nat, j: nat)
    requires forall k | 0 <= k < |y.runs| :: CreateOnly(y.runs[k], target) && y.runs[k] == Start(y.runs[k].cfg)
    requires Undeleted(y, es, target, exact) && i < |y.runs| && j < |y.runs| && i != j
    ensures |Final(y, es).runs| == |y.runs|
    ensures !SameTarget(Final(y, es).runs[i], Final(y, es).runs[j])
    ensures Standing(Final(y, es).runs[i]) ==> Occupied(Final(y, es).world, Final(y, es).runs[i], exact)
  {
    ExclusionHolds(y, es, target, exact);
  }

  /**
   A loser raises: a create-only run that returns normally is itself the standing winner, so two
   runs that both return normally published under different directories.
   */
  lemma ReturningMeansWinning(y: System, es: seq<Event>, platform: Platform, target: string, exact: bool, i: nat)
    requires Initial(platform, y) && Execution(platform, y, es) && Undeleted(y, es, target, exact) && i < |y.runs|
    requires forall k | 0 <= k < |y.runs| :: CreateOnly(y.runs[k], target)
    ensures |Final(y, es).runs| == |y.runs|
    ensures
      var s := Final(y, es).runs[i];
      s.pc == Ending(Done) && !s.failed ==>
        && Standing(s) && Occupied(Final(y, es).world, s, exact)
        && forall j | 0 <= j < |y.runs| && j != i :: !SameTarget(s, Final(y, es).runs[j])
  {
    InitialInv(platform, y);
    ExecutionKeepsInv(platform, y, es);
    ExclusionHolds(y, es, target, exact);
  }
}
