/**
 What a run may touch, over whole executions and whatever everybody else does: only its own
 tempfile until it publishes, with a pinned parent only that and the target in the directory it
 opened, and on POSIX nothing at all afterwards.
 */
module AtomicFrame {
  import opened Wrappers
  import opened FileSystem
  import opened AtomicInstall
  import opened AtomicRuns

  function Changed(w: World, w': World): set<Entry> {
    set e | e in w.names.Keys + w'.names.Keys && Bound(w, e) != Bound(w', e)
  }

  /** The names that run `i` itself has bound, rebound or removed. */
  function Touched(y: System, es: seq<Event>, i: nat): set<Entry>
    decreases |es|
  {
    if es == [] then {}
    else (if es[0].Move? && es[0].i == i then Changed(y.world, After(y, es[0]).world) else {})
         + Touched(After(y, es[0]), es[1..], i)
  }

  /** The opened directory, and the name of the tempfile or source, are settled. */
  predicate Settled(s: Run) {
    s.pc != Preparing(OpenParent) && s.pc != Preparing(CheckParent) && s.pc != Preparing(CreateTemp)
  }

  /** The names that one step of an unpublished run may change, and how. */
  ghost predicate Framed(w: World, s: Run, o: Outcome) {
    && s.commit.published.None?
    && (Changed(w, o.w) != {} ==> Settled(o.s))
    && (forall e | e in Changed(w, o.w) :: e.name == o.s.temp && (UsesDirFd(s.cfg) ==> e.dir == o.s.dir))
    && (forall e | e in w.names && Bound(o.w, e) != Bound(w, e) ::
          s.cfg.platform.Windows? && w.names[e] == s.tempId && e !in o.w.names)
    && (forall id | id in w.files && id != s.tempId :: id in o.w.files && o.w.files[id] == w.files[id])
  }

  lemma SameNamesAreFramed(w: World, s: Run, o: Outcome)
    requires s.commit.published.None? && o.w.names == w.names && o.w.files == w.files
    ensures Framed(w, s, o)
  {
  }

  lemma CreateTempFrame(w: World, s: Run, c: Choice, o: Outcome)
    requires s.pc == Preparing(CreateTemp) && o == StepCreateTemp(w, s, c) && o.s.commit.published.None?
    ensures Framed(w, s, o)
  {
  }

  lemma WriteBytesFrame(w: World, s: Run, c: Choice, o: Outcome)
    requires s.pc == Preparing(WriteBytes) && o == StepWriteBytes(w, s, c) && o.s.commit.published.None?
    ensures Framed(w, s, o)
  {
    hide Overlay;
  }

  lemma PreparingFrame(w: World, s: Run, c: Choice, o: Outcome)
    requires Ready(s) && s.pc.Preparing? && o == StepPreparing(w, s, c) && o.s.commit.published.None?
    ensures Framed(w, s, o)
  {
    hide Framed, StepCreateTemp, StepWriteBytes, StatPath;
    match s.pc.prep
    case CreateTemp => CreateTempFrame(w, s, c, o);
    case WriteBytes => WriteBytesFrame(w, s, c, o);
    case _ => SameNamesAreFramed(w, s, o);
  }

  lemma CheckingFrame(w: World, s: Run, c: Choice, o: Outcome)
    requires Ready(s) && (s.pc.Validated? || s.pc.Pinned? || s.pc.Capturing?) && o == Step(w, s, c)
    requires o.s.commit.published.None?
    ensures Framed(w, s, o)
  {
    hide Framed, StepValidated, StepPinned, StepCapturing;
    match s.pc {
      case Validated(_) =>
        ValidatedKeepsFiles(w, s, c);
        ValidatedPublishesNothing(w, s, c);
      case Pinned(_) =>
        PinnedKeepsFiles(w, s);
        PinnedPublishesNothing(w, s);
      case Capturing(_) =>
        CapturingKeepsFiles(w, s, c);
        CapturingPublishesNothing(w, s, c);
    }
    SameNamesAreFramed(w, s, o);
  }

  lemma ProvedFrame(w: World, s: Run, c: Choice, o: Outcome)
    requires Ready(s) && s.pc.Proved? && o == StepProved(w, s, c) && o.s.commit.published.None?
    ensures Framed(w, s, o)
  {
    hide Framed;
    SameNamesAreFramed(w, s, o);
  }

  lemma CleanupFrame(w: World, s: Run, c: Choice, o: Outcome)
    requires s.pc == Ending(Cleanup) && o == StepCleanup(w, s, c) && o.s.commit.published.None?
    ensures Framed(w, s, o)
  {
  }

  lemma LateFrame(w: World, s: Run, c: Choice, o: Outcome)
    requires Ready(s) && (s.pc.Proved? || s.pc.Published? || s.pc == Close || s.pc.Ending?) && o == Step(w, s, c)
    requires o.s.commit.published.None?
    ensures Framed(w, s, o)
  {
    hide Framed, StepProved, StepCleanup;
    if s.pc.Proved? {
      ProvedFrame(w, s, c, o);
    } else if s.pc == Ending(Cleanup) {
      assert o == StepCleanup(w, s, c);
      CleanupFrame(w, s, c, o);
    } else {
      SameNamesAreFramed(w, s, o);
    }
  }

  /**
   A step that does not publish changes no name but its own tempfile's and no object but the
   tempfile. It never rebinds a name; it removes one only on Windows, in cleanup, and only if
   the name still leads to the very object this run created, so a raced replacement survives.
   */
  lemma StepFrame(w: World, s: Run, c: Choice, o: Outcome)
    requires Ready(s) && o == Step(w, s, c) && o.s.commit.published.None?
    ensures Framed(w, s, o)
  {
    match s.pc
    case Preparing(_) => PreparingFrame(w, s, c, o);
    case Validated(_) => CheckingFrame(w, s, c, o);
    case Pinned(_) => CheckingFrame(w, s, c, o);
    case Capturing(_) => CheckingFrame(w, s, c, o);
    case _ => LateFrame(w, s, c, o);
  }

  ghost predicate Continues(s: Run, s': Run) {
    && (s.commit.published.Some? ==> s'.commit.published.Some?)
    && (Settled(s) ==> Settled(s') && s'.temp == s.temp && s'.tempId == s.tempId && s'.dir == s.dir)
    && s'.cfg == s.cfg
  }

  lemma PreparingContinues(w: World, s: Run, c: Choice)
    requires s.pc.Preparing?
    ensures Continues(s, StepPreparing(w, s, c).s)
  {
    hide StatPath, CloseWriteHandle;
  }

  lemma ValidatedContinues(w: World, s: Run, c: Choice)
    requires s.pc.Validated?
    ensures Continues(s, StepValidated(w, s, c).s)
  {
  }

  lemma CapturingContinues(w: World, s: Run, c: Choice)
    requires Ready(s) && s.pc.Capturing?
    ensures Continues(s, StepCapturing(w, s, c).s)
  {
  }

  lemma PinnedContinues(w: World, s: Run)
    requires Ready(s) && s.pc.Pinned?
    ensures Continues(s, StepPinned(w, s).s)
  {
  }

  lemma ProvedContinues(w: World, s: Run, c: Choice)
    requires Ready(s) && s.pc.Proved?
    ensures Continues(s, StepProved(w, s, c).s)
  {
  }

  lemma PublishedContinues(w: World, s: Run, c: Choice)
    requires Ready(s) && s.pc.Published?
    ensures Continues(s, StepPublished(w, s, c).s)
  {
  }

  lemma EndContinues(w: World, s: Run, c: Choice)
    requires Ready(s) && (s.pc == Close || s.pc.Ending?)
    ensures Continues(s, Step(w, s, c).s)
  {
  }

  lemma StepContinues(w: World, s: Run, c: Choice)
    requires Ready(s)
    ensures Continues(s, Step(w, s, c).s)
  {
    hide Continues, StepPreparing, StepValidated, StepPinned, StepCapturing, StepProved, StepPublished;
    match s.pc
    case Preparing(_) => PreparingContinues(w, s, c);
    case Validated(_) => ValidatedContinues(w, s, c);
    case Pinned(_) => PinnedContinues(w, s);
    case Capturing(_) => CapturingContinues(w, s, c);
    case Proved(_) => ProvedContinues(w, s, c);
    case Published(_) => PublishedContinues(w, s, c);
    case _ => EndContinues(w, s, c);
  }

  lemma {:induction false} SettledForGood(y: System, es: seq<Event>, i: nat)
    requires i < |y.runs|
    ensures |Final(y, es).runs| == |y.runs| && Final(y, es).runs[i].cfg == y.runs[i].cfg
    ensures y.runs[i].commit.published.Some? ==> Final(y, es).runs[i].commit.published.Some?
    ensures Settled(y.runs[i]) ==>
              && Final(y, es).runs[i].temp == y.runs[i].temp
              && Final(y, es).runs[i].tempId == y.runs[i].tempId
              && Final(y, es).runs[i].dir == y.runs[i].dir
    decreases |es|
  {
    if es != [] {
      if es[0].Move? && es[0].i == i && Ready(y.runs[i]) {
        StepContinues(y.world, y.runs[i], es[0].c);
      }
      SettledForGood(After(y, es[0]), es[1..], i);
      if Settled(y.runs[i]) { assert Settled(After(y, es[0]).runs[i]); }
    }
  }

  /**
   Main result: over any execution, with any interference, a run that never published has touched
   no name but that of its own tempfile, and a run with a pinned parent none outside the
   directory it opened.
   */
  lemma {:induction false} UnpublishedRunTouchesOnlyItsTemp(y: System, es: seq<Event>, i: nat)
    requires i < |y.runs| && |Final(y, es).runs| == |y.runs| && Final(y, es).runs[i].commit.published.None?
    ensures forall e | e in Touched(y, es, i) ::
              && e.name == Final(y, es).runs[i].temp
              && (UsesDirFd(y.runs[i].cfg) ==> e.dir == Final(y, es).runs[i].dir)
    decreases |es|
  {
    if es != [] {
      var y' := After(y, es[0]);
      SettledForGood(y', es[1..], i);
      UnpublishedRunTouchesOnlyItsTemp(y', es[1..], i);
      if es[0].Move? && es[0].i == i && Ready(y.runs[i]) {
        StepFrame(y.world, y.runs[i], es[0].c, Step(y.world, y.runs[i], es[0].c));
        StepContinues(y.world, y.runs[i], es[0].c);
      }
    }
  }

  // ---- POSIX: no rollback, and the pinned parent ------------------------------------------

  /** A POSIX run that has published only closes, syncs and ends; an installing run has no tempfile. */
  predicate Straight(s: Run) {
    && s.cfg.platform.Posix?
    && !s.pc.Published?
    && (s.commit.published.Some? ==> s.pc == Close || s.pc.Ending?)
    && (s.cfg.task.Install? && s.pc.Preparing? ==>
          s.pc.prep.OpenParent? || s.pc.prep.CheckParent? || s.pc.prep.SnapSource? || s.pc.prep.SnapDest?)
  }

  /** The objects that run `i` itself has created or changed. */
  function TouchedObjects(y: System, es: seq<Event>, i: nat): set<Id>
    decreases |es|
  {
    if es == [] then {}
    else (if es[0].Move? && es[0].i == i then ChangedObjects(y.world, After(y, es[0]).world) else {})
         + TouchedObjects(After(y, es[0]), es[1..], i)
  }

  function ChangedObjects(w: World, w': World): set<Id> {
    set id | id in w.files.Keys + w'.files.Keys && !SameObject(w, w', id)
  }

  predicate SameObject(w: World, w': World, id: Id) {
    id in w.files && id in w'.files && w.files[id] == w'.files[id]
  }

  /** What one step of a POSIX run may change. */
  ghost predicate Bounded(w: World, s: Run, o: Outcome) {
    && Straight(o.s)
    && (s.commit.published.Some? ==> o.w == w && o.s.commit == s.commit)
    && (forall e | e in Changed(w, o.w) ::
          && Settled(o.s)
          && (e.name == o.s.temp || e.name == s.cfg.target)
          && (UsesDirFd(s.cfg) ==> e.dir == o.s.dir))
    && (forall id | id in ChangedObjects(w, o.w) :: Settled(o.s) && s.cfg.task.Write? && id == o.s.tempId)
  }

  lemma QuietIsBounded(w: World, s: Run, o: Outcome)
    requires Straight(o.s) && o.w.names == w.names && o.w.files == w.files
    requires s.commit.published.Some? ==> o.w == w && o.s.commit == s.commit
    ensures Bounded(w, s, o)
  {
  }

  lemma CreateTempBounded(w: World, s: Run, c: Choice)
    requires Straight(s) && Ready(s) && s.pc == Preparing(CreateTemp)
    ensures Bounded(w, s, StepCreateTemp(w, s, c))
  {
  }

  lemma WriteBytesBounded(w: World, s: Run, c: Choice)
    requires Straight(s) && Ready(s) && s.pc == Preparing(WriteBytes)
    ensures Bounded(w, s, StepWriteBytes(w, s, c))
  {
    hide Overlay;
  }

  lemma PreparingBounded(w: World, s: Run, c: Choice)
    requires Straight(s) && Ready(s) && s.pc.Preparing?
    ensures Bounded(w, s, StepPreparing(w, s, c))
  {
    hide Bounded, StepCreateTemp, StepWriteBytes, StatPath;
    match s.pc.prep
    case CreateTemp => CreateTempBounded(w, s, c);
    case WriteBytes => WriteBytesBounded(w, s, c);
    case _ => QuietIsBounded(w, s, StepPreparing(w, s, c));
  }

  lemma ValidatedBounded(w: World, s: Run, c: Choice)
    requires Straight(s) && Ready(s) && s.pc.Validated?
    ensures Bounded(w, s, StepValidated(w, s, c))
  {
    hide Bounded, StatPath;
    QuietIsBounded(w, s, StepValidated(w, s, c));
  }

  lemma CapturingBounded(w: World, s: Run, c: Choice)
    requires Straight(s) && Ready(s) && s.pc.Capturing?
    ensures Bounded(w, s, StepCapturing(w, s, c))
  {
    hide Bounded, StatDescriptor;
    QuietIsBounded(w, s, StepCapturing(w, s, c));
  }

  lemma RenameBounded(w: World, s: Run, c: Choice)
    requires Straight(s) && Ready(s) && s.pc == Proved(Rename)
    ensures Bounded(w, s, StepRename(w, s, s.pin.value, c))
  {
  }

  lemma ProvedBounded(w: World, s: Run, c: Choice)
    requires Straight(s) && Ready(s) && s.pc.Proved?
    ensures Bounded(w, s, StepProved(w, s, c))
  {
    hide Bounded, StepRename, StatPath, StatDescriptor;
    match s.pc.proof
    case Rename => RenameBounded(w, s, c);
    case _ => QuietIsBounded(w, s, StepProved(w, s, c));
  }

  lemma EndBounded(w: World, s: Run, c: Choice)
    requires Straight(s) && Ready(s) && (s.pc.Pinned? || s.pc == Close || s.pc.Ending?)
    ensures Bounded(w, s, Step(w, s, c))
  {
    hide Bounded, StatPath, StatDescriptor;
    QuietIsBounded(w, s, Step(w, s, c));
  }

  lemma StepBounded(w: World, s: Run, c: Choice)
    requires Straight(s)
    ensures Bounded(w, s, Advance(w, s, c))
  {
    if Ready(s) {
      match s.pc
      case Preparing(_) => PreparingBounded(w, s, c);
      case Validated(_) => ValidatedBounded(w, s, c);
      case Capturing(_) => CapturingBounded(w, s, c);
      case Proved(_) => ProvedBounded(w, s, c);
      case _ => EndBounded(w, s, c);
    }
  }

  /**
   POSIX, over any execution with any interference: what a run touches is the name of its tempfile
   and the target, with a pinned parent in the directory it opened and nowhere else; and the one
   object it creates or changes is its tempfile, or none at all if it installs a given source.
   */
  lemma {:induction false} RunTouchesOnlyItsOwn(y: System, es: seq<Event>, i: nat)
    requires i < |y.runs| && Straight(y.runs[i])
    ensures |Final(y, es).runs| == |y.runs|
    ensures
      var s := Final(y, es).runs[i];
      && (forall e | e in Touched(y, es, i) ::
            (e.name == s.temp || e.name == s.cfg.target) && (UsesDirFd(s.cfg) ==> e.dir == s.dir))
      && (forall id | id in TouchedObjects(y, es, i) :: s.cfg.task.Write? && id == s.tempId)
    decreases |es|
  {
    SettledForGood(y, es, i);
    if es != [] {
      var y' := After(y, es[0]);
      SettledForGood(y', es[1..], i);
      if es[0].Move? && es[0].i == i {
        StepBounded(y.world, y.runs[i], es[0].c);
      }
      RunTouchesOnlyItsOwn(y', es[1..], i);
    }
  }

  /**
   POSIX: once published nothing is rolled back. Whatever happens afterwards, the run itself binds
   and removes no name, changes no object and keeps its record of the publication.
   */
  lemma {:induction false} NoRollback(y: System, es: seq<Event>, i: nat)
    requires i < |y.runs| && Straight(y.runs[i]) && y.runs[i].commit.published.Some?
    ensures Touched(y, es, i) == {} && TouchedObjects(y, es, i) == {}
    ensures |Final(y, es).runs| == |y.runs| && Final(y, es).runs[i].commit == y.runs[i].commit
    decreases |es|
  {
    if es != [] {
      if es[0].Move? && es[0].i == i {
        StepBounded(y.world, y.runs[i], es[0].c);
      }
      NoRollback(After(y, es[0]), es[1..], i);
    }
  }

  lemma {:induction false} StaysStraight(y: System, es: seq<Event>, i: nat)
    requires i < |y.runs| && Straight(y.runs[i])
    ensures |Final(y, es).runs| == |y.runs| && Straight(Final(y, es).runs[i])
    decreases |es|
  {
    if es != [] {
      if es[0].Move? && es[0].i == i {
        StepBounded(y.world, y.runs[i], es[0].c);
      }
      StaysStraight(After(y, es[0]), es[1..], i);
    }
  }

  /**
   Main result for a whole POSIX run from its start: up to any moment `es` it touched only its own
   names and its own tempfile; and if it had published by then, it touches nothing in whatever
   comes `after`.
   */
  lemma PosixRun(y: System, es: seq<Event>, after: seq<Event>, i: nat)
    requires i < |y.runs| && y.runs[i] == Start(y.runs[i].cfg) && y.runs[i].cfg.platform.Posix?
    ensures |Final(y, es).runs| == |y.runs|
    ensures
      var s := Final(y, es).runs[i];
      && (forall e | e in Touched(y, es, i) ::
            (e.name == s.temp || e.name == s.cfg.target) && (UsesDirFd(s.cfg) ==> e.dir == s.dir))
      && (forall id | id in TouchedObjects(y, es, i) :: s.cfg.task.Write? && id == s.tempId)
      && (s.commit.published.Some? ==>
            Touched(Final(y, es), after, i) == {} && TouchedObjects(Final(y, es), after, i) == {})
  {
    RunTouchesOnlyItsOwn(y, es, i);
    StaysStraight(y, es, i);
    if Final(y, es).runs[i].commit.published.Some? {
      NoRollback(Final(y, es), after, i);
    }
  }

  /** Two worlds that cannot be told apart from inside directory `d`. */
  ghost predicate SameInside(w: World, v: World, d: Dir) {
    && w.files == v.files && w.held == v.held && w.writing == v.writing && w.clock == v.clock
    && forall e: Entry | e.dir == d :: Bound(w, e) == Bound(v, e)
  }

  predicate ComparesParent(pc: Pc) {
    pc == Preparing(OpenParent) || pc == Preparing(CheckParent) || pc == Validated(RecheckParent)
  }

  /** Two worlds that the next step of a pinned run cannot tell apart. */
  ghost predicate Indistinct(w: World, v: World, s: Run) {
    && SameInside(w, v, s.dir)
    && (ComparesParent(s.pc) ==> w.parent == v.parent)
  }

  ghost predicate PinnedRun(s: Run) {
    Straight(s) && UsesDirFd(s.cfg) && Ready(s)
  }

  /** Both steps do the same to the run and inside its directory, and nothing anywhere else. */
  ghost predicate Confined(w: World, s: Run, o: Outcome, o': Outcome) {
    && o.s == o'.s
    && SameInside(o.w, o'.w, s.dir)
    && o.w.parent == w.parent
    && forall e: Entry | e.dir != s.dir :: Bound(o.w, e) == Bound(w, e)
  }

  lemma CreateTempConfined(w: World, v: World, s: Run, c: Choice)
    requires PinnedRun(s) && Indistinct(w, v, s) && s.pc == Preparing(CreateTemp)
    ensures Confined(w, s, StepCreateTemp(w, s, c), StepCreateTemp(v, s, c))
  {
  }

  lemma WriteBytesConfined(w: World, v: World, s: Run, c: Choice)
    requires PinnedRun(s) && Indistinct(w, v, s) && s.pc == Preparing(WriteBytes)
    ensures Confined(w, s, StepWriteBytes(w, s, c), StepWriteBytes(v, s, c))
  {
  }

  lemma PreparingConfined(w: World, v: World, s: Run, c: Choice)
    requires PinnedRun(s) && Indistinct(w, v, s) && s.pc.Preparing?
    ensures Confined(w, s, StepPreparing(w, s, c), StepPreparing(v, s, c))
  {
    hide StepCreateTemp, StepWriteBytes;
    match s.pc.prep
    case CreateTemp => CreateTempConfined(w, v, s, c);
    case WriteBytes => WriteBytesConfined(w, v, s, c);
    case _ =>
  }

  lemma ValidatedConfined(w: World, v: World, s: Run, c: Choice)
    requires PinnedRun(s) && Indistinct(w, v, s) && s.pc.Validated?
    ensures Confined(w, s, StepValidated(w, s, c), StepValidated(v, s, c))
  {
  }

  lemma PinnedConfined(w: World, v: World, s: Run, c: Choice)
    requires PinnedRun(s) && Indistinct(w, v, s) && s.pc.Pinned?
    ensures Confined(w, s, StepPinned(w, s), StepPinned(v, s))
  {
  }

  lemma CapturingConfined(w: World, v: World, s: Run, c: Choice)
    requires PinnedRun(s) && Indistinct(w, v, s) && s.pc.Capturing?
    ensures Confined(w, s, StepCapturing(w, s, c), StepCapturing(v, s, c))
  {
  }

  lemma RenameConfined(w: World, v: World, s: Run, c: Choice)
    requires PinnedRun(s) && Indistinct(w, v, s) && s.pc == Proved(Rename)
    ensures Confined(w, s, StepRename(w, s, s.pin.value, c), StepRename(v, s, s.pin.value, c))
  {
  }

  lemma ProvedConfined(w: World, v: World, s: Run, c: Choice)
    requires PinnedRun(s) && Indistinct(w, v, s) && s.pc.Proved?
    ensures Confined(w, s, StepProved(w, s, c), StepProved(v, s, c))
  {
    hide StepRename;
    match s.pc.proof
    case Rename => RenameConfined(w, v, s, c);
    case _ =>
  }

  lemma EndingConfined(w: World, v: World, s: Run, c: Choice)
    requires PinnedRun(s) && Indistinct(w, v, s) && (s.pc == Close || s.pc.Ending?)
    ensures Confined(w, s, Step(w, s, c), Step(v, s, c))
  {
  }

  lemma StepConfined(w: World, v: World, s: Run, c: Choice)
    requires PinnedRun(s) && Indistinct(w, v, s)
    ensures Confined(w, s, Step(w, s, c), Step(v, s, c))
  {
    match s.pc
    case Preparing(_) => PreparingConfined(w, v, s, c);
    case Validated(_) => ValidatedConfined(w, v, s, c);
    case Pinned(_) => PinnedConfined(w, v, s, c);
    case Capturing(_) => CapturingConfined(w, v, s, c);
    case Proved(_) => ProvedConfined(w, v, s, c);
    case _ => EndingConfined(w, v, s, c);
  }

  /**
   A run whose steps find the worlds `ws`, which everybody else prepares. The worlds `vs` cannot
   be told apart from them inside the opened directory, nor by the parent where it is compared.
   */
  ghost predicate Agreeing(s: Run, ws: seq<World>, vs: seq<World>, cs: seq<Choice>)
    requires |ws| == |vs| == |cs|
    decreases |ws|
  {
    ws != [] ==> Indistinct(ws[0], vs[0], s) && Agreeing(Advance(ws[0], s, cs[0]).s, ws[1..], vs[1..], cs[1..])
  }

  /** Both runs, `s` along `ws` and `s'` along `vs`, take the same course. */
  ghost predicate SameCourse(s: Run, s': Run, ws: seq<World>, vs: seq<World>, cs: seq<Choice>)
    requires |ws| == |vs| == |cs|
    decreases |ws|
  {
    && s == s'
    && (ws != [] ==>
          var o, o' := Advance(ws[0], s, cs[0]), Advance(vs[0], s', cs[0]);
          Confined(ws[0], s, o, o') && SameCourse(o.s, o'.s, ws[1..], vs[1..], cs[1..]))
  }

  /**
   The pinned parent: a run is decided by what the opened directory shows. Whatever the parent's
   pathname leads to between the explicit checks, and whatever lies in other directories, the run
   takes the same course from beginning to end, and changes nothing in other directories.
   */
  lemma {:induction false} PinnedParent(s: Run, ws: seq<World>, vs: seq<World>, cs: seq<Choice>)
    requires |ws| == |vs| == |cs| && Straight(s) && UsesDirFd(s.cfg) && Agreeing(s, ws, vs, cs)
    ensures SameCourse(s, s, ws, vs, cs)
    decreases |ws|
  {
    if ws != [] {
      StepBounded(ws[0], s, cs[0]);
      if Ready(s) {
        StepConfined(ws[0], vs[0], s, cs[0]);
        StepContinues(ws[0], s, cs[0]);
      }
      PinnedParent(Advance(ws[0], s, cs[0]).s, ws[1..], vs[1..], cs[1..]);
    }
  }
}
