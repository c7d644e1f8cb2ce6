/**
 The two things the POSIX guarantee rests on: nobody touches the source between its last check and
 the rename, and every change of an object moves its change time. Each is shown to be needed by an
 execution from the start of a run in which it is the only assumption broken; and what a run
 publishes is its payload exactly if the source name still leads to the payload at the rename.
 */
module AtomicLimits {
  import opened Wrappers
  import opened FileSystem
  import opened AtomicInstall
  import opened AtomicPublication
  import opened AtomicRuns
  import opened AtomicFrame

  // ---- exactly when the payload is published -----------------------------------------------

  /** The system at the event with which run `i` publishes. */
  function Moment(y: System, es: seq<Event>, i: nat): System
    requires i < |y.runs|
    decreases |es|
  {
    if es == [] || After(y, es[0]).runs[i].commit.published.Some? then y else Moment(After(y, es[0]), es[1..], i)
  }

  lemma RenamePublishesWhatTheNameShows(w: World, s: Run, c: Choice)
    requires Straight(s) && s.commit.published.None? && Advance(w, s, c).s.commit.published.Some?
    ensures s.pc == Proved(Rename)
    ensures Advance(w, s, c).s.commit.published.value.file.bytes == Payload(s.cfg) <==> SourceReady(w, s)
  {
    OnlyRenamePublishes(w, s, c, Step(w, s, c));
  }

  /**
   POSIX, with nothing at all assumed of anybody else: what a run publishes is its payload exactly
   if, at the moment of the rename, the source name leads to an object that holds it.
   */
  lemma {:induction false} PayloadIsPublishedExactlyWhen(y: System, es: seq<Event>, i: nat)
    requires i < |y.runs| && Straight(y.runs[i]) && y.runs[i].commit.published.None?
    requires |Final(y, es).runs| == |y.runs| && Final(y, es).runs[i].commit.published.Some?
    ensures
      var m := Moment(y, es, i);
      && |m.runs| == |y.runs| && m.runs[i].pc == Proved(Rename) && m.runs[i].cfg == y.runs[i].cfg
      && (Final(y, es).runs[i].commit.published.value.file.bytes == Payload(y.runs[i].cfg) <==>
            SourceReady(m.world, m.runs[i]))
    decreases |es|
  {
    var y' := After(y, es[0]);
    if es[0].Move? && es[0].i == i {
      StepBounded(y.world, y.runs[i], es[0].c);
      if Ready(y.runs[i]) { StepKeepsPlatform(y.world, y.runs[i], es[0].c); }
    }
    if y'.runs[i].commit.published.Some? {
      RenamePublishesWhatTheNameShows(y.world, y.runs[i], es[0].c);
      NoRollback(y', es[1..], i);
    } else {
      PayloadIsPublishedExactlyWhen(y', es[1..], i);
    }
  }

  // ---- one run, step by step ---------------------------------------------------------------

  datatype Assumption = QuietWindow | MovingTimes

  /** Every event is allowed, except that one of the two assumptions is dropped. */
  ghost predicate ExecutionWithout(drop: Assumption, y: System, es: seq<Event>)
    decreases |es|
  {
    es != [] ==>
      && (match drop
          case QuietWindow => es[0].Others? ==> Stamped(y.world, es[0].w)
          case MovingTimes => forall j | 0 <= j < |y.runs| && !(es[0].Move? && es[0].i == j) ::
                                Quiet(y.world, After(y, es[0]).world, y.runs[j]))
      && ExecutionWithout(drop, After(y, es[0]), es[1..])
  }

  function Moves(c: Choice, n: nat): seq<Event> {
    if n == 0 then [] else [Move(0, c)] + Moves(c, n - 1)
  }

  function Steps(o: Outcome, c: Choice, n: nat): Outcome
    decreases n
  {
    if n == 0 then o else Steps(Advance(o.w, o.s, c), c, n - 1)
  }

  function Alone(o: Outcome): System {
    System(o.w, [o.s])
  }

  lemma {:induction false} MovesAreSteps(o: Outcome, c: Choice, n: nat, rest: seq<Event>, drop: Assumption)
    ensures Final(Alone(o), Moves(c, n) + rest) == Final(Alone(Steps(o, c, n)), rest)
    ensures ExecutionWithout(drop, Alone(o), Moves(c, n) + rest) <==> ExecutionWithout(drop, Alone(Steps(o, c, n)), rest)
    decreases n
  {
    if n == 0 {
      assert Moves(c, n) + rest == rest;
    } else {
      var es := Moves(c, n) + rest;
      assert es[0] == Move(0, c) && es[1..] == Moves(c, n - 1) + rest;
      var o' := Advance(o.w, o.s, c);
      assert After(Alone(o), es[0]) == Alone(o');
      MovesAreSteps(o', c, n - 1, rest, drop);
    }
  }

  lemma {:induction false} StepsAdd(o: Outcome, c: Choice, m: nat, n: nat)
    ensures Steps(o, c, m + n) == Steps(Steps(o, c, m), c, n)
    decreases m
  {
    if m != 0 {
      StepsAdd(Advance(o.w, o.s, c), c, m - 1, n);
    }
  }

  // ---- the run that goes wrong -------------------------------------------------------------

  const PAYLOAD: Bytes := [1, 2]
  const CFG := Config(Posix, "a", Write(PAYLOAD, false, true), false)
  const GO := Choice(false, 1, "t", 7)
  const NAME := TempName("a", "t")
  const TEMP := Entry(0, NAME)
  const EMPTY := World(map[], map[], 0, {}, {}, 0)
  const FULL := File(PAYLOAD, 3, 3, 1, true)
  const TOKEN := Generation(Snap(7, FULL), Sha256(PAYLOAD))
  const ABSENT := Destination(None, None, None)
  const UNPUBLISHED := Commitment(None, false, NotNeeded)

  function Disk(f: File): World {
    World(map[TEMP := 7], map[7 := f], 0, {}, {}, 3)
  }

  /** The tempfile exists, open for writing, with `n` bytes of the payload in it. */
  function Writing(n: nat): Outcome
    requires n <= 2
  {
    Outcome(World(map[TEMP := 7], map[7 := File(PAYLOAD[..n], n + 1, n + 1, 1, true)], 0, {}, {7}, n + 1),
            Start(CFG).(pc := Preparing(WriteBytes), temp := NAME, tempId := 7, offset := n))
  }

  /** The tempfile is complete and its generation taken. */
  function Snapped(pc: Pc): Run {
    Run(CFG, pc, 0, NAME, 7, 0, 2, TOKEN, ABSENT, None, UNPUBLISHED, false)
  }

  /** The descriptor is open and `read` has been hashed. */
  function Hashed(pc: Pc, read: Bytes): Run {
    Snapped(pc).(pin := Some(Pin(7, TEMP, Snap(7, FULL), read, FULL)))
  }

  lemma Created()
    ensures Steps(Outcome(EMPTY, Start(CFG)), GO, 4) == Writing(0)
  {
    var o := Outcome(EMPTY, Start(CFG));
    var o2 := Outcome(EMPTY, Start(CFG).(pc := Preparing(CreateTemp)));
    assert Steps(o, GO, 2) == o2;
    assert Steps(o2, GO, 2) == Writing(0);
    StepsAdd(o, GO, 2, 2);
  }

  lemma WroteOne(n: nat)
    requires n < 2
    ensures Steps(Writing(n), GO, 1) == Writing(n + 1)
  {
    var f := File(PAYLOAD[..n], n + 1, n + 1, 1, true);
    assert Overlay(f.bytes, n, PAYLOAD[n..n + 1]) == PAYLOAD[..n + 1];
    assert Writing(n + 1).w.files == Writing(n).w.files[7 := File(PAYLOAD[..n + 1], n + 2, n + 2, 1, true)];
  }

  lemma Written()
    ensures Steps(Outcome(EMPTY, Start(CFG)), GO, 8) == Outcome(Disk(FULL), Snapped(Preparing(SnapDest)))
  {
    var o := Outcome(EMPTY, Start(CFG));
    Created();
    WroteOne(0);
    WroteOne(1);
    assert Steps(Writing(2), GO, 2) == Outcome(Disk(FULL), Snapped(Preparing(SnapDest))) by {
      assert PAYLOAD[..2] == PAYLOAD;
      assert {7} - {7} == {};
    }
    StepsAdd(o, GO, 4, 1);
    StepsAdd(o, GO, 5, 1);
    StepsAdd(o, GO, 6, 2);
  }

  lemma Opened()
    ensures Steps(Outcome(Disk(FULL), Snapped(Preparing(SnapDest))), GO, 5) == Outcome(Disk(FULL), Hashed(Capturing(CapStat), []))
  {
    var o := Outcome(Disk(FULL), Snapped(Preparing(SnapDest)));
    var o2 := Outcome(Disk(FULL), Snapped(Validated(TempCheck)));
    var o3 := Outcome(Disk(FULL), Snapped(Validated(OpenSource)));
    assert Steps(o, GO, 2) == o2;
    assert Steps(o2, GO, 1) == o3;
    OpenedAndStated();
    StepsAdd(o, GO, 2, 3);
    StepsAdd(o2, GO, 1, 2);
  }

  lemma OpenedAndStated()
    ensures Steps(Outcome(Disk(FULL), Snapped(Validated(OpenSource))), GO, 2) == Outcome(Disk(FULL), Hashed(Capturing(CapStat), []))
  {
    var o := Outcome(Disk(FULL), Snapped(Validated(OpenSource)));
    var o1 := Outcome(Disk(FULL), Hashed(Pinned(PinCheck), []));
    assert Steps(o, GO, 1) == o1;
    assert Steps(o1, GO, 1) == Outcome(Disk(FULL), Hashed(Capturing(CapStat), []));
    StepsAdd(o, GO, 1, 1);
  }

  lemma ReadOne()
    ensures Steps(Outcome(Disk(FULL), Hashed(Capturing(CapStat), [])), GO, 2) ==
              Outcome(Disk(FULL), Hashed(Capturing(CapRead), [1]))
  {
    var o := Outcome(Disk(FULL), Hashed(Capturing(CapStat), []));
    var o1 := Outcome(Disk(FULL), Hashed(Capturing(CapRead), []));
    assert Steps(o, GO, 1) == o1;
    assert [] + PAYLOAD[0..1] == [1];
    assert Steps(o1, GO, 1) == Outcome(Disk(FULL), Hashed(Capturing(CapRead), [1]));
    StepsAdd(o, GO, 1, 1);
  }

  /** The tempfile with its first byte, which has been hashed already, replaced by `x`. */
  function Rewritten(x: Byte): File {
    FULL.(bytes := [x, 2])
  }

  /** The rest of the capture and the last checks do not look at the first byte again. */
  lemma ReadRest(x: Byte)
    ensures Steps(Outcome(Disk(Rewritten(x)), Hashed(Capturing(CapRead), [1])), GO, 3)
         == Outcome(Disk(Rewritten(x)), Hashed(Proved(ProveStat), PAYLOAD))
  {
    var w := Disk(Rewritten(x));
    var o := Outcome(w, Hashed(Capturing(CapRead), [1]));
    var o1 := Outcome(w, Hashed(Capturing(CapRead), PAYLOAD));
    var o2 := Outcome(w, Hashed(Capturing(CapStatAfter), PAYLOAD));
    assert [1] + [x, 2][1..2] == PAYLOAD;
    assert Steps(o, GO, 1) == o1;
    assert Steps(o1, GO, 1) == o2;
    assert Steps(o2, GO, 1) == Outcome(w, Hashed(Proved(ProveStat), PAYLOAD));
    StepsAdd(o, GO, 1, 2);
    StepsAdd(o1, GO, 1, 1);
  }

  lemma Checked(x: Byte)
    ensures Steps(Outcome(Disk(Rewritten(x)), Hashed(Proved(ProveStat), PAYLOAD)), GO, 2)
         == Outcome(Disk(Rewritten(x)), Hashed(Proved(Rename), PAYLOAD))
  {
  }

  lemma Hashing()
    ensures Steps(Outcome(EMPTY, Start(CFG)), GO, 15) == Outcome(Disk(FULL), Hashed(Capturing(CapRead), [1]))
  {
    var o := Outcome(EMPTY, Start(CFG));
    Written();
    Opened();
    ReadOne();
    StepsAdd(o, GO, 8, 5);
    StepsAdd(o, GO, 13, 2);
  }

  lemma Checking(x: Byte)
    ensures Steps(Outcome(Disk(Rewritten(x)), Hashed(Capturing(CapRead), [1])), GO, 5)
         == Outcome(Disk(Rewritten(x)), Hashed(Proved(Rename), PAYLOAD))
  {
    ReadRest(x);
    Checked(x);
    StepsAdd(Outcome(Disk(Rewritten(x)), Hashed(Capturing(CapRead), [1])), GO, 3, 2);
  }

  lemma Published(w: World)
    requires TEMP in w.names && w.names[TEMP] in w.files && Entry(0, "a") !in w.names
    ensures
      var p := Advance(w, Hashed(Proved(Rename), PAYLOAD), GO).s.commit.published;
      p.Some? && p.value.file == w.files[w.names[TEMP]] && p.value.entry == Entry(0, "a")
  {
    assert TEMP.name != "a";
  }

  lemma RewrittenIsPublished(x: Byte)
    ensures
      var w := Disk(Rewritten(x));
      var p := Steps(Outcome(w, Hashed(Capturing(CapRead), [1])), GO, 6).s.commit.published;
      p.Some? && p.value.entry == Entry(0, "a") && p.value.file.bytes == [x, 2]
  {
    var w := Disk(Rewritten(x));
    Checking(x);
    StepsAdd(Outcome(w, Hashed(Capturing(CapRead), [1])), GO, 5, 1);
    Published(w);
  }

  // ---- the two executions ------------------------------------------------------------------

  /** Somebody else binds the tempfile's name to a new object of their own, properly stamped. */
  const SWAPPED := World(map[TEMP := 8], map[7 := FULL, 8 := File([9], 4, 4, 1, true)], 0, {}, {}, 4)

  /** Twenty steps up to the rename, one swap, the rename. */
  const SWAP_RUN: seq<Event> := Moves(GO, 20) + ([Others(SWAPPED)] + [Move(0, GO)])

  /**
   Without the quiet window: from the start of a run, every other assumption kept, somebody
   else's bytes are published.
   */
  lemma WindowIsNeeded()
    ensures
      var y := Alone(Outcome(EMPTY, Start(CFG)));
      && Initial(Posix, y) && ExecutionWithout(QuietWindow, y, SWAP_RUN)
      && |Final(y, SWAP_RUN).runs| == 1
      && var p := Final(y, SWAP_RUN).runs[0].commit.published;
         p.Some? && p.value.entry == Entry(0, "a") && p.value.file.bytes == [9] != Payload(CFG)
  {
    hide Advance;
    var o := Outcome(EMPTY, Start(CFG));
    var rest := [Others(SWAPPED)] + [Move(0, GO)];
    var o20 := Outcome(Disk(FULL), Hashed(Proved(Rename), PAYLOAD));
    assert Steps(o, GO, 20) == o20 by {
      Hashing();
      assert Rewritten(1) == FULL;
      Checking(1);
      StepsAdd(o, GO, 15, 5);
    }
    MovesAreSteps(o, GO, 20, rest, QuietWindow);
    assert rest[0] == Others(SWAPPED) && rest[1..] == Moves(GO, 1) + [];
    MovesAreSteps(Outcome(SWAPPED, o20.s), GO, 1, [], QuietWindow);
    assert After(Alone(o20), Others(SWAPPED)) == Alone(Outcome(SWAPPED, o20.s));
    Published(SWAPPED);
  }

  /** Fifteen steps into the capture, a rewrite of a byte already hashed, the rest of the run. */
  const REWRITE_RUN: seq<Event> := Moves(GO, 15) + ([Others(Disk(Rewritten(9)))] + Moves(GO, 6))

  /**
   Without moving change times: from the start of a run, every other assumption kept, a rewrite
   during the capture passes every later check and is published.
   */
  lemma StampsAreNeeded()
    ensures
      var y := Alone(Outcome(EMPTY, Start(CFG)));
      && Initial(Posix, y) && ExecutionWithout(MovingTimes, y, REWRITE_RUN)
      && |Final(y, REWRITE_RUN).runs| == 1
      && var p := Final(y, REWRITE_RUN).runs[0].commit.published;
         p.Some? && p.value.entry == Entry(0, "a") && p.value.file.bytes == [9, 2] != Payload(CFG)
  {
    hide Advance;
    var o := Outcome(EMPTY, Start(CFG));
    var w := Disk(Rewritten(9));
    var rest := [Others(w)] + Moves(GO, 6);
    var o15 := Outcome(Disk(FULL), Hashed(Capturing(CapRead), [1]));
    Hashing();
    MovesAreSteps(o, GO, 15, rest, MovingTimes);
    assert rest[0] == Others(w) && rest[1..] == Moves(GO, 6) + [];
    assert After(Alone(o15), Others(w)) == Alone(Outcome(w, o15.s));
    MovesAreSteps(Outcome(w, o15.s), GO, 6, [], MovingTimes);
    RewrittenIsPublished(9);
  }
}
