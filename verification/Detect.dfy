// A detect unit's snapshots (core/src/main.rs, supervise_detect): one instance feeds the stream
// into an engine, keeps `acked_max` and `retrying`, snapshots the engine's state for a stream
// sequence, and after a crash restores it and re-creates its consumer one past it. The store holds
// one snapshot a unit, and only one of the program's own version is restored. The engine is what
// it was fed, in order; feeding may fail.

module Detect {
  import opened Wrappers

  /** The state of this version of the program for everything up to and including stream sequence `seqNo`. */
  datatype Snapshot = Snapshot(version: nat, seqNo: nat, fed: seq<nat>)

  datatype State = State(
    // what survives a crash
    msgs: set<nat>,                 // stream sequences of the messages the unit consumes
    dlq: set<nat>,
    version: nat,                   // of the program
    snapshot: Option<Snapshot>,     // the one that is stored
    waived: map<nat, set<nat>>,     // behind the consumer when a version was taken up: not for its state
    start: nat,                     // the durable consumer delivers from here on
    acked: set<nat>,                // it has these acks
    // one attempt
    up: bool,
    fed: seq<nat>,
    restored: set<nat>,             // in the state since before this attempt
    seen: set<nat>,                 // processed at least once in this attempt
    toAck: seq<nat>,
    retrying: set<nat>,
    ackedMax: nat,
    acksSinceSnapshot: nat)

  predicate Init(s: State) {
    s.msgs == {} && s.dlq == {} && s.snapshot.None? && s.waived == map[] && s.start == 1 && !s.up && s.acked == {}
  }

  /** How one message is processed, and whether the answer to it leaves. */
  datatype Outcome =
    | Poison(stored: bool)          // not an event
    | Fed(published: bool)          // fed; its emits were all held, or one was refused
    | Fails(last: bool, stored: bool) // the engine fails; `last` once MAX_DELIVERIES is reached

  datatype Step =
    | Arrive(m: nat)
    | Revise(version: nat)             // the program is changed, perhaps back to an earlier version
    | Begin(floor: nat, stored: bool)  // an attempt starts; `stored`: its first snapshot was written
    | Process(m: nat, o: Outcome, ackArrives: bool)
    | Confirm(ok: bool, arrived: set<nat>)
    | Save(stored: bool)
    | Down                             // a crash, a stop, or an error that ends the attempt

  predicate Enabled(s: State, a: Step) {
    match a
    case Arrive(m) => m > 0 && forall x :: x in s.msgs ==> x < m
    case Revise(_) => !s.up
    case Begin(floor, _) => !s.up && (floor == 0 || (floor in s.msgs && forall x :: x in s.msgs && s.start <= x <= floor ==> x in s.acked))
    case Process(m, _, _) => s.up && m in s.msgs && s.start <= m && m !in s.acked
    case Confirm(_, arrived) => s.up && forall x :: x in arrived ==> x in s.toAck
    case Save(_) => s.up && s.toAck == [] && s.acksSinceSnapshot > 0 && s.retrying == {}
    case Down => s.up
  }

  function Buried(s: State, m: nat, stored: bool, ackArrives: bool): (t: State) {
    if stored then s.(dlq := s.dlq + {m}, retrying := s.retrying - {m}, acked := if ackArrives then s.acked + {m} else s.acked)
    else s.(retrying := s.retrying + {m})
  }

  function MaxOf(n: nat, ms: seq<nat>): (r: nat)
    decreases |ms|
  {
    if ms == [] then n else MaxOf(if ms[0] > n then ms[0] else n, ms[1..])
  }

  /** What the consumer does not deliver any more. */
  function Passed(s: State): (ms: set<nat>) { set m | m in s.msgs && (m < s.start || m in s.acked) }

  /** The stored snapshot is of the program's version. */
  predicate Usable(s: State) { s.snapshot.Some? && s.snapshot.value.version == s.version }

  function Restored(s: State): (t: State) {
    s.(up := true, restored := (set x | x in s.fed), seen := {}, toAck := [], retrying := {}, ackedMax := 0, acksSinceSnapshot := 0)
  }

  function Next(s: State, a: Step): (t: State)
    requires Enabled(s, a)
  {
    match a
    case Arrive(m) => s.(msgs := s.msgs + {m})
    case Revise(v) =>
      // a version is taken up afresh unless the stored snapshot is its own
      var kept := v == s.version || (s.snapshot.Some? && s.snapshot.value.version == v);
      s.(version := v, waived := if kept then s.waived else s.waived - {v})
    case Begin(floor, stored) =>
      if Usable(s) then
        // restore, then delete the consumer and create it after the snapshot
        Restored(s.(fed := s.snapshot.value.fed, start := s.snapshot.value.seqNo + 1, acked := {}))
      else
        var waived := if s.version in s.waived then s.waived else s.waived[s.version := Passed(s)];
        Restored(s.(fed := [], waived := waived, snapshot := if stored then Some(Snapshot(s.version, floor, [])) else s.snapshot))
    case Process(m, o, ackArrives) =>
      var t := s.(seen := s.seen + {m});
      (match o
       case Poison(stored) => Buried(t, m, stored, ackArrives)
       case Fed(published) => t.(fed := s.fed + [m], toAck := if published then s.toAck + [m] else s.toAck)
       case Fails(last, stored) =>
         if last then Buried(t, m, stored, ackArrives) else t.(retrying := s.retrying + {m}))
    case Confirm(ok, arrived) =>
      if !ok then s.(toAck := [])
      else s.(toAck := [], acked := s.acked + arrived, retrying := s.retrying - (set x | x in s.toAck),
              ackedMax := MaxOf(s.ackedMax, s.toAck), acksSinceSnapshot := s.acksSinceSnapshot + |s.toAck|)
    case Save(stored) =>
      if stored then s.(snapshot := Some(Snapshot(s.version, s.ackedMax, s.fed)), acksSinceSnapshot := 0) else s
    case Down => s.(up := false)
  }

  // ---------- what always holds ----------

  /** In an attempt, a message that was processed is in the state, dead-lettered or left to retry. */
  ghost predicate Inv(s: State) {
    && (forall m :: m in s.msgs ==> m > 0)
    && (s.snapshot.Some? ==> s.snapshot.value.version in s.waived)
    && (s.up ==>
          && s.version in s.waived
          && (forall m :: m in s.seen ==> m in s.fed || m in s.dlq || m in s.retrying)
          && (forall m :: m in s.toAck ==> m in s.fed && m in s.seen)
          && (forall m :: m in s.restored ==> m in s.fed)
          && (forall m :: m in s.fed ==> m in s.restored || m in s.seen)
          && (s.ackedMax == 0 || s.ackedMax in s.seen)
          && s.seen <= s.msgs)
  }

  lemma {:induction false} MaxOfIsOne(n: nat, ms: seq<nat>)
    ensures MaxOf(n, ms) == n || MaxOf(n, ms) in ms
    decreases |ms|
  {
    if ms != [] {
      MaxOfIsOne(if ms[0] > n then ms[0] else n, ms[1..]);
    }
  }

  lemma {:induction false} ProcessKeeps(s: State, m: nat, o: Outcome, ackArrives: bool)
    requires Inv(s) && Enabled(s, Process(m, o, ackArrives))
    ensures Inv(Next(s, Process(m, o, ackArrives)))
  {
    var t := Next(s, Process(m, o, ackArrives));
    match o
    case Poison(stored) =>
    case Fed(published) =>
      assert forall x :: x in t.fed <==> x in s.fed || x == m;
      assert forall x :: x in t.toAck ==> x in s.toAck || x == m;
    case Fails(last, stored) =>
  }

  lemma {:induction false} ConfirmKeeps(s: State, ok: bool, arrived: set<nat>)
    requires Inv(s) && Enabled(s, Confirm(ok, arrived))
    ensures Inv(Next(s, Confirm(ok, arrived)))
  {
    MaxOfIsOne(s.ackedMax, s.toAck);
    hide MaxOf;
  }

  lemma {:induction false} BeginKeeps(s: State, floor: nat, stored: bool)
    requires Inv(s) && Enabled(s, Begin(floor, stored))
    ensures Inv(Next(s, Begin(floor, stored)))
  {
  }

  lemma {:induction false} NextKeeps(s: State, a: Step)
    requires Inv(s) && Enabled(s, a)
    ensures Inv(Next(s, a))
  {
    match a
    case Process(m, o, ackArrives) => ProcessKeeps(s, m, o, ackArrives);
    case Confirm(ok, arrived) => ConfirmKeeps(s, ok, arrived);
    case Begin(floor, stored) => BeginKeeps(s, floor, stored);
    case Arrive(_) =>
    case Revise(_) =>
    case Save(_) =>
    case Down =>
  }

  // ---------- coverage ----------

  /** A snapshot stands for its sequence: nothing up to it is missing from the state. */
  ghost predicate Covers(s: State) {
    s.snapshot.Some? ==>
      var p := s.snapshot.value;
      && p.version in s.waived
      && forall m :: m in s.msgs && m <= p.seqNo ==> m in p.fed || m in s.dlq || m in s.waived[p.version]
  }

  /** Before the program's version was taken up, for which its state does not stand. */
  predicate Waived(s: State, m: nat) { s.version in s.waived && m in s.waived[s.version] }

  /** Everything up to the highest ack was processed in this attempt, restored, dead-lettered, or before this version. */
  ghost predicate NoGap(s: State) {
    forall m :: m in s.msgs && m <= s.ackedMax ==> m in s.seen || m in s.restored || m in s.dlq || Waived(s, m)
  }

  /** Exactly when a snapshot written now will cover its sequence: when no delivery was skipped. */
  lemma {:induction false} SaveCoversIffNoGap(s: State)
    requires Inv(s) && Enabled(s, Save(true))
    ensures Covers(Next(s, Save(true))) <==> NoGap(s)
  {
    var t := Next(s, Save(true));
    if Covers(t) {
      forall m | m in s.msgs && m <= s.ackedMax ensures m in s.seen || m in s.restored || m in s.dlq || Waived(s, m) {
        assert m in t.msgs && m <= t.snapshot.value.seqNo;
      }
    }
  }

  /** Nothing was passed since this version was taken up but what is dead-lettered. */
  ghost predicate NothingPassed(s: State) {
    s.version !in s.waived || forall m :: m in Passed(s) ==> m in s.dlq || Waived(s, m)
  }

  /**
   * What the unit counts on: an attempt that finds no snapshot of its version is the first one, or
   * nothing was passed since; and no message is processed before an earlier one that the consumer
   * still has to deliver.
   */
  ghost predicate Orderly(s: State, a: Step) {
    && (a.Begin? && !Usable(s) ==> NothingPassed(s))
    && (a.Process? ==> forall x :: x in s.msgs && s.start <= x < a.m ==> x in s.seen || x in s.acked)
  }

  ghost predicate OrderInv(s: State) {
    && Covers(s)
    && (s.snapshot.Some? ==> s.snapshot.value.seqNo == 0 || s.snapshot.value.seqNo in s.msgs)
    && (s.up ==>
          && s.version in s.waived
          && (forall m :: m in s.msgs && m < s.start ==> m in s.fed || m in s.dlq || Waived(s, m))
          && (forall m, x :: m in s.msgs && x in s.seen && s.start <= m < x ==> m in s.seen || m in s.acked)
          && (forall m :: m in s.acked ==> m in s.fed || m in s.dlq || Waived(s, m)))
    && (s.start == 1 || s.start - 1 in s.msgs)
    && s.acked <= s.msgs
    && (forall v :: v in s.waived ==> s.waived[v] <= s.msgs)
  }

  lemma {:induction false} BuriedKeepsOrder(s: State, m: nat, stored: bool, ackArrives: bool)
    requires Inv(s) && OrderInv(s) && Enabled(s, Process(m, Poison(stored), ackArrives)) && Orderly(s, Process(m, Poison(stored), ackArrives))
    ensures OrderInv(Next(s, Process(m, Poison(stored), ackArrives)))
  {
  }

  lemma {:induction false} FedKeepsOrder(s: State, m: nat, published: bool, ackArrives: bool)
    requires Inv(s) && OrderInv(s) && Enabled(s, Process(m, Fed(published), ackArrives)) && Orderly(s, Process(m, Fed(published), ackArrives))
    ensures OrderInv(Next(s, Process(m, Fed(published), ackArrives)))
  {
    var t := Next(s, Process(m, Fed(published), ackArrives));
    assert forall x :: x in t.fed <==> x in s.fed || x == m;
  }

  /** A failure is treated as a message that is no event: dead-lettered, or left to retry. */
  lemma {:induction false} ProcessKeepsOrder(s: State, m: nat, o: Outcome, ackArrives: bool)
    requires Inv(s) && OrderInv(s) && Enabled(s, Process(m, o, ackArrives)) && Orderly(s, Process(m, o, ackArrives))
    ensures OrderInv(Next(s, Process(m, o, ackArrives)))
  {
    hide Inv, OrderInv;
    match o
    case Poison(stored) => BuriedKeepsOrder(s, m, stored, ackArrives);
    case Fed(published) => FedKeepsOrder(s, m, published, ackArrives);
    case Fails(last, stored) => BuriedKeepsOrder(s, m, last && stored, ackArrives);
  }

  lemma {:induction false} BeginKeepsOrder(s: State, floor: nat, stored: bool)
    requires Inv(s) && OrderInv(s) && Enabled(s, Begin(floor, stored)) && Orderly(s, Begin(floor, stored))
    ensures OrderInv(Next(s, Begin(floor, stored)))
  {
  }

  lemma {:induction false} OtherKeepsOrder(s: State, a: Step)
    requires Inv(s) && OrderInv(s) && Enabled(s, a) && !a.Process? && !a.Begin?
    ensures OrderInv(Next(s, a))
  {
    hide MaxOf;
    match a
    case Save(stored) => if stored { SaveCoversIffNoGap(s); }
    case Arrive(m) =>
    case Revise(_) =>
    case Confirm(ok, arrived) =>
    case Down =>
  }

  lemma {:induction false} OrderKeeps(s: State, a: Step)
    requires Inv(s) && OrderInv(s) && Enabled(s, a) && Orderly(s, a)
    ensures OrderInv(Next(s, a))
  {
    match a
    case Process(m, o, ackArrives) => ProcessKeepsOrder(s, m, o, ackArrives);
    case Begin(floor, stored) => BeginKeepsOrder(s, floor, stored);
    case _ => OtherKeepsOrder(s, a);
  }

  ghost predicate CanRun(s: State, steps: seq<Step>)
    decreases |steps|
  {
    steps == [] || (Enabled(s, steps[0]) && CanRun(Next(s, steps[0]), steps[1..]))
  }

  ghost predicate OrderlyRun(s: State, steps: seq<Step>)
    requires CanRun(s, steps)
    decreases |steps|
  {
    steps == [] || (Orderly(s, steps[0]) && OrderlyRun(Next(s, steps[0]), steps[1..]))
  }

  ghost function Run(s: State, steps: seq<Step>): (t: State)
    requires CanRun(s, steps)
    decreases |steps|
  {
    if steps == [] then s else Run(Next(s, steps[0]), steps[1..])
  }

  lemma {:induction false} RunKeeps(s: State, steps: seq<Step>)
    requires Inv(s) && OrderInv(s) && CanRun(s, steps) && OrderlyRun(s, steps)
    ensures Inv(Run(s, steps)) && OrderInv(Run(s, steps))
    decreases |steps|
  {
    hide Inv, OrderInv, Orderly;
    if steps != [] {
      NextKeeps(s, steps[0]);
      OrderKeeps(s, steps[0]);
      RunKeeps(Next(s, steps[0]), steps[1..]);
    }
  }

  /** Nothing is skipped: in the state, dead-lettered, or still to be delivered to this attempt. */
  ghost predicate NoneSkipped(s: State) {
    s.up ==> forall m :: m in s.msgs ==> m in s.fed || m in s.dlq || Waived(s, m) || (s.start <= m && m !in s.acked)
  }

  /** An attempt that finds no snapshot of its version skips nothing, exactly when nothing was passed since that was taken up. */
  lemma {:induction false} FirstAttemptExact(s: State, floor: nat, stored: bool)
    requires Inv(s) && !Usable(s) && Enabled(s, Begin(floor, stored))
    ensures NoneSkipped(Next(s, Begin(floor, stored))) <==> NothingPassed(s)
  {
    var t := Next(s, Begin(floor, stored));
    if s.version in s.waived && NoneSkipped(t) {
      forall m | m in Passed(s) ensures m in s.dlq || Waived(s, m) { assert m in t.msgs; }
    }
  }

  /** The program is never changed. */
  ghost predicate OneVersion(steps: seq<Step>) { forall k :: 0 <= k < |steps| ==> !steps[k].Revise? }

  /** Before the first attempt of all. */
  ghost predicate Untouched(s: State) {
    s.waived == map[] && s.snapshot.None? && !s.up && s.start == 1 && s.acked == {} && forall m :: m in s.msgs ==> m > 0
  }

  /** What the first version of a program on a new consumer waives: nothing. */
  lemma {:induction false} NothingWaived(s: State, steps: seq<Step>)
    requires CanRun(s, steps) && OneVersion(steps) && (s.waived == map[s.version := {}] || Untouched(s))
    ensures var t := Run(s, steps); t.waived == map[t.version := {}] || Untouched(t)
    decreases |steps|
  {
    hide Untouched, Next, Enabled;
    if steps != [] {
      WaivesNothing(s, steps[0]);
      NothingWaived(Next(s, steps[0]), steps[1..]);
    }
  }

  lemma {:induction false} WaivesNothing(s: State, a: Step)
    requires Enabled(s, a) && !a.Revise? && (s.waived == map[s.version := {}] || Untouched(s))
    ensures Next(s, a).waived == map[Next(s, a).version := {}] || Untouched(Next(s, a))
  {
    assert Untouched(s) ==> Passed(s) == {};
  }

  /**
   * Snapshot coverage. Over any number of crashes, restarts and changes of the program with orderly
   * delivery, every stored snapshot has each message up to its sequence in its state or
   * dead-lettered, but for those behind the consumer when its version was taken up, so the
   * attempt that restores it and resumes one past it misses none. For a program that never
   * changed there are none of those.
   */
  lemma {:induction false} SnapshotCoverage(s: State, steps: seq<Step>)
    requires Init(s) && CanRun(s, steps) && OrderlyRun(s, steps)
    ensures Covers(Run(s, steps)) && NoneSkipped(Run(s, steps))
    ensures OneVersion(steps) ==> forall m :: !Waived(Run(s, steps), m)
  {
    RunKeeps(s, steps);
    if OneVersion(steps) { NothingWaived(s, steps); }
  }

  // ---------- without orderly delivery ----------

  const START := State({}, {}, 1, None, map[], 1, {}, false, [], {}, {}, [], {}, 0, 0)

  const BEFORE := START.(msgs := {1, 2}, up := true, waived := map[1 := {}], snapshot := Some(Snapshot(1, 0, [])))
  const FED := BEFORE.(seen := {2}, fed := [2], toAck := [2])
  const ACKED := FED.(toAck := [], acked := {2}, ackedMax := 2, acksSinceSnapshot := 1)
  const SAVED := ACKED.(snapshot := Some(Snapshot(1, 2, [2])), acksSinceSnapshot := 0)

  lemma {:induction false} TwoArrive()
    ensures CanRun(START, [Arrive(1), Arrive(2), Begin(0, true)]) && Run(START, [Arrive(1), Arrive(2), Begin(0, true)]) == BEFORE
  {
    hide CanRun, Run;
    var s1, s2 := START.(msgs := {1}), START.(msgs := {1, 2});
    assert Passed(s2) == {};
    assert s1 == Next(START, Arrive(1)) && s2 == Next(s1, Arrive(2)) && BEFORE == Next(s2, Begin(0, true));
    ChainRun(START, [Arrive(1), Arrive(2), Begin(0, true)], [START, s1, s2, BEFORE]);
  }

  lemma {:induction false} SecondIsAcked()
    ensures CanRun(BEFORE, [Process(2, Fed(true), true), Confirm(true, {2}), Save(true)])
    ensures Run(BEFORE, [Process(2, Fed(true), true), Confirm(true, {2}), Save(true)]) == SAVED
  {
    hide CanRun, Run, MaxOf;
    MaxOfOne(0, 2);
    assert FED == Next(BEFORE, Process(2, Fed(true), true)) && ACKED == Next(FED, Confirm(true, {2})) && SAVED == Next(ACKED, Save(true));
    ChainRun(BEFORE, [Process(2, Fed(true), true), Confirm(true, {2}), Save(true)], [BEFORE, FED, ACKED, SAVED]);
  }

  lemma {:induction false} Resumes()
    ensures CanRun(SAVED, [Down, Begin(0, true)])
    ensures var t := Run(SAVED, [Down, Begin(0, true)]);
            && t.up && t.msgs == {1, 2} && t.fed == [2] && t.dlq == {} && t.start == 3
            && t.version == 1 && t.waived == map[1 := {}] && t.snapshot == Some(Snapshot(1, 2, [2]))
  {
    hide CanRun, Run;
    var down := SAVED.(up := false);
    assert down == Next(SAVED, Down);
    ChainRun(SAVED, [Down, Begin(0, true)], [SAVED, down, Next(down, Begin(0, true))]);
  }

  lemma {:induction false} RunJoin(s: State, x: seq<Step>, y: seq<Step>)
    requires CanRun(s, x) && CanRun(Run(s, x), y)
    ensures CanRun(s, x + y) && Run(s, x + y) == Run(Run(s, x), y)
    decreases |x|
  {
    if x == [] {
      assert x + y == y;
    } else {
      RunJoin(Next(s, x[0]), x[1..], y);
      assert (x + y)[1..] == x[1..] + y;
    }
  }

  /**
   * A delivery lost on the way leaves no trace in `retrying`: the message after it is acked, the
   * snapshot stands for both, and the next attempt starts past the one it never saw.
   */
  lemma {:induction false} SkippedDeliveryIsLost()
    ensures exists s, steps :: Init(s) && CanRun(s, steps) && !Covers(Run(s, steps)) && !NoneSkipped(Run(s, steps))
  {
    hide CanRun, Run;
    var x := [Arrive(1), Arrive(2), Begin(0, true)];
    var y := [Process(2, Fed(true), true), Confirm(true, {2}), Save(true)];
    var z := [Down, Begin(0, true)];
    TwoArrive();
    SecondIsAcked();
    Resumes();
    RunJoin(START, x, y);
    RunJoin(START, x + y, z);
    var t := Run(START, x + y + z);
    assert 1 in t.msgs && 1 !in t.fed && t.start == 3;
  }

  lemma {:induction false} MaxOfOne(n: nat, m: nat)
    ensures MaxOf(n, [m]) == if m > n then m else n
  {
    assert [m][1..] == [];
  }

  /** A run given state by state. */
  lemma {:induction false} ChainRun(s: State, steps: seq<Step>, states: seq<State>)
    requires |states| == |steps| + 1 && states[0] == s
    requires forall i :: 0 <= i < |steps| ==> Enabled(states[i], steps[i]) && states[i + 1] == Next(states[i], steps[i])
    ensures CanRun(s, steps) && Run(s, steps) == states[|steps|]
    decreases |steps|
  {
    if steps != [] {
      ChainRun(states[1], steps[1..], states[1..]);
    }
  }

  /**
   * A first snapshot that is not written leaves nothing to restore: what the attempt acks is in no
   * state when the next one starts, and the first snapshot of that one stands for it.
   */
  lemma {:induction false} FirstSnapshotFails()
    ensures exists s, steps: seq<Step> :: Init(s) && CanRun(s, steps) && InOrder(steps) && !Covers(Run(s, steps)) && !NoneSkipped(Run(s, steps))
  {
    hide CanRun, Run;
    var x, y := [Arrive(1), Begin(0, false), Process(1, Fed(true), true), Confirm(true, {1}), Down], [Begin(1, true)];
    UnsavedStops();
    RunJoin(START, x, y);
    assert x + y == [Arrive(1), Begin(0, false), Process(1, Fed(true), true), Confirm(true, {1}), Down, Begin(1, true)];
    var t := Run(START, x + y);
    assert 1 in t.msgs && 1 !in t.fed && 1 in t.acked && t.snapshot == Some(Snapshot(1, 1, []));
    assert InOrder(x + y);
  }

  const UNSAVED := START.(msgs := {1}, waived := map[1 := {}], seen := {1}, fed := [1], acked := {1}, ackedMax := 1, acksSinceSnapshot := 1)

  lemma {:induction false} UnsavedStops()
    ensures var steps := [Arrive(1), Begin(0, false), Process(1, Fed(true), true), Confirm(true, {1}), Down];
            CanRun(START, steps) && Run(START, steps) == UNSAVED
    ensures CanRun(UNSAVED, [Begin(1, true)]) && Run(UNSAVED, [Begin(1, true)]) == Next(UNSAVED, Begin(1, true))
  {
    hide CanRun, Run, MaxOf;
    MaxOfOne(0, 1);
    var s1 := START.(msgs := {1});
    assert Passed(s1) == {};
    var s2 := s1.(up := true, waived := map[1 := {}]);
    var s3 := s2.(seen := {1}, fed := [1], toAck := [1]);
    var s4 := UNSAVED.(up := true);
    ChainRun(START, [Arrive(1), Begin(0, false), Process(1, Fed(true), true), Confirm(true, {1}), Down], [START, s1, s2, s3, s4, UNSAVED]);
    ChainRun(UNSAVED, [Begin(1, true)], [UNSAVED, Next(UNSAVED, Begin(1, true))]);
  }

  /** There is one message, and it is processed and acked as it should be: no delivery is lost. */
  ghost predicate InOrder(steps: seq<Step>) {
    forall k :: 0 <= k < |steps| && (steps[k].Arrive? || steps[k].Process?) ==> steps[k] == Arrive(1) || steps[k] == Process(1, Fed(true), true)
  }

  // ---------- a change of the program ----------

  /** An orderly run given state by state. */
  lemma {:induction false} ChainOrderly(s: State, steps: seq<Step>, states: seq<State>)
    requires |states| == |steps| + 1 && states[0] == s
    requires forall i :: 0 <= i < |steps| ==>
        Enabled(states[i], steps[i]) && Orderly(states[i], steps[i]) && states[i + 1] == Next(states[i], steps[i])
    ensures CanRun(s, steps) && OrderlyRun(s, steps) && Run(s, steps) == states[|steps|]
    decreases |steps|
  {
    hide Orderly, Enabled, Next;
    if steps != [] {
      ChainOrderly(states[1], steps[1..], states[1..]);
    }
  }

  lemma {:induction false} OrderlyJoin(s: State, x: seq<Step>, y: seq<Step>)
    requires CanRun(s, x) && OrderlyRun(s, x) && CanRun(Run(s, x), y) && OrderlyRun(Run(s, x), y)
    ensures CanRun(s, x + y) && OrderlyRun(s, x + y) && Run(s, x + y) == Run(Run(s, x), y)
    decreases |x|
  {
    hide Orderly, Enabled, Next;
    if x == [] {
      assert x + y == y;
    } else {
      OrderlyJoin(Next(s, x[0]), x[1..], y);
      assert (x + y)[1..] == x[1..] + y;
    }
  }

  const OPEN := START.(msgs := {1}, up := true, waived := map[1 := {}], snapshot := Some(Snapshot(1, 0, [])))
  const CHANGED := OPEN.(seen := {1}, fed := [1], acked := {1}, ackedMax := 1, acksSinceSnapshot := 1, up := false, version := 2)
  const TAKEN_UP := CHANGED.(up := true, fed := [], restored := {}, seen := {}, ackedMax := 0, acksSinceSnapshot := 0, msgs := {1, 2},
                             waived := map[1 := {}, 2 := {1}], snapshot := Some(Snapshot(2, 1, [])))

  lemma {:induction false} Opens()
    ensures CanRun(START, [Arrive(1), Begin(0, true)]) && OrderlyRun(START, [Arrive(1), Begin(0, true)])
    ensures Run(START, [Arrive(1), Begin(0, true)]) == OPEN
  {
    hide CanRun, Run, OrderlyRun;
    var s1 := START.(msgs := {1});
    assert Passed(s1) == {};
    assert Next(s1, Begin(0, true)) == OPEN;
    ChainOrderly(START, [Arrive(1), Begin(0, true)], [START, s1, OPEN]);
  }

  lemma {:induction false} Changes()
    ensures var steps := [Process(1, Fed(true), true), Confirm(true, {1}), Down, Revise(2)];
            CanRun(OPEN, steps) && OrderlyRun(OPEN, steps) && Run(OPEN, steps) == CHANGED
  {
    hide CanRun, Run, OrderlyRun, MaxOf;
    MaxOfOne(0, 1);
    var s3 := OPEN.(seen := {1}, fed := [1], toAck := [1]);
    var s4 := s3.(toAck := [], acked := {1}, ackedMax := 1, acksSinceSnapshot := 1);
    var s5 := s4.(up := false);
    assert s5.waived - {2} == s5.waived;
    ChainOrderly(OPEN, [Process(1, Fed(true), true), Confirm(true, {1}), Down, Revise(2)], [OPEN, s3, s4, s5, CHANGED]);
  }

  lemma {:induction false} TakesUp()
    ensures var steps := [Begin(1, true), Arrive(2)];
            CanRun(CHANGED, steps) && OrderlyRun(CHANGED, steps) && Run(CHANGED, steps) == TAKEN_UP
  {
    hide CanRun, Run, OrderlyRun;
    assert Passed(CHANGED) == {1};
    var s7 := Next(CHANGED, Begin(1, true));
    assert s7.(msgs := {1, 2}) == TAKEN_UP;
    ChainOrderly(CHANGED, [Begin(1, true), Arrive(2)], [CHANGED, s7, TAKEN_UP]);
  }

  lemma {:induction false} SavesNext()
    ensures var steps := [Process(2, Fed(true), true), Confirm(true, {2}), Save(true)];
            && CanRun(TAKEN_UP, steps) && OrderlyRun(TAKEN_UP, steps)
            && Run(TAKEN_UP, steps).snapshot == Some(Snapshot(2, 2, [2])) && Waived(Run(TAKEN_UP, steps), 1)
  {
    hide CanRun, Run, OrderlyRun, MaxOf;
    MaxOfOne(0, 2);
    var s9 := TAKEN_UP.(seen := {2}, fed := [2], toAck := [2]);
    var s10 := s9.(toAck := [], acked := {1, 2}, ackedMax := 2, acksSinceSnapshot := 1);
    var s11 := s10.(snapshot := Some(Snapshot(2, 2, [2])), acksSinceSnapshot := 0);
    ChainOrderly(TAKEN_UP, [Process(2, Fed(true), true), Confirm(true, {2}), Save(true)], [TAKEN_UP, s9, s10, s11]);
  }

  /** The program changes when message 1 is acked: the new version goes on behind it, in an orderly run. */
  lemma {:induction false} NewVersionGoesOn()
    ensures exists s, steps: seq<Step> ::
              && Init(s) && CanRun(s, steps) && OrderlyRun(s, steps) && Run(s, steps).snapshot == Some(Snapshot(2, 2, [2]))
              && Waived(Run(s, steps), 1)
  {
    hide CanRun, Run, OrderlyRun, Waived;
    var w := [Arrive(1), Begin(0, true)];
    var x := [Process(1, Fed(true), true), Confirm(true, {1}), Down, Revise(2)];
    var y := [Begin(1, true), Arrive(2)];
    var z := [Process(2, Fed(true), true), Confirm(true, {2}), Save(true)];
    Opens();
    Changes();
    TakesUp();
    SavesNext();
    OrderlyJoin(START, w, x);
    OrderlyJoin(START, w + x, y);
    OrderlyJoin(START, w + x + y, z);
    assert Init(START);
  }
}
