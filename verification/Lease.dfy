// The singleton lease (core/src/cluster.rs) on a key-value bucket with compare-and-set
// (core/src/bus.rs, Kv), and the supervisors that run a driver under it (core/src/main.rs):
// create if absent, update against a revision, delete without one, and a value that ages out.
// Every acquisition has its own renewal thread and revision; a supervisor has one `running`
// flag for all its attempts. Threads pause, processes die and answers are lost at any moment.

module Lease {
  import opened Wrappers

  /** `Leaving` is the time between the driver's return and the drop of its guard. */
  datatype Phase = Off | Standby | Driving(acq: nat) | Leaving(acq: nat)

  datatype Supervisor = Supervisor(running: bool, phase: Phase)

  /** A renewal thread waits in short ticks, or has an update on its way. */
  datatype Thread = Waiting | Updating | Ended

  /** One acquisition: whose it is, the revision it renews, and the flag its guard sets. */
  datatype Renewer = Renewer(sup: nat, rev: nat, stopped: bool, thread: Thread)

  /** `entry` is the revision of the key's value, if it has one; `lastRev` the newest of all. */
  datatype State = State(entry: Option<nat>, lastRev: nat, sups: seq<Supervisor>, renewers: seq<Renewer>)

  predicate Init(s: State) {
    s.entry.None? && s.renewers == [] && forall u :: 0 <= u < |s.sups| ==> s.sups[u].phase.Off?
  }

  datatype Step =
    | Begin(u: nat)           // an attempt: the flag is set, the supervisor stands by
    | StandDown(u: nat)       // asked to stop while standing by
    | AskStop(u: nat)         // asked to stop at any time: the flag is cleared
    | Create(u: nat)          // create succeeds and the answer arrives: the driver runs
    | CreateUnheard(u: nat)   // it succeeds and the answer is lost: nobody renews this value
    | Wake(i: nat)            // a renewal thread's wait is over, its guard still there
    | StopSeen(i: nat)
    | Renew(i: nat)           // an update reaches the bucket and its answer comes back
    | RenewUnheard(i: nat)
    | RenewFails(i: nat)
    | AgeOut
    | Return(u: nat)          // the driver returns
    | DropGuard(u: nat, deleted: bool)
    | Crash(u: nat)

  predicate Is(s: State, u: nat, p: Phase) { u < |s.sups| && s.sups[u].phase == p }

  predicate Drives(s: State, u: nat) { u < |s.sups| && s.sups[u].phase.Driving? }

  predicate In(s: State, i: nat, t: Thread) { i < |s.renewers| && s.renewers[i].thread == t }

  predicate Enabled(s: State, a: Step) {
    match a
    case Begin(u) => Is(s, u, Off)
    case StandDown(u) => Is(s, u, Standby)
    case AskStop(u) => u < |s.sups|
    case Create(u) => Is(s, u, Standby) && s.entry.None?
    case CreateUnheard(u) => Is(s, u, Standby) && s.entry.None?
    case Wake(i) => In(s, i, Waiting) && !s.renewers[i].stopped
    case StopSeen(i) => In(s, i, Waiting) && s.renewers[i].stopped
    case Renew(i) => In(s, i, Updating)
    case RenewUnheard(i) => In(s, i, Updating)
    case RenewFails(i) => In(s, i, Updating)
    case AgeOut => s.entry.Some?
    case Return(u) => Drives(s, u)
    case DropGuard(u, _) => u < |s.sups| && s.sups[u].phase.Leaving? && s.sups[u].phase.acq < |s.renewers|
    case Crash(u) => u < |s.sups|
  }

  /** The compare-and-set holds: the revision is still the key's latest. */
  predicate Latest(s: State, i: nat)
    requires i < |s.renewers|
  {
    s.entry == Some(s.renewers[i].rev)
  }

  function SetSup(s: State, u: nat, v: Supervisor): (t: State)
    requires u < |s.sups|
  {
    s.(sups := s.sups[u := v])
  }

  function SetRenewer(s: State, i: nat, r: Renewer): (t: State)
    requires i < |s.renewers|
  {
    s.(renewers := s.renewers[i := r])
  }

  function Written(s: State): (t: State) { s.(entry := Some(s.lastRev + 1), lastRev := s.lastRev + 1) }

  /** The renewal thread gives up: it clears the flag of its supervisor, whatever that is doing now, and ends. */
  function GivesUp(s: State, i: nat): (t: State)
    requires i < |s.renewers|
  {
    var r := s.renewers[i];
    var t := SetRenewer(s, i, r.(thread := Ended));
    if r.sup < |s.sups| then SetSup(t, r.sup, s.sups[r.sup].(running := false)) else t
  }

  function Next(s: State, a: Step): (t: State)
    requires Enabled(s, a)
  {
    match a
    case Begin(u) => SetSup(s, u, Supervisor(true, Standby))
    case StandDown(u) => SetSup(s, u, Supervisor(false, Off))
    case AskStop(u) => SetSup(s, u, s.sups[u].(running := false))
    case Create(u) =>
      var r := Renewer(u, s.lastRev + 1, false, Waiting);
      SetSup(Written(s), u, s.sups[u].(phase := Driving(|s.renewers|))).(renewers := s.renewers + [r])
    case CreateUnheard(u) => Written(s)
    case Wake(i) => SetRenewer(s, i, s.renewers[i].(thread := Updating))
    case StopSeen(i) => SetRenewer(s, i, s.renewers[i].(thread := Ended))
    case Renew(i) =>
      if Latest(s, i) then Written(SetRenewer(s, i, s.renewers[i].(rev := s.lastRev + 1, thread := Waiting)))
      else GivesUp(s, i)
    case RenewUnheard(i) => if Latest(s, i) then Written(GivesUp(s, i)) else GivesUp(s, i)
    case RenewFails(i) => GivesUp(s, i)
    case AgeOut => s.(entry := None)
    case Return(u) => SetSup(s, u, s.sups[u].(phase := Leaving(s.sups[u].phase.acq)))
    case DropGuard(u, deleted) =>
      var k := s.sups[u].phase.acq;
      var t := SetRenewer(SetSup(s, u, Supervisor(false, Off)), k, s.renewers[k].(stopped := true));
      if deleted then t.(entry := None, lastRev := s.lastRev + 1) else t
    case Crash(u) =>
      SetSup(s, u, Supervisor(false, Off)).(renewers :=
        seq(|s.renewers|, i requires 0 <= i < |s.renewers| =>
          if s.renewers[i].sup == u then s.renewers[i].(thread := Ended) else s.renewers[i]))
  }

  // ---------- the invariant ----------

  ghost predicate Revisions(s: State) {
    && (s.entry.Some? ==> s.entry.value <= s.lastRev)
    && (forall i :: 0 <= i < |s.renewers| ==> s.renewers[i].rev <= s.lastRev)
    && (forall i, j :: 0 <= i < j < |s.renewers| ==> s.renewers[i].rev != s.renewers[j].rev)
  }

  ghost predicate Owners(s: State) {
    && (forall i :: 0 <= i < |s.renewers| ==> s.renewers[i].sup < |s.sups|)
    && (forall u :: 0 <= u < |s.sups| && (s.sups[u].phase.Driving? || s.sups[u].phase.Leaving?) ==>
          s.sups[u].phase.acq < |s.renewers| && s.renewers[s.sups[u].phase.acq].sup == u)
  }

  ghost predicate Inv(s: State) { Revisions(s) && Owners(s) }

  lemma {:induction false} NextKeeps(s: State, a: Step)
    requires Inv(s) && Enabled(s, a)
    ensures Inv(Next(s, a)) && |Next(s, a).sups| == |s.sups| && |s.renewers| <= |Next(s, a).renewers|
  {
    RevisionsKept(s, a);
    OwnersKept(s, a);
  }

  lemma {:induction false} RevisionsKept(s: State, a: Step)
    requires Inv(s) && Enabled(s, a)
    ensures Revisions(Next(s, a))
  {
    hide Owners;
  }

  lemma {:induction false} OwnersKept(s: State, a: Step)
    requires Inv(s) && Enabled(s, a)
    ensures Owners(Next(s, a))
  {
    hide Revisions;
  }

  ghost predicate CanRun(s: State, steps: seq<Step>)
    decreases |steps|
  {
    steps == [] || (Enabled(s, steps[0]) && CanRun(Next(s, steps[0]), steps[1..]))
  }

  ghost function Run(s: State, steps: seq<Step>): (t: State)
    requires CanRun(s, steps)
    decreases |steps|
  {
    if steps == [] then s else Run(Next(s, steps[0]), steps[1..])
  }

  lemma {:induction false} RunKeeps(s: State, steps: seq<Step>)
    requires Inv(s) && CanRun(s, steps)
    ensures Inv(Run(s, steps)) && |Run(s, steps).sups| == |s.sups| && |s.renewers| <= |Run(s, steps).renewers|
    decreases |steps|
  {
    hide Inv, Enabled, Next;
    if steps != [] {
      NextKeeps(s, steps[0]);
      RunKeeps(Next(s, steps[0]), steps[1..]);
    }
  }

  lemma {:induction false} RunJoin(s: State, x: seq<Step>, y: seq<Step>)
    requires CanRun(s, x)
    ensures CanRun(s, x + y) <==> CanRun(Run(s, x), y)
    ensures CanRun(s, x + y) ==> Run(s, x + y) == Run(Run(s, x), y)
    decreases |x|
  {
    hide Enabled, Next;
    if x == [] {
      assert x + y == y;
    } else {
      RunJoin(Next(s, x[0]), x[1..], y);
      assert (x + y)[1..] == x[1..] + y;
    }
  }

  // ---------- fencing ----------

  /** A renewer that can no longer win the compare-and-set. */
  ghost predicate Stale(s: State, i: nat) {
    i < |s.renewers| && !Latest(s, i)
  }

  /** Renewer `i` gets nowhere from `s` to `t`: its revision stands still, and a thread that ended stays ended. */
  ghost predicate StandsStill(s: State, t: State, i: nat) {
    && i < |s.renewers| && i < |t.renewers| && t.renewers[i].rev == s.renewers[i].rev
    && t.renewers[i].sup == s.renewers[i].sup && (s.renewers[i].thread.Ended? ==> t.renewers[i].thread.Ended?)
  }

  /** Once stale, always stale: its revision stands still and every new one is larger. */
  lemma {:induction false} StaleStays(s: State, a: Step, i: nat)
    requires Inv(s) && Enabled(s, a) && Stale(s, i)
    ensures Stale(Next(s, a), i) && StandsStill(s, Next(s, a), i)
  {
  }

  /** The next update a stale renewer tries clears `running` and ends its thread; the key and every other thread are untouched. */
  lemma {:induction false} StaleStandsDown(s: State, a: Step, i: nat)
    requires Inv(s) && Enabled(s, a) && Stale(s, i) && (a == Renew(i) || a == RenewUnheard(i) || a == RenewFails(i))
    ensures var t := Next(s, a);
            && !t.sups[s.renewers[i].sup].running && t.renewers[i].thread.Ended?
            && t.entry == s.entry && t.lastRev == s.lastRev
            && (forall j :: 0 <= j < |s.renewers| && j != i ==> t.renewers[j] == s.renewers[j])
            && (forall u :: 0 <= u < |s.sups| ==> t.sups[u].phase == s.sups[u].phase)
  {
  }

  lemma {:induction false} StaleForever(s: State, steps: seq<Step>, i: nat)
    requires Inv(s) && CanRun(s, steps) && Stale(s, i)
    ensures Stale(Run(s, steps), i) && StandsStill(s, Run(s, steps), i)
    decreases |steps|
  {
    hide Inv, Enabled, Next;
    if steps != [] {
      NextKeeps(s, steps[0]);
      StaleStays(s, steps[0], i);
      StaleForever(Next(s, steps[0]), steps[1..], i);
    }
  }

  /**
   * Fencing. At any point of any run at most one renewer can still renew. From that point on,
   * whatever happens, every other one never moves its revision again and never wins the
   * compare-and-set, and the next update it tries clears its supervisor's `running` and ends it.
   */
  lemma {:induction false} LeaseFencing(s: State, before: seq<Step>, after: seq<Step>)
    requires Init(s) && CanRun(s, before) && CanRun(Run(s, before), after)
    ensures var now := Run(s, before);
            var later := Run(now, after);
            && (forall i, j :: 0 <= i < j < |now.renewers| ==> !(Latest(now, i) && Latest(now, j)))
            && (forall i: nat :: Stale(now, i) ==> Stale(later, i) && StandsStill(now, later, i))
            && (forall i: nat :: Stale(later, i) && Enabled(later, Renew(i)) ==>
                  && later.renewers[i].sup < |later.sups|
                  && !Next(later, Renew(i)).sups[later.renewers[i].sup].running && Next(later, Renew(i)).entry == later.entry
                  && Next(later, Renew(i)).renewers[i].thread.Ended?)
  {
    hide CanRun, Run;
    RunKeeps(s, before);
    var now := Run(s, before);
    RunKeeps(now, after);
    var later := Run(now, after);
    forall i: nat | Stale(now, i) ensures Stale(later, i) && StandsStill(now, later, i) {
      StaleForever(now, after, i);
    }
    forall i: nat | Stale(later, i) && Enabled(later, Renew(i))
      ensures later.renewers[i].sup < |later.sups|
      ensures !Next(later, Renew(i)).sups[later.renewers[i].sup].running && Next(later, Renew(i)).entry == later.entry
      ensures Next(later, Renew(i)).renewers[i].thread.Ended?
    {
      StaleStandsDown(later, Renew(i), i);
    }
  }

  // ---------- exclusion of running drivers: exactly when ----------

  ghost predicate OneDriving(s: State) {
    forall u, v :: 0 <= u < v < |s.sups| ==> !(Drives(s, u) && Drives(s, v))
  }

  /** The key goes while a driver runs: it ages out, or somebody's guard deletes it. */
  ghost predicate Losing(s: State, a: Step) {
    && s.entry.Some? && (a.AgeOut? || (a.DropGuard? && a.deleted))
    && exists u: nat :: Drives(s, u)
  }

  ghost predicate Lossless(s: State, steps: seq<Step>)
    requires CanRun(s, steps)
    decreases |steps|
  {
    steps == [] || (!Losing(s, steps[0]) && Lossless(Next(s, steps[0]), steps[1..]))
  }

  /** Whoever drives does so under a key that is there, and alone. */
  ghost predicate Guarded(s: State) {
    OneDriving(s) && forall u: nat :: Drives(s, u) ==> s.entry.Some?
  }

  lemma {:induction false} InitGuarded(s: State)
    requires Init(s)
    ensures Inv(s) && Guarded(s)
  {
  }

  lemma {:induction false} GuardedStays(s: State, a: Step)
    requires Inv(s) && Guarded(s) && Enabled(s, a) && !Losing(s, a)
    ensures Guarded(Next(s, a))
  {
    var t := Next(s, a);
    forall u: nat | Drives(t, u) ensures t.entry.Some? {
      assert Drives(s, u) || a == Create(u);
    }
    forall u, v | 0 <= u < v < |t.sups| ensures !(Drives(t, u) && Drives(t, v)) {
      assert Drives(s, u) || !Drives(t, u) || a == Create(u);
      assert Drives(s, v) || !Drives(t, v) || a == Create(v);
    }
  }

  lemma {:induction false} LosslessGuards(s: State, steps: seq<Step>)
    requires Inv(s) && Guarded(s) && CanRun(s, steps) && Lossless(s, steps)
    ensures Guarded(Run(s, steps))
    decreases |steps|
  {
    hide Inv, Guarded, Losing, Enabled, Next;
    if steps != [] {
      NextKeeps(s, steps[0]);
      GuardedStays(s, steps[0]);
      LosslessGuards(Next(s, steps[0]), steps[1..]);
    }
  }

  /** The steps by which `v`, which does not drive, comes to drive under a key that is gone. */
  ghost function Takeover(s: State, v: nat): (steps: seq<Step>)
    requires v < |s.sups|
  {
    match s.sups[v].phase
    case Off => [Begin(v), Create(v)]
    case Standby => [Create(v)]
    case Leaving(_) => [DropGuard(v, false), Begin(v), Create(v)]
    case Driving(_) => []
  }

  lemma {:induction false} OneStep(s: State, a: Step)
    requires Enabled(s, a)
    ensures CanRun(s, [a]) && Run(s, [a]) == Next(s, a)
    ensures !Losing(s, a) ==> Lossless(s, [a])
  {
    hide Enabled, Next, Losing;
    var t := Next(s, a);
    assert [a][1..] == [];
    assert CanRun(t, []) && Run(t, []) == t && Lossless(t, []);
  }

  lemma {:induction false} Prefixed(s: State, a: Step, rest: seq<Step>)
    requires Enabled(s, a) && CanRun(Next(s, a), rest)
    ensures CanRun(s, [a] + rest) && Run(s, [a] + rest) == Run(Next(s, a), rest)
    ensures !Losing(s, a) && Lossless(Next(s, a), rest) ==> Lossless(s, [a] + rest)
  {
    hide Enabled, Next, Losing;
    assert ([a] + rest)[1..] == rest;
  }

  /** Once the key is gone under a running driver, any other supervisor can start its own. */
  lemma {:induction false} TakesOver(s: State, u: nat, v: nat)
    requires Inv(s) && s.entry.None? && Drives(s, u) && v < |s.sups| && u != v
    ensures var more := Takeover(s, v);
            CanRun(s, more) && Lossless(s, more) && !OneDriving(Run(s, more))
    decreases match s.sups[v].phase case Leaving(_) => 2 case Off => 1 case _ => 0
  {
    var p := s.sups[v].phase;
    match p
    case Driving(_) =>
      assert if u < v then Drives(s, u) && Drives(s, v) else Drives(s, v) && Drives(s, u);
    case Standby =>
      OneStep(s, Create(v));
      var t := Next(s, Create(v));
      assert if u < v then Drives(t, u) && Drives(t, v) else Drives(t, v) && Drives(t, u);
    case Off =>
      NextKeeps(s, Begin(v));
      TakesOver(Next(s, Begin(v)), u, v);
      Prefixed(s, Begin(v), [Create(v)]);
      assert [Begin(v)] + [Create(v)] == [Begin(v), Create(v)];
    case Leaving(_) =>
      NextKeeps(s, DropGuard(v, false));
      TakesOver(Next(s, DropGuard(v, false)), u, v);
      Prefixed(s, DropGuard(v, false), [Begin(v), Create(v)]);
      assert [DropGuard(v, false)] + [Begin(v), Create(v)] == [DropGuard(v, false), Begin(v), Create(v)];
  }

  /** After `k` steps of the run, it goes on with `more` and loses no key under a running driver. */
  ghost predicate GoesOn(s: State, steps: seq<Step>, k: nat, more: seq<Step>) {
    k <= |steps| && CanRun(s, steps[..k]) && CanRun(Run(s, steps[..k]), more) && Lossless(Run(s, steps[..k]), more)
  }

  /** From no point of the run on can two drivers come to run at once without a further loss of the key. */
  ghost predicate NeverOverlaps(s: State, steps: seq<Step>) {
    forall k: nat, more :: GoesOn(s, steps, k, more) ==> OneDriving(Run(Run(s, steps[..k]), more))
  }

  lemma {:induction false} PrefixRuns(s: State, steps: seq<Step>, k: nat)
    requires CanRun(s, steps) && k <= |steps|
    ensures CanRun(s, steps[..k]) && CanRun(Run(s, steps[..k]), steps[k..])
    ensures Lossless(s, steps) ==> Lossless(s, steps[..k])
    decreases k
  {
    hide Enabled, Next, Losing;
    if k == 0 {
      assert steps[k..] == steps;
    } else {
      PrefixRuns(Next(s, steps[0]), steps[1..], k - 1);
      assert steps[..k][1..] == steps[1..][..k - 1];
      assert steps[1..][k - 1..] == steps[k..];
    }
  }

  /** The first step of a run that loses the key under a running driver. */
  lemma {:induction false} FirstLoss(s: State, steps: seq<Step>) returns (k: nat)
    requires CanRun(s, steps) && !Lossless(s, steps)
    ensures k < |steps| && CanRun(s, steps[..k]) && Lossless(s, steps[..k])
    ensures Enabled(Run(s, steps[..k]), steps[k]) && Losing(Run(s, steps[..k]), steps[k])
    decreases |steps|
  {
    hide Enabled, Next, Losing;
    if Losing(s, steps[0]) {
      k := 0;
    } else {
      var l := FirstLoss(Next(s, steps[0]), steps[1..]);
      k := l + 1;
      assert steps[..k][1..] == steps[1..][..l] && steps[1..][l] == steps[k];
    }
  }

  /**
   * Exclusion, exactly. Over every run of two or more supervisors: a run in which the key is never
   * lost under a running driver has one driver at a time, and so has whatever follows without such
   * a loss; and a run in which it is lost once can, from that moment, go on to two at once.
   */
  lemma {:induction false} ExclusionExact(s: State, steps: seq<Step>)
    requires Init(s) && |s.sups| >= 2 && CanRun(s, steps)
    ensures Lossless(s, steps) <==> NeverOverlaps(s, steps)
  {
    hide CanRun, Run, Lossless, Inv, Losing, Next, Enabled, OneDriving;
    InitGuarded(s);
    if Lossless(s, steps) {
      forall k: nat, more | GoesOn(s, steps, k, more) ensures OneDriving(Run(Run(s, steps[..k]), more)) {
        PrefixRuns(s, steps, k);
        RunKeeps(s, steps[..k]);
        LosslessGuards(s, steps[..k]);
        LosslessGuards(Run(s, steps[..k]), more);
      }
    } else {
      LossOverlaps(s, steps);
    }
  }

  lemma {:induction false} LossOverlaps(s: State, steps: seq<Step>)
    requires Init(s) && |s.sups| >= 2 && CanRun(s, steps) && !Lossless(s, steps)
    ensures !NeverOverlaps(s, steps)
  {
    hide CanRun, Run, Lossless;
    var k := FirstLoss(s, steps);
    PrefixRuns(s, steps, k + 1);
    var t := Run(s, steps[..k]);
    RunKeeps(s, steps[..k]);
    assert steps[..k + 1] == steps[..k] + [steps[k]];
    OneStep(t, steps[k]);
    RunJoin(s, steps[..k], [steps[k]]);
    var r := Next(t, steps[k]);
    NextKeeps(t, steps[k]);
    var u: nat :| Drives(t, u);
    assert Drives(r, u) && r.entry.None?;
    var v := if u == 0 then 1 else 0;
    TakesOver(r, u, v);
    assert Run(s, steps[..k + 1]) == r;
    assert GoesOn(s, steps, k + 1, Takeover(r, v));
  }

  // ---------- both ways of losing it happen ----------

  const TWO := State(None, 0, [Supervisor(false, Off), Supervisor(false, Off)], [])

  /** The first instance drives and the second stands by. */
  const HELD := State(Some(1), 1, [Supervisor(true, Driving(0)), Supervisor(true, Standby)], [Renewer(0, 1, false, Waiting)])

  lemma {:induction false} Acquired()
    ensures var steps := [Begin(0), Begin(1), Create(0)]; CanRun(TWO, steps) && Run(TWO, steps) == HELD
    ensures Lossless(TWO, [Begin(0), Begin(1), Create(0)])
  {
    var s1 := Next(TWO, Begin(0));
    var s2 := Next(s1, Begin(1));
    assert Next(s2, Create(0)).renewers == HELD.renewers;
    OneStep(s2, Create(0));
    Prefixed(s1, Begin(1), [Create(0)]);
    Prefixed(TWO, Begin(0), [Begin(1)] + [Create(0)]);
    assert [Begin(0)] + ([Begin(1)] + [Create(0)]) == [Begin(0), Begin(1), Create(0)];
  }

  /** A driver stalls past the age limit, a second instance acquires, and the first has not tried to renew yet. */
  lemma {:induction false} AgedOutOverlap()
    ensures CanRun(TWO, [Begin(0), Begin(1), Create(0)]) && Run(TWO, [Begin(0), Begin(1), Create(0)]) == HELD
    ensures Losing(HELD, AgeOut) && CanRun(HELD, [AgeOut, Create(1)]) && !OneDriving(Run(HELD, [AgeOut, Create(1)]))
  {
    Acquired();
    assert Drives(HELD, 0);
    var s4 := Next(HELD, AgeOut);
    var s5 := Next(s4, Create(1));
    OneStep(s4, Create(1));
    Prefixed(HELD, AgeOut, [Create(1)]);
    assert [AgeOut] + [Create(1)] == [AgeOut, Create(1)];
    assert Drives(s5, 0) && Drives(s5, 1);
  }

  /** The first driver has returned, its key has aged out, and the second drives under a key of its own. */
  const LATE := State(Some(2), 2, [Supervisor(true, Leaving(0)), Supervisor(true, Driving(1))],
                      [Renewer(0, 1, false, Waiting), Renewer(1, 2, false, Waiting)])

  lemma {:induction false} Superseded()
    ensures var steps := [Return(0), AgeOut, Create(1)]; CanRun(HELD, steps) && Run(HELD, steps) == LATE && Lossless(HELD, steps)
  {
    var s4 := Next(HELD, Return(0));
    var s5 := Next(s4, AgeOut);
    assert Next(s5, Create(1)).renewers == LATE.renewers;
    OneStep(s5, Create(1));
    assert !Drives(s4, 0) && !Drives(s4, 1);
    Prefixed(s4, AgeOut, [Create(1)]);
    Prefixed(HELD, Return(0), [AgeOut] + [Create(1)]);
    assert [Return(0)] + ([AgeOut] + [Create(1)]) == [Return(0), AgeOut, Create(1)];
  }

  /**
   * The guard deletes the key without its revision: a driver returns, its key ages out while none
   * runs, and another instance acquires and drives. Then the late drop of the first guard deletes
   * the key of the one that drives, the first acquires again, and both drive.
   */
  lemma {:induction false} DeletedOverlap()
    ensures var steps := [Begin(0), Begin(1), Create(0)] + [Return(0), AgeOut, Create(1)];
            CanRun(TWO, steps) && Run(TWO, steps) == LATE
    ensures Lossless(TWO, [Begin(0), Begin(1), Create(0)]) && Run(TWO, [Begin(0), Begin(1), Create(0)]) == HELD
    ensures CanRun(HELD, [Return(0), AgeOut, Create(1)]) && Lossless(HELD, [Return(0), AgeOut, Create(1)])
    ensures Losing(LATE, DropGuard(0, true))
    ensures var more := [DropGuard(0, true), Begin(0), Create(0)]; CanRun(LATE, more) && !OneDriving(Run(LATE, more))
  {
    Acquired();
    Superseded();
    hide CanRun, Run;
    RunJoin(TWO, [Begin(0), Begin(1), Create(0)], [Return(0), AgeOut, Create(1)]);
    assert Drives(LATE, 1);
    var s7 := Next(LATE, DropGuard(0, true));
    var s8 := Next(s7, Begin(0));
    var s9 := Next(s8, Create(0));
    OneStep(s8, Create(0));
    Prefixed(s7, Begin(0), [Create(0)]);
    Prefixed(LATE, DropGuard(0, true), [Begin(0)] + [Create(0)]);
    assert [DropGuard(0, true)] + ([Begin(0)] + [Create(0)]) == [DropGuard(0, true), Begin(0), Create(0)];
    assert Drives(s9, 0) && Drives(s9, 1);
  }

  /** A hand-over is no overlap: the driver returns, its guard releases the key, and the other one acquires at once. */
  lemma {:induction false} HandOver()
    ensures CanRun(TWO, [Begin(0), Begin(1), Create(0)]) && Run(TWO, [Begin(0), Begin(1), Create(0)]) == HELD
    ensures var more := [Return(0), DropGuard(0, true), Create(1)];
            CanRun(HELD, more) && Lossless(HELD, more) && Drives(Run(HELD, more), 1) && OneDriving(Run(HELD, more))
  {
    Acquired();
    var s4 := Next(HELD, Return(0));
    var s5 := Next(s4, DropGuard(0, true));
    var s6 := Next(s5, Create(1));
    OneStep(s5, Create(1));
    assert !Drives(s4, 0) && !Drives(s4, 1);
    Prefixed(s4, DropGuard(0, true), [Create(1)]);
    Prefixed(HELD, Return(0), [DropGuard(0, true)] + [Create(1)]);
    assert [Return(0)] + ([DropGuard(0, true)] + [Create(1)]) == [Return(0), DropGuard(0, true), Create(1)];
    assert !Drives(s6, 0);
  }
}
