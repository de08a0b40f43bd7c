// The IBM MQ source (connectors/mq/src/main.rs, run_source): get under syncpoint, publish to the
// bus and wait for its answer, and only then commit. The queue follows the unit-of-work contract
// that the connector's own in-memory broker states.

module MqSource {
  import opened Wrappers

  type Body = seq<char>

  /** A queue with one unit of work. `offered` is everything ever put, `consumed` what is gone for good. */
  class Broker {
    var committed: seq<Body>
    var inFlight: Option<Body>
    ghost var offered: seq<Body>
    ghost var consumed: nat

    ghost predicate Valid()
      reads this
    {
      var out := if inFlight.Some? then 1 else 0;
      && consumed + out <= |offered|
      && committed == offered[consumed + out..]
      && (inFlight.Some? ==> inFlight.value == offered[consumed])
    }

    constructor (queue: seq<Body>)
      ensures Valid() && offered == queue && consumed == 0 && inFlight == None
    {
      committed, inFlight := queue, None;
      offered, consumed := queue, 0;
    }

    /** Other applications put messages at the back. */
    method Put(ms: seq<Body>)
      requires Valid()
      modifies this`committed, this`offered
      ensures Valid() && offered == old(offered) + ms
    {
      committed := committed + ms;
      offered := offered + ms;
    }

    method GetSyncpoint() returns (m: Option<Body>)
      requires Valid() && inFlight.None?
      modifies this`committed, this`inFlight
      ensures Valid() && m == inFlight
      ensures m.None? <==> old(committed) == []
    {
      if committed == [] { return None; }
      m := Some(committed[0]);
      inFlight := m;
      committed := committed[1..];
    }

    method Commit()
      requires Valid()
      modifies this`inFlight, this`consumed
      ensures Valid() && inFlight.None?
      ensures consumed == old(consumed) + if old(inFlight).Some? then 1 else 0
    {
      if inFlight.Some? { consumed := consumed + 1; }
      inFlight := None;
    }

    /** Also what the queue manager does by itself when the connection goes away. */
    method Backout()
      requires Valid()
      modifies this`committed, this`inFlight
      ensures Valid() && inFlight.None?
    {
      if inFlight.Some? { committed := [inFlight.value] + committed; }
      inFlight := None;
    }
  }

  /** A message in the log: its place in the queue, and whether it was stored after its publish had failed. */
  datatype Entry = Entry(k: nat, late: bool)

  class Bus {
    var log: seq<Body>
    var waiting: seq<Body>          // unanswered publishes that may still be stored
    ghost var whose: seq<nat>       // their places in the queue
    ghost var trace: seq<Entry>     // where the log is from
    ghost var failed: multiset<nat> // all publishes that were not answered and not stored at once
    ghost var times: seq<nat>       // how often each message was stored at once

    constructor ()
      ensures log == [] && waiting == [] && whose == [] && trace == [] && failed == multiset{} && times == []
    {
      log, waiting := [], [];
      whose, trace, failed, times := [], [], multiset{}, [];
    }
  }

  function Repeat(b: Body, n: nat): (r: seq<Body>) { seq(n, i => b) }

  /** The messages of a queue in order, the first `times[0]` times, the next `times[1]` times, ... */
  function Expand(queue: seq<Body>, times: seq<nat>): (r: seq<Body>)
    requires |times| <= |queue|
  {
    if times == [] then []
    else
      var n := |times| - 1;
      Expand(queue, times[..n]) + Repeat(queue[n], times[n])
  }

  /**
   * The log is the queue from its first message on, in order, each message at least once; every
   * consumed message is in it, and at most one more, the one in flight.
   */
  ghost predicate InOrder(queue: seq<Body>, consumed: nat, log: seq<Body>, times: seq<nat>) {
    && consumed <= |times| <= consumed + 1 && |times| <= |queue|
    && (forall i :: 0 <= i < |times| ==> times[i] >= 1)
    && log == Expand(queue, times)
  }

  lemma {:induction false} ExpandLonger(queue: seq<Body>, more: seq<Body>, times: seq<nat>)
    requires |times| <= |queue|
    ensures Expand(queue + more, times) == Expand(queue, times)
  {
    if times != [] { ExpandLonger(queue, more, times[..|times| - 1]); }
  }

  /** Every message with a count is in the log, and the log holds nothing else. */
  lemma {:induction false} ExpandHolds(queue: seq<Body>, times: seq<nat>)
    requires |times| <= |queue| && forall i :: 0 <= i < |times| ==> times[i] >= 1
    ensures forall k :: 0 <= k < |times| ==> queue[k] in Expand(queue, times)
    ensures forall b :: b in Expand(queue, times) ==> b in queue[..|times|]
  {
    if times != [] {
      var n := |times| - 1;
      ExpandHolds(queue, times[..n]);
      assert Repeat(queue[n], times[n])[0] == queue[n];
      assert queue[..n + 1] == queue[..n] + [queue[n]];
    }
  }

  /** Publishing the in-flight message again, or for the first time, keeps the order. */
  function Again(times: seq<nat>, consumed: nat): (r: seq<nat>)
    requires consumed <= |times| <= consumed + 1
  {
    if |times| == consumed then times + [1] else times[..consumed] + [times[consumed] + 1]
  }

  lemma {:induction false} PublishKeepsOrder(queue: seq<Body>, consumed: nat, log: seq<Body>, times: seq<nat>)
    requires InOrder(queue, consumed, log, times) && consumed < |queue|
    ensures InOrder(queue, consumed, log + [queue[consumed]], Again(times, consumed))
    ensures |Again(times, consumed)| == consumed + 1
  {
    var times' := Again(times, consumed);
    assert times'[..consumed] == times[..consumed];
    var b := queue[consumed];
    if |times| == consumed {
      assert times[..consumed] == times;
      assert Repeat(b, 1) == [b];
    } else {
      assert Repeat(b, times[consumed] + 1) == Repeat(b, times[consumed]) + [b];
      assert log + [b] == Expand(queue, times[..consumed]) + (Repeat(b, times[consumed]) + [b]);
    }
  }

  // ---------- stores that come late ----------

  function Bodies(queue: seq<Body>, ks: seq<nat>): (r: seq<Body>)
    requires forall i :: 0 <= i < |ks| ==> ks[i] < |queue|
  {
    seq(|ks|, i requires 0 <= i < |ks| => queue[ks[i]])
  }

  function Places(trace: seq<Entry>): (ks: seq<nat>) { seq(|trace|, i requires 0 <= i < |trace| => trace[i].k) }

  /** What was stored at once, in order. */
  function Prompt(trace: seq<Entry>): (ks: seq<nat>)
  {
    if trace == [] then []
    else
      var n := |trace| - 1;
      Prompt(trace[..n]) + if trace[n].late then [] else [trace[n].k]
  }

  /** What was stored late. */
  function Late(trace: seq<Entry>): (ks: multiset<nat>) {
    if trace == [] then multiset{}
    else
      var n := |trace| - 1;
      Late(trace[..n]) + if trace[n].late then multiset{trace[n].k} else multiset{}
  }

  /** Every message before the `k`-th was stored at once before the log got as long as `n`. */
  ghost predicate Preceded(trace: seq<Entry>, n: nat, k: nat)
    requires n <= |trace|
  {
    forall m: nat :: m < k ==> Entry(m, false) in trace[..n]
  }

  /**
   * The log without the late stores is the queue in order, each message at least once and repeats
   * of one message at a time. A message, late or not, comes after all that were before it in the
   * queue; only a late one can also come after a later message, and each late store is of a
   * publish that was not answered.
   */
  ghost predicate Accounted(queue: seq<Body>, consumed: nat, log: seq<Body>, trace: seq<Entry>, times: seq<nat>, whose: seq<nat>, failed: multiset<nat>) {
    && consumed <= |queue| && (forall i :: 0 <= i < |trace| ==> trace[i].k < |queue| && trace[i].k <= consumed)
    && log == Bodies(queue, Places(trace))
    && (forall i :: 0 <= i < |Prompt(trace)| ==> Prompt(trace)[i] < |queue|)
    && InOrder(queue, consumed, Bodies(queue, Prompt(trace)), times)
    && Preceded(trace, |trace|, consumed)
    && (forall i :: 0 <= i < |trace| ==> Preceded(trace, i, trace[i].k))
    && (forall i, j :: 0 <= i < j < |trace| && trace[i].k > trace[j].k ==> trace[j].late)
    && (forall i :: 0 <= i < |whose| ==> whose[i] < |queue| && whose[i] <= consumed)
    && Late(trace) + multiset(whose) == failed
  }

  ghost predicate Kept(broker: Broker, bus: Bus)
    reads broker, bus
  {
    && Accounted(broker.offered, broker.consumed, bus.log, bus.trace, bus.times, bus.whose, bus.failed)
    && |bus.waiting| == |bus.whose| && (forall i :: 0 <= i < |bus.waiting| ==> bus.waiting[i] == broker.offered[bus.whose[i]])
  }

  lemma {:induction false} TraceGrows(queue: seq<Body>, trace: seq<Entry>, e: Entry)
    requires (forall i :: 0 <= i < |trace| ==> trace[i].k < |queue|) && e.k < |queue|
    ensures forall i :: 0 <= i < |trace + [e]| ==> (trace + [e])[i].k < |queue|
    ensures Bodies(queue, Places(trace + [e])) == Bodies(queue, Places(trace)) + [queue[e.k]]
    ensures Prompt(trace + [e]) == Prompt(trace) + (if e.late then [] else [e.k])
    ensures Late(trace + [e]) == Late(trace) + (if e.late then multiset{e.k} else multiset{})
    ensures forall n: nat, k: nat :: n <= |trace| ==> (Preceded(trace + [e], n, k) <==> Preceded(trace, n, k))
  {
    var t := trace + [e];
    assert t[..|trace|] == trace;
    forall n: nat, k: nat | n <= |trace| ensures Preceded(t, n, k) <==> Preceded(trace, n, k) { assert t[..n] == trace[..n]; }
  }

  /** Storing a message that is not beyond the one in flight keeps each after its predecessors. */
  lemma {:induction false} StoreKeepsPlaces(trace: seq<Entry>, consumed: nat, e: Entry)
    requires e.k <= consumed && Preceded(trace, |trace|, consumed) && forall i :: 0 <= i < |trace| ==> Preceded(trace, i, trace[i].k)
    ensures Preceded(trace + [e], |trace| + 1, consumed)
    ensures forall i :: 0 <= i <= |trace| ==> Preceded(trace + [e], i, (trace + [e])[i].k)
  {
    var t := trace + [e];
    assert t[..|trace| + 1] == t && trace[..|trace|] == trace;
    forall i | 0 <= i <= |trace| ensures Preceded(t, i, t[i].k) { assert t[..i] == trace[..i]; }
  }

  /** Publishing the message in flight. */
  lemma {:induction false} PromptKept(queue: seq<Body>, consumed: nat, log: seq<Body>, trace: seq<Entry>, times: seq<nat>, whose: seq<nat>, failed: multiset<nat>)
    requires Accounted(queue, consumed, log, trace, times, whose, failed) && consumed < |queue|
    ensures consumed <= |times| <= consumed + 1 && |Again(times, consumed)| == consumed + 1
    ensures Accounted(queue, consumed, log + [queue[consumed]], trace + [Entry(consumed, false)], Again(times, consumed), whose, failed)
  {
    hide InOrder, Prompt, Late, Again, Preceded;
    var e := Entry(consumed, false);
    assert consumed <= |times| <= consumed + 1 by { TimesReach(queue, consumed, Bodies(queue, Prompt(trace)), times); }
    TraceGrows(queue, trace, e);
    PublishKeepsOrder(queue, consumed, Bodies(queue, Prompt(trace)), times);
    assert Bodies(queue, Prompt(trace + [e])) == Bodies(queue, Prompt(trace)) + [queue[consumed]];
    StoreKeepsPlaces(trace, consumed, e);
  }

  lemma {:induction false} TimesReach(queue: seq<Body>, consumed: nat, log: seq<Body>, times: seq<nat>)
    requires InOrder(queue, consumed, log, times)
    ensures consumed <= |times| <= consumed + 1
  {
  }

  /** A publish that fails. */
  lemma {:induction false} FailedKept(queue: seq<Body>, consumed: nat, log: seq<Body>, trace: seq<Entry>, times: seq<nat>, whose: seq<nat>, failed: multiset<nat>)
    requires Accounted(queue, consumed, log, trace, times, whose, failed) && consumed < |queue|
    ensures Accounted(queue, consumed, log, trace, times, whose + [consumed], failed + multiset{consumed})
  {
    hide InOrder, Prompt, Late, Preceded;
  }

  /** Storing one of the publishes that failed. */
  lemma {:induction false} LateKept(queue: seq<Body>, consumed: nat, log: seq<Body>, trace: seq<Entry>, times: seq<nat>, whose: seq<nat>, failed: multiset<nat>, p: nat)
    requires Accounted(queue, consumed, log, trace, times, whose, failed) && p < |whose|
    ensures Accounted(queue, consumed, log + [queue[whose[p]]], trace + [Entry(whose[p], true)], times, whose[..p] + whose[p + 1..], failed)
  {
    hide InOrder, Prompt, Late, Preceded;
    var e := Entry(whose[p], true);
    TraceGrows(queue, trace, e);
    assert Prompt(trace + [e]) == Prompt(trace);
    StoreKeepsPlaces(trace, consumed, e);
    assert whose == whose[..p] + [whose[p]] + whose[p + 1..];
  }

  /** More messages in the queue. */
  lemma {:induction false} LongerKept(queue: seq<Body>, more: seq<Body>, consumed: nat, log: seq<Body>, trace: seq<Entry>, times: seq<nat>, whose: seq<nat>, failed: multiset<nat>)
    requires Accounted(queue, consumed, log, trace, times, whose, failed)
    ensures Accounted(queue + more, consumed, log, trace, times, whose, failed)
  {
    hide Prompt, Late, Preceded, Expand;
    ExpandLonger(queue, more, times);
    assert Bodies(queue + more, Prompt(trace)) == Bodies(queue, Prompt(trace));
    assert Bodies(queue + more, Places(trace)) == Bodies(queue, Places(trace));
  }

  /** A commit after the publish was stored. */
  lemma {:induction false} CommitKept(queue: seq<Body>, consumed: nat, log: seq<Body>, trace: seq<Entry>, times: seq<nat>, whose: seq<nat>, failed: multiset<nat>)
    requires Accounted(queue, consumed, log, trace, times, whose, failed) && |times| == consumed + 1 && Entry(consumed, false) in trace
    ensures Accounted(queue, consumed + 1, log, trace, times, whose, failed)
  {
    hide Prompt, Late, Expand;
    assert trace[..|trace|] == trace;
  }

  /** Without late stores the log is the queue in order. */
  lemma {:induction false} AllPrompt(trace: seq<Entry>)
    requires forall i :: 0 <= i < |trace| ==> !trace[i].late
    ensures Prompt(trace) == Places(trace)
  {
    if trace != [] {
      var n := |trace| - 1;
      AllPrompt(trace[..n]);
      assert Places(trace) == Places(trace[..n]) + [trace[n].k];
    }
  }

  /** What the log then holds: every consumed message, and nothing that was not in the queue. */
  lemma {:induction false} LogHolds(queue: seq<Body>, consumed: nat, log: seq<Body>, trace: seq<Entry>, times: seq<nat>, whose: seq<nat>, failed: multiset<nat>)
    requires Accounted(queue, consumed, log, trace, times, whose, failed)
    ensures forall k :: 0 <= k < consumed ==> queue[k] in log
    ensures forall b :: b in log ==> b in queue
    ensures (forall i :: 0 <= i < |trace| ==> !trace[i].late) ==> InOrder(queue, consumed, log, times)
  {
    hide InOrder, Prompt, Late;
    forall k | 0 <= k < consumed ensures queue[k] in log {
      assert Entry(k, false) in trace[..|trace|];
      var i :| 0 <= i < |trace| && trace[i] == Entry(k, false);
      assert log[i] == queue[k];
    }
    if forall i :: 0 <= i < |trace| ==> !trace[i].late { AllPrompt(trace); }
  }

  // ---------- the loop ----------

  /** How a publish ends: stored and answered, stored with the answer lost, or neither, and perhaps stored later. */
  datatype Publish = Answered | AnswerLost | Unanswered

  /** How a commit ends; one that is reported as failed may still have been done. */
  datatype Commit = Done | Failed | DoneUnsure

  datatype Crash = Never | AfterGet | AfterPublish

  /** What the outside does during one turn of the loop; `late` are places in `waiting` to be stored now. */
  datatype Turn = Turn(arrivals: seq<Body>, late: seq<nat>, alive: bool, getFails: bool, publish: Publish, commit: Commit,
                       backoutFails: bool, crash: Crash)

  datatype Exit = Stopped | Fatal | Crashed

  /** The server stores some of the publishes that failed, from connections that are gone. */
  method StoreLate(broker: Broker, bus: Bus, late: seq<nat>)
    requires broker.Valid() && Kept(broker, bus)
    modifies bus
    ensures Kept(broker, bus) && old(bus.log) <= bus.log && bus.failed == old(bus.failed)
  {
    hide Accounted;
    for i := 0 to |late|
      invariant Kept(broker, bus) && old(bus.log) <= bus.log && bus.failed == old(bus.failed)
    {
      var p := late[i];
      if p < |bus.waiting| {
        LateKept(broker.offered, broker.consumed, bus.log, bus.trace, bus.times, bus.whose, bus.failed, p);
        bus.log := bus.log + [bus.waiting[p]];
        bus.trace := bus.trace + [Entry(bus.whose[p], true)];
        bus.waiting := bus.waiting[..p] + bus.waiting[p + 1..];
        bus.whose := bus.whose[..p] + bus.whose[p + 1..];
      }
    }
  }

  /** One publish of the message in flight. */
  method Send(broker: Broker, bus: Bus, b: Body, publish: Publish)
    requires broker.Valid() && Kept(broker, bus) && broker.inFlight == Some(b)
    modifies bus
    ensures Kept(broker, bus) && old(bus.log) <= bus.log
    ensures !publish.Unanswered? ==> Entry(broker.consumed, false) in bus.trace && |bus.times| == broker.consumed + 1 && bus.failed == old(bus.failed)
    ensures publish.Unanswered? ==> bus.log == old(bus.log) && bus.failed == old(bus.failed) + multiset{broker.consumed}
  {
    hide Accounted, InOrder;
    if publish.Unanswered? {
      FailedKept(broker.offered, broker.consumed, bus.log, bus.trace, bus.times, bus.whose, bus.failed);
      bus.waiting := bus.waiting + [b];
      bus.whose := bus.whose + [broker.consumed];
      bus.failed := bus.failed + multiset{broker.consumed};
    } else {
      PromptKept(broker.offered, broker.consumed, bus.log, bus.trace, bus.times, bus.whose, bus.failed);
      bus.log := bus.log + [b];
      bus.times := Again(bus.times, broker.consumed);
      bus.trace := bus.trace + [Entry(broker.consumed, false)];
    }
  }

  /**
   * run_source: whatever the outside does, the log without the late stores is the queue in order
   * with repeats of one message at a time, no message overtakes an earlier one, and what is
   * consumed is on the bus.
   */
  method RunSource(broker: Broker, bus: Bus, turns: seq<Turn>) returns (exit: Exit)
    requires broker.Valid() && broker.inFlight.None? && Kept(broker, bus)
    modifies broker, bus
    ensures broker.Valid() && old(broker.offered) <= broker.offered && old(broker.consumed) <= broker.consumed
    ensures Kept(broker, bus) && old(bus.log) <= bus.log
    ensures (broker.consumed - old(broker.consumed), exit) == Life(turns, |old(broker.committed)|)
  {
    hide Accounted, Attempt, Life;
    assert turns[0..] == turns;
    for i := 0 to |turns|
      invariant broker.Valid() && broker.inFlight.None?
      invariant var rest := Life(turns[i..], |broker.committed|);
                (broker.consumed - old(broker.consumed) + rest.0, rest.1) == Life(turns, |old(broker.committed)|)
      invariant old(broker.offered) <= broker.offered && old(broker.consumed) <= broker.consumed
      invariant Kept(broker, bus) && old(bus.log) <= bus.log
    {
      var turn := turns[i];
      LifeTurn(turns, i, |broker.committed|);
      LongerKept(broker.offered, turn.arrivals, broker.consumed, bus.log, bus.trace, bus.times, bus.whose, bus.failed);
      WhoseKept(broker, bus);
      broker.Put(turn.arrivals);
      StoreLate(broker, bus, turn.late);
      if !turn.alive { return Stopped; }
      if turn.getFails { return Fatal; }
      var got := broker.GetSyncpoint();
      if got.None? { continue; }
      var ended := Handle(broker, bus, got.value, turn);
      if ended.Some? { return ended.value; }
    }
    LifeOver(|broker.committed|);
    assert turns[|turns|..] == [];
    return Stopped;
  }

  /**
   * What one life comes to with `waiting` messages in the queue: how many it consumes, and how it ends. A
   * message goes when its publish is answered and its commit is done; a publish that fails leaves it first in line.
   */
  function Life(turns: seq<Turn>, waiting: nat): (r: (nat, Exit))
    decreases |turns|
  {
    if turns == [] then (0, Stopped)
    else
      var t, rest := turns[0], turns[1..];
      var w := waiting + |t.arrivals|;
      if !t.alive then (0, Stopped)
      else if t.getFails then (0, Fatal)
      else if w == 0 then Life(rest, 0)
      else match Attempt(t)
        case (n, Some(exit)) => (n, exit)
        case (n, None) => (n + Life(rest, w - n).0, Life(rest, w - n).1)
  }

  lemma {:induction false} LifeOver(waiting: nat)
    ensures Life([], waiting) == (0, Stopped)
  {
  }

  /** One turn of the loop. */
  lemma {:induction false} LifeTurn(turns: seq<Turn>, i: nat, waiting: nat)
    requires i < |turns|
    ensures var t, w := turns[i], waiting + |turns[i].arrivals|;
            Life(turns[i..], waiting) ==
            if !t.alive then (0, Stopped)
            else if t.getFails then (0, Fatal)
            else if w == 0 then Life(turns[i + 1..], 0)
            else if Attempt(t).1.Some? then (Attempt(t).0, Attempt(t).1.value)
            else (Attempt(t).0 + Life(turns[i + 1..], w - Attempt(t).0).0, Life(turns[i + 1..], w - Attempt(t).0).1)
  {
    hide Attempt;
    assert turns[i..][0] == turns[i] && turns[i..][1..] == turns[i + 1..];
  }

  /** What becomes of the message one turn gets: whether it is consumed, and whether that ends the loop. */
  function Attempt(t: Turn): (r: (nat, Option<Exit>))
    ensures r.0 <= 1
  {
    if !t.crash.Never? then (0, Some(Crashed))
    else if !t.publish.Answered? then (0, if t.backoutFails then Some(Fatal) else None)
    else match t.commit
      case Failed => (0, Some(Fatal))
      case DoneUnsure => (1, Some(Fatal))
      case Done => (1, None)
  }

  /** Publish the message in flight, and commit it or put it back. */
  method Handle(broker: Broker, bus: Bus, b: Body, turn: Turn) returns (exit: Option<Exit>)
    requires broker.Valid() && Kept(broker, bus) && broker.inFlight == Some(b)
    modifies broker, bus
    ensures broker.Valid() && Kept(broker, bus) && broker.offered == old(broker.offered) && old(bus.log) <= bus.log
    ensures (broker.consumed - old(broker.consumed), exit) == Attempt(turn)
    ensures exit.None? ==> broker.inFlight.None?
  {
    hide Accounted;
    if turn.crash.AfterGet? { return Some(Crashed); }
    Send(broker, bus, b, turn.publish);
    if turn.crash.AfterPublish? { return Some(Crashed); }
    if turn.publish.Answered? {
      if turn.commit.Failed? { return Some(Fatal); }
      CommitKept(broker.offered, broker.consumed, bus.log, bus.trace, bus.times, bus.whose, bus.failed);
      broker.Commit();
      if turn.commit.DoneUnsure? { return Some(Fatal); }
    } else {
      if turn.backoutFails { return Some(Fatal); }
      broker.Backout();
    }
    return None;
  }

  /** A turn that goes on: at worst the publish fails and the message goes back. */
  predicate GoesOn(t: Turn) {
    t.alive && !t.getFails && t.crash.Never? && (if t.publish.Answered? then t.commit.Done? else !t.backoutFails)
  }

  function Goods(turns: seq<Turn>): (n: nat) {
    if turns == [] then 0 else (if turns[0].publish.Answered? then 1 else 0) + Goods(turns[1..])
  }

  /**
   * Progress: while nothing ends the loop, every turn whose publish is answered consumes a message as long as
   * there is one, and no other turn does.
   */
  lemma {:induction false} LifeDrains(turns: seq<Turn>, waiting: nat)
    requires forall i :: 0 <= i < |turns| ==> GoesOn(turns[i]) && turns[i].arrivals == []
    ensures Life(turns, waiting) == (if Goods(turns) <= waiting then Goods(turns) else waiting, Stopped)
    decreases |turns|
  {
    if turns != [] {
      var t, rest := turns[0], turns[1..];
      assert GoesOn(t);
      assert forall i :: 0 <= i < |rest| ==> rest[i] == turns[i + 1];
      LifeDrains(rest, if t.publish.Answered? && waiting > 0 then waiting - 1 else waiting);
    }
  }

  lemma {:induction false} WhoseKept(broker: Broker, bus: Bus)
    requires Kept(broker, bus)
    ensures forall i :: 0 <= i < |bus.whose| ==> bus.whose[i] < |broker.offered|
  {
  }

  /**
   * Any number of lives of the connector on one queue: between two of them the queue manager
   * rolls the open unit of work back. Nothing is lost, and only a late store of a publish that
   * failed comes after a later message.
   */
  method Lives(broker: Broker, bus: Bus, lives: seq<seq<Turn>>)
    requires broker.Valid() && broker.inFlight.None? && Kept(broker, bus)
    modifies broker, bus
    ensures broker.Valid() && Kept(broker, bus)
    ensures forall k :: 0 <= k < broker.consumed ==> broker.offered[k] in bus.log
    ensures forall b :: b in bus.log ==> b in broker.offered
    ensures (forall i :: 0 <= i < |bus.trace| ==> !bus.trace[i].late) ==> InOrder(broker.offered, broker.consumed, bus.log, bus.times)
    ensures broker.inFlight.None? && broker.committed == broker.offered[broker.consumed..]
  {
    for i := 0 to |lives|
      invariant broker.Valid() && broker.inFlight.None? && Kept(broker, bus)
    {
      var _ := RunSource(broker, bus, lives[i]);
      broker.Backout();
    }
    LogHolds(broker.offered, broker.consumed, bus.log, bus.trace, bus.times, bus.whose, bus.failed);
  }
}
