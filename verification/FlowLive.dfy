// Progress of a flow unit (core/src/main.rs, supervise_vjs): while the connection is up, a message
// that the consumer has no ack for can come to be acked, its emissions read by the server, or to be
// dead-lettered if it is poison or failed too often. Nothing has to be lost, stopped or restarted for it.

module FlowLive {
  import opened Wrappers
  import L = Link
  import LL = LinkLive
  import opened Flow

  // ---------- runs ----------

  /** Worker `t` delivers, processes and acks; the link only moves on. */
  ghost predicate Steady(steps: seq<Step>, t: nat) {
    forall k :: 0 <= k < |steps| ==> Own(steps[k], t)
  }

  ghost predicate Own(a: Step, t: nat) {
    match a
    case Net(x) => LL.Calm(x, t)
    case Deliver(u, _) => u == t
    case Process(u, _, _, _) => u == t
    case EndRound(u, _) => u == t
    case Finish(u, _) => u == t
    case _ => false
  }

  /** `r` can come of `s` so. */
  ghost predicate Reaches(s: State, r: State, t: nat) {
    exists steps :: Steady(steps, t) && CanRun(s, steps) && Run(s, steps) == r
  }

  lemma {:induction false} RunJoin(s: State, x: seq<Step>, y: seq<Step>)
    requires CanRun(s, x) && CanRun(Run(s, x), y)
    ensures CanRun(s, x + y) && Run(s, x + y) == Run(Run(s, x), y)
    decreases |x|
  {
    hide Enabled, Next;
    if x == [] {
      assert x + y == y;
    } else {
      RunJoin(Next(s, x[0]), x[1..], y);
      assert (x + y)[0] == x[0] && (x + y)[1..] == x[1..] + y;
    }
  }

  lemma {:induction false} ReachesOn(s: State, r: State, q: State, t: nat)
    requires Reaches(s, r, t) && Reaches(r, q, t)
    ensures Reaches(s, q, t)
  {
    hide Own, CanRun, Run;
    var x :| Steady(x, t) && CanRun(s, x) && Run(s, x) == r;
    var y :| Steady(y, t) && CanRun(r, y) && Run(r, y) == q;
    RunJoin(s, x, y);
    assert Steady(x + y, t);
  }

  lemma {:induction false} ReachesSelf(s: State, t: nat)
    ensures Reaches(s, s, t)
  {
    assert Steady([], t) && CanRun(s, []) && Run(s, []) == s;
  }

  lemma {:induction false} ReachesOne(s: State, a: Step, t: nat)
    requires Enabled(s, a) && Own(a, t)
    ensures Reaches(s, Next(s, a), t)
  {
    hide Enabled, Next, Own;
    var r := Next(s, a);
    assert [a][1..] == [];
    assert CanRun(r, []) && Run(r, []) == r;
    assert Steady([a], t) && CanRun(s, [a]) && Run(s, [a]) == r;
  }

  lemma {:induction false} ReachesKeeps(s: State, r: State, t: nat)
    requires Inv(s) && Reaches(s, r, t)
    ensures Inv(r)
  {
    hide Inv, Own, CanRun, Run;
    var x :| Steady(x, t) && CanRun(s, x) && Run(s, x) == r;
    RunKeeps(s, x);
  }

  /** What the link can do by itself, the unit can. */
  lemma {:induction false} LinkReaches(s: State, steps: seq<L.Step>, t: nat)
    requires LL.Gentle(steps, t) && L.CanRun(s.link, steps)
    ensures Reaches(s, s.(link := L.Run(s.link, steps)), t)
    decreases |steps|
  {
    hide Reaches, L.Enabled, L.Next;
    if steps == [] {
      ReachesSelf(s, t);
      assert s.(link := L.Run(s.link, steps)) == s;
    } else {
      assert LL.Calm(steps[0], t);
      var r := s.(link := L.Next(s.link, steps[0]));
      ReachesOne(s, Net(steps[0]), t);
      LinkReaches(r, steps[1..], t);
      ReachesOn(s, r, s.(link := L.Run(s.link, steps)), t);
    }
  }

  /** All that is on its way to the server arrives. */
  lemma {:induction false} Drains(s: State, t: nat) returns (r: State)
    requires s.link.up
    ensures Reaches(s, r, t) && r == s.(link := r.link) && r.link.log == L.Whole(s.link) && r.link.up && r.link.confirmed == s.link.confirmed
  {
    hide Reaches, L.CanRun, L.Run;
    var steps, echoes := LL.Arrives(s.link, t);
    LinkReaches(s, steps, t);
    r := s.(link := L.Run(s.link, steps));
  }

  // ---------- one message after the other ----------

  /** The worker is done with its inbox; nothing is lost by it. */
  lemma {:induction false} Clears(s: State, t: nat) returns (r: State)
    requires Processing(s, t)
    ensures Reaches(s, r, t) && t in r.workers
    ensures r == s.(workers := s.workers[t := r.workers[t]], runs := r.runs) && r.workers[t].inbox == [] && r.workers[t].confirming.None?
    decreases |s.workers[t].inbox|
  {
    hide Reaches;
    var w := s.workers[t];
    if w.inbox == [] {
      r := s;
      ReachesSelf(s, t);
      assert s.workers[t := w] == s.workers;
    } else {
      var q := Skips(s, t);
      r := Clears(q, t);
      ReachesOn(s, q, r, t);
      assert q.workers[t := r.workers[t]] == s.workers[t := r.workers[t]];
    }
  }

  /** The first message of the inbox is taken, and emits nothing. */
  lemma {:induction false} Skips(s: State, t: nat) returns (r: State)
    requires Processing(s, t) && s.workers[t].inbox != []
    ensures Reaches(s, r, t) && t in r.workers
    ensures r == s.(workers := s.workers[t := r.workers[t]], runs := r.runs)
    ensures r.workers[t].inbox == s.workers[t].inbox[1..] && r.workers[t].confirming.None?
  {
    var a := Process(t, Success([], 0), NotStored, false);
    r := Next(s, a);
    hide Reaches;
    ReachesOne(s, a, t);
  }

  /** A message that the consumer has no ack for is delivered to a worker that has nothing else to do. */
  lemma {:induction false} Delivers(s: State, t: nat, m: nat) returns (r: State, n: nat)
    requires Processing(s, t) && m < |s.stream| && !Acked(s, m)
    ensures Reaches(s, r, t) && Processing(r, t) && n == Times(s, m) + 1
    ensures r == s.(workers := s.workers[t := r.workers[t]], runs := r.runs, delivered := s.delivered[m := n])
    ensures r.workers[t].inbox == [Delivery(m, n)]
  {
    var q := Clears(s, t);
    n := Times(s, m) + 1;
    r := Next(q, Deliver(t, m));
    assert [] + [Delivery(m, n)] == [Delivery(m, n)];
    assert q.workers[t := r.workers[t]] == s.workers[t := r.workers[t]];
    hide Reaches;
    ReachesOne(q, Deliver(t, m), t);
    ReachesOn(s, q, r, t);
  }

  // ---------- acks ----------

  lemma {:induction false} AckAllHas(l: L.State, ds: seq<Done>)
    ensures AckAll(l, ds) == l.(queue := AckAll(l, ds).queue) && l.queue <= AckAll(l, ds).queue
    ensures forall i :: 0 <= i < |ds| ==> L.Ack(ds[i].msg) in AckAll(l, ds).queue
    decreases |ds|
  {
    if ds != [] {
      var l1 := L.Next(l, L.Publish(L.Ack(ds[0].msg)));
      assert l1.queue[|l.queue|] == L.Ack(ds[0].msg);
      AckAllHas(l1, ds[1..]);
      forall i | 0 <= i < |ds| ensures L.Ack(ds[i].msg) in AckAll(l, ds).queue {
        if i > 0 { assert ds[1..][i - 1] == ds[i]; } else { assert L.Ack(ds[0].msg) in l1.queue; }
      }
    }
  }

  /** An ack on its way arrives. */
  lemma {:induction false} AckArrives(s: State, t: nat, m: nat) returns (r: State)
    requires s.link.up && L.Ack(m) in s.link.queue
    ensures Reaches(s, r, t) && r == s.(link := r.link) && Acked(r, m) && r.link.confirmed == s.link.confirmed
  {
    hide Reaches;
    r := Drains(s, t);
  }

  /** A worker that holds nothing acks at once. */
  lemma {:induction false} AcksAtOnce(s: State, t: nat, k: nat) returns (r: State)
    requires Processing(s, t) && s.link.up && s.workers[t].held == [] && k < |s.workers[t].toAck|
    ensures Reaches(s, r, t) && Acked(r, s.workers[t].toAck[k].msg) && r.runs == s.runs
  {
    var w := s.workers[t];
    var a := EndRound(t, |w.toAck|);
    var q := Next(s, a);
    assert w.toAck[..|w.toAck|] == w.toAck;
    AckAllHas(s.link, w.toAck);
    hide Reaches;
    ReachesOne(s, a, t);
    r := AckArrives(q, t, w.toAck[k].msg);
    ReachesOn(s, q, r, t);
  }

  /** A worker that holds something begins a batch with it. */
  lemma {:induction false} BeginsRound(s: State, t: nat) returns (q: State)
    requires Processing(s, t) && s.link.up && s.workers[t].held != [] && t in s.link.threads && s.link.threads[t].Idle?
    ensures Reaches(s, q, t)
    ensures q == s.(workers := s.workers[t := s.workers[t].(confirming := Some(s.link.nextBatch))],
                    link := s.link.(threads := s.link.threads[t := L.Sending(s.link.nextBatch, s.link.epoch, s.workers[t].held, 0)],
                                    nextBatch := s.link.nextBatch + 1))
  {
    var a := EndRound(t, |s.workers[t].toAck|);
    q := Next(s, a);
    hide Reaches;
    ReachesOne(s, a, t);
  }

  /** A confirmed batch is acked. */
  lemma {:induction false} AcksConfirmed(s: State, t: nat, k: nat) returns (r: State)
    requires t in s.workers && s.workers[t].confirming.Some? && s.workers[t].confirming.value in s.link.confirmed
    requires s.link.up && t in s.link.threads && s.link.threads[t].Idle? && k < |s.workers[t].toAck|
    ensures Reaches(s, r, t) && Acked(r, s.workers[t].toAck[k].msg) && r.runs == s.runs && r.link.confirmed == s.link.confirmed
  {
    var w := s.workers[t];
    var a := Finish(t, |w.toAck|);
    var q := Next(s, a);
    assert w.toAck[..|w.toAck|] == w.toAck;
    AckAllHas(s.link, w.toAck);
    hide Reaches;
    ReachesOne(s, a, t);
    r := AckArrives(q, t, w.toAck[k].msg);
    ReachesOn(s, q, r, t);
  }

  /** A worker that holds something has it confirmed, and acks. */
  lemma {:induction false} AcksAfterBarrier(s: State, t: nat, k: nat) returns (r: State)
    requires Processing(s, t) && s.link.up && s.workers[t].held != [] && t in s.link.threads && s.link.threads[t].Idle? && k < |s.workers[t].toAck|
    ensures Reaches(s, r, t) && Acked(r, s.workers[t].toAck[k].msg) && r.runs == s.runs
    ensures s.link.nextBatch in r.link.confirmed && r.link.confirmed[s.link.nextBatch] == s.workers[t].held
  {
    hide Reaches, L.CanRun, L.Run, L.Inv;
    var q := BeginsRound(s, t);
    var steps := LL.BegunIsConfirmed(q.link, t);
    LinkReaches(q, steps, t);
    var c := q.(link := L.Run(q.link, steps));
    ReachesOn(s, q, c, t);
    r := AcksConfirmed(c, t, k);
    ReachesOn(s, c, r, t);
  }

  // ---------- a message comes to its end ----------

  /** The program succeeds on the message, and the batch can take all its emissions. */
  lemma {:induction false} Succeeds(s: State, t: nat, m: nat, n: nat, emits: seq<L.Message>) returns (r: State)
    requires Processing(s, t) && s.workers[t].inbox == [Delivery(m, n)] && m < |s.stream| && s.stream[m].json
    ensures Reaches(s, r, t) && Processing(r, t) && r.link == s.link && Ran(m, emits) in r.runs
    ensures var w, v := s.workers[t], r.workers[t];
            v.held == w.held + emits && |v.toAck| == |w.toAck| + 1 && v.toAck[|w.toAck|] == Done(m, |w.held|, emits)
  {
    var a := Process(t, Success(emits, |emits|), NotStored, false);
    r := Next(s, a);
    hide Reaches;
    ReachesOne(s, a, t);
  }

  /** The server has read these emissions, in order, among those of one batch. */
  ghost predicate ReadSomewhere(s: State, emits: seq<L.Message>) {
    emits == [] || exists b, at :: ReadByServer(s.link.log, b, at, emits)
  }

  lemma {:induction false} HeldIsRead(s: State, b: nat, held: seq<L.Message>, emits: seq<L.Message>)
    requires L.Inv(s.link) && b in s.link.confirmed && s.link.confirmed[b] == held + emits
    ensures ReadSomewhere(s, emits)
  {
    hide L.Only;
    var got := L.Only(b, s.link.log);
    var all := held + emits;
    LL.SettledMeans(s.link, b);
    assert L.ReadInOrder(b, all, s.link.log);
    assert got[|held|..|all|] == got[..|all|][|held|..];
    assert L.Pubs(b, all)[|held|..] == L.Pubs(b, emits);
    assert ReadByServer(s.link.log, b, |held|, emits);
  }

  /**
   * Progress. From every state of a unit with the connection up and a worker that is not at its barrier: a
   * message without an ack, on which a run of the program succeeds, can come to be acked, with the
   * emissions of that run read by the server.
   */
  lemma {:induction false} MessageGetsAcked(s: State, t: nat, m: nat, emits: seq<L.Message>) returns (r: State)
    requires Inv(s) && s.link.up && Processing(s, t) && m < |s.stream| && s.stream[m].json && !Acked(s, m)
    ensures Reaches(s, r, t) && Acked(r, m) && Ran(m, emits) in r.runs && ReadSomewhere(r, emits)
  {
    hide Reaches, Acked, L.Inv, ReadSomewhere;
    var d, n := Delivers(s, t, m);
    var p := Succeeds(d, t, m, n, emits);
    ReachesOn(s, d, p, t);
    ReachesKeeps(s, p, t);
    WorkerIdle(p, t);
    var k := |p.workers[t].toAck| - 1;
    if p.workers[t].held == [] {
      r := AcksAtOnce(p, t, k);
      NothingToRead(r, emits);
    } else {
      r := AcksAfterBarrier(p, t, k);
    }
    ReachesOn(s, p, r, t);
    ReachesKeeps(s, r, t);
    if p.workers[t].held != [] { HeldIsRead(r, p.link.nextBatch, d.workers[t].held, emits); }
  }

  lemma {:induction false} NothingToRead(s: State, emits: seq<L.Message>)
    requires emits == []
    ensures ReadSomewhere(s, emits)
  {
  }

  lemma {:induction false} WorkerIdle(s: State, t: nat)
    requires Inv(s) && Processing(s, t)
    ensures t in s.link.threads && s.link.threads[t].Idle? && L.Inv(s.link)
  {
    assert WorkerOk(s, t);
  }

  /** A message is dead-lettered and acked. */
  lemma {:induction false} Buries(s: State, t: nat, m: nat, n: nat) returns (r: State)
    requires Processing(s, t) && s.link.up && s.workers[t].inbox == [Delivery(m, n)] && m < |s.stream|
    requires !s.stream[m].json || n >= 5
    ensures Reaches(s, r, t) && Acked(r, m) && Dead(m, n) in r.dlq
  {
    var a := Process(t, Failure, Stored, true);
    var q := Next(s, a);
    assert q.dlq[|s.dlq|] == Dead(m, n);
    assert q.link.queue[|s.link.queue|] == L.Ack(m);
    hide Reaches;
    ReachesOne(s, a, t);
    r := AckArrives(q, t, m);
    ReachesOn(s, q, r, t);
  }

  /** A poison message, and one that fails at its fifth delivery or later, can come to have its dead letter and its ack. */
  lemma {:induction false} PoisonGetsBuried(s: State, t: nat, m: nat) returns (r: State)
    requires s.link.up && Processing(s, t) && m < |s.stream| && !Acked(s, m) && (!s.stream[m].json || Times(s, m) >= 4)
    ensures Reaches(s, r, t) && Acked(r, m) && Dead(m, Times(s, m) + 1) in r.dlq
  {
    hide Reaches, Acked;
    var d, n := Delivers(s, t, m);
    r := Buries(d, t, m, n);
    ReachesOn(s, d, r, t);
  }

  /** A failure before that leaves neither a dead letter nor an ack: the message stays to be delivered again. */
  lemma {:induction false} FailureWaits(s: State, t: nat, m: nat, n: nat, fate: Fate, ackLeaves: bool)
    requires Processing(s, t) && s.workers[t].inbox != [] && s.workers[t].inbox[0] == Delivery(m, n) && m < |s.stream| && s.stream[m].json && n < 5
    ensures Next(s, Process(t, Failure, fate, ackLeaves)) == s.(workers := s.workers[t := s.workers[t].(inbox := s.workers[t].inbox[1..])])
  {
  }
}
