// A flow unit (core/src/main.rs, supervise_vjs) on the shared link: a durable consumer that
// redelivers what was not acked, workers that run the program and hold its emissions, one
// barrier a round before the acks, and the dead-letter queue. Workers stop, the connection is
// replaced and the process dies at any moment.

module Flow {
  import opened Wrappers
  import L = Link

  const MAX_DELIVERIES: nat := 5

  /** A message of the source stream; its number is its place there. */
  datatype Source = Source(json: bool)

  datatype Delivery = Delivery(msg: nat, count: nat)

  /** A message to ack after the barrier, and where its emissions lie in the batch. */
  datatype Done = Done(msg: nat, at: nat, emits: seq<L.Message>)

  datatype Dead = Dead(msg: nat, count: nat)

  /** A successful run of the program on a message. */
  datatype Ran = Ran(msg: nat, emits: seq<L.Message>)

  /** `confirming` names the batch in the barrier; `held` is then what was handed to it. */
  datatype Worker = Worker(inbox: seq<Delivery>, held: seq<L.Message>, toAck: seq<Done>, confirming: Option<nat>)

  const FRESH := Worker([], [], [], None)

  datatype State = State(
    link: L.State,
    stream: seq<Source>,
    delivered: map<nat, nat>,
    workers: map<nat, Worker>,
    dlq: seq<Dead>,
    runs: set<Ran>)

  /** How a program run ends: `fits` of its emissions are ones the batch can take. */
  datatype Outcome = Success(emits: seq<L.Message>, fits: nat) | Failure

  /** How the dead-letter publish ends; a lost answer leaves it stored and reported as failed. */
  datatype Fate = Stored | StoredUnsure | NotStored

  datatype Step =
    | Net(a: L.Step)
    | Arrive(src: Source)
    | Deliver(t: nat, m: nat)
    | Process(t: nat, outcome: Outcome, fate: Fate, ackLeaves: bool)
    | EndRound(t: nat, acks: nat)
    | Finish(t: nat, acks: nat)
    | Stop(t: nat)
    | Crash

  /** The consumer has the ack: it will not deliver the message again. */
  ghost predicate Acked(s: State, m: nat) { L.Ack(m) in s.link.log }

  predicate Processing(s: State, t: nat) { t in s.workers && s.workers[t].confirming.None? }

  /** Acks are sent by the steps below, a worker's batch starts in EndRound. */
  predicate NetStep(s: State, a: L.Step) {
    && !a.Crash?
    && (a.Publish? ==> !a.item.Ack?)
    && (a.Begin? ==> a.t !in s.workers)
  }

  ghost predicate Enabled(s: State, a: Step) {
    match a
    case Net(x) => NetStep(s, x) && L.Enabled(s.link, x)
    case Arrive(_) => true
    case Deliver(t, m) => t in s.workers && m < |s.stream| && !Acked(s, m)
    case Process(t, o, _, _) => Processing(s, t) && s.workers[t].inbox != [] && (o.Success? ==> o.fits <= |o.emits|)
    case EndRound(t, n) => Processing(s, t) && n <= |s.workers[t].toAck|
    case Finish(t, n) =>
      && t in s.workers && s.workers[t].confirming.Some? && n <= |s.workers[t].toAck|
      && t in s.link.threads && s.link.threads[t].Idle?
    case Stop(t) => Processing(s, t)
    case Crash => true
  }

  function Times(s: State, m: nat): (n: nat) { if m in s.delivered then s.delivered[m] else 0 }

  function AckAll(l: L.State, ds: seq<Done>): (r: L.State)
    decreases |ds|
  {
    if ds == [] then l
    else AckAll(L.Next(l, L.Publish(L.Ack(ds[0].msg))), ds[1..])
  }

  /** Park a poison message: the ack leaves only if the dead letter is known to be stored. */
  function Bury(s: State, d: Delivery, fate: Fate, ackLeaves: bool): (r: State) {
    if fate.NotStored? then s
    else
      var r := s.(dlq := s.dlq + [Dead(d.msg, d.count)]);
      if fate.Stored? && ackLeaves then r.(link := L.Next(s.link, L.Publish(L.Ack(d.msg)))) else r
  }

  function FailedRun(s: State, d: Delivery, fate: Fate, ackLeaves: bool): (r: State) {
    if d.count >= MAX_DELIVERIES then Bury(s, d, fate, ackLeaves) else s
  }

  function SetWorker(s: State, t: nat, w: Worker): (r: State) { s.(workers := s.workers[t := w]) }

  function Processed(s: State, t: nat, o: Outcome, fate: Fate, ackLeaves: bool): (r: State)
    requires Processing(s, t) && s.workers[t].inbox != [] && (o.Success? ==> o.fits <= |o.emits|)
  {
    var w := s.workers[t];
    var d := w.inbox[0];
    var w1 := w.(inbox := w.inbox[1..]);
    if !(d.msg < |s.stream| && s.stream[d.msg].json) then Bury(SetWorker(s, t, w1), d, fate, ackLeaves)
    else match o
      case Failure => FailedRun(SetWorker(s, t, w1), d, fate, ackLeaves)
      case Success(emits, fits) =>
        var s1 := s.(runs := s.runs + {Ran(d.msg, emits)});
        if fits == |emits| then
          SetWorker(s1, t, w1.(held := w.held + emits, toAck := w.toAck + [Done(d.msg, |w.held|, emits)]))
        else
          FailedRun(SetWorker(s1, t, w1.(held := w.held + emits[..fits])), d, fate, ackLeaves)
  }

  function Reset(w: Worker): (r: Worker) { w.(held := [], toAck := [], confirming := None) }

  ghost function Next(s: State, a: Step): (r: State)
    requires Enabled(s, a)
  {
    match a
    case Net(x) => s.(link := L.Next(s.link, x))
    case Arrive(src) => s.(stream := s.stream + [src])
    case Deliver(t, m) =>
      var w := s.workers[t];
      var n := Times(s, m) + 1;
      SetWorker(s, t, w.(inbox := w.inbox + [Delivery(m, n)])).(delivered := s.delivered[m := n])
    case Process(t, o, fate, ackLeaves) => Processed(s, t, o, fate, ackLeaves)
    case EndRound(t, n) =>
      var w := s.workers[t];
      if w.held == [] then SetWorker(s, t, Reset(w)).(link := AckAll(s.link, w.toAck[..n]))
      else if !s.link.up || !L.Enabled(s.link, L.Begin(t, w.held)) then SetWorker(s, t, Reset(w))
      else SetWorker(s, t, w.(confirming := Some(s.link.nextBatch))).(link := L.Next(s.link, L.Begin(t, w.held)))
    case Finish(t, n) =>
      var w := s.workers[t];
      var ok := w.confirming.value in s.link.confirmed;
      SetWorker(s, t, Reset(w)).(link := if ok then AckAll(s.link, w.toAck[..n]) else s.link)
    case Stop(t) => SetWorker(s, t, FRESH)
    case Crash =>
      s.(link := L.Next(s.link, L.Crash), workers := map t | t in s.workers :: FRESH)
  }

  predicate Init(s: State) {
    && L.Init(s.link) && s.stream == [] && s.dlq == [] && s.runs == {} && s.delivered == map[]
    && forall t :: t in s.workers ==> s.workers[t] == FRESH && t in s.link.threads
  }

  // ---------- what an ack stands for ----------

  predicate Within(held: seq<L.Message>, d: Done) {
    d.at + |d.emits| <= |held| && held[d.at..d.at + |d.emits|] == d.emits
  }

  ghost predicate DeadLettered(s: State, m: nat) {
    exists i :: 0 <= i < |s.dlq| && s.dlq[i].msg == m
  }

  /** The emissions of one of its runs lie in a confirmed batch. */
  ghost predicate InBatch(s: State, b: nat, d: Done) {
    b in s.link.confirmed && Within(s.link.confirmed[b], d)
  }

  ghost predicate Published(s: State, m: nat) {
    exists d: Done :: d.msg == m && Ran(m, d.emits) in s.runs && (d.emits == [] || exists b :: InBatch(s, b, d))
  }

  ghost predicate Accounted(s: State, m: nat) { DeadLettered(s, m) || Published(s, m) }

  // ---------- the invariant ----------

  ghost predicate AckTravels(l: L.State, m: nat) {
    L.Ack(m) in l.log || L.Ack(m) in l.pipe || L.Ack(m) in l.queue || L.Ack(m) in l.orphans
  }

  ghost predicate AcksSound(s: State) {
    forall m :: AckTravels(s.link, m) ==> Accounted(s, m)
  }

  ghost predicate WorkerOk(s: State, t: nat)
    requires t in s.workers
  {
    var w := s.workers[t];
    && (forall i :: 0 <= i < |w.toAck| ==> Within(w.held, w.toAck[i]) && Ran(w.toAck[i].msg, w.toAck[i].emits) in s.runs)
    && t in s.link.threads
    && (w.confirming.None? ==> s.link.threads[t].Idle?)
    && (w.confirming.Some? ==>
          var b := w.confirming.value;
          var p := s.link.threads[t];
          && b < s.link.nextBatch
          && (!p.Idle? ==> p.batch == b && p.held == w.held)
          && (b in s.link.confirmed ==> s.link.confirmed[b] == w.held)
          && (forall u :: u in s.link.threads && u != t ==> s.link.threads[u].Idle? || s.link.threads[u].batch != b))
  }

  ghost predicate DeathsFair(s: State) {
    forall i :: 0 <= i < |s.dlq| ==>
      var d := s.dlq[i];
      d.msg < |s.stream| && (!s.stream[d.msg].json || d.count >= MAX_DELIVERIES) && 0 < d.count <= Times(s, d.msg)
  }

  ghost predicate InboxOk(s: State, t: nat)
    requires t in s.workers
  {
    forall i :: 0 <= i < |s.workers[t].inbox| ==>
      var d := s.workers[t].inbox[i];
      d.msg < |s.stream| && 0 < d.count <= Times(s, d.msg)
  }

  ghost predicate Inv(s: State) {
    && L.Inv(s.link) && AcksSound(s) && DeathsFair(s)
    && (forall t :: t in s.workers ==> WorkerOk(s, t) && InboxOk(s, t))
  }

  // ---------- every step keeps it ----------

  ghost predicate Grows(s: State, r: State) {
    && s.dlq <= r.dlq && s.runs <= r.runs && s.stream <= r.stream
    && (forall m :: Times(s, m) <= Times(r, m))
    && (forall b :: b in s.link.confirmed ==> b in r.link.confirmed && r.link.confirmed[b] == s.link.confirmed[b])
  }

  lemma {:induction false} StaysAccounted(s: State, r: State, m: nat)
    requires Grows(s, r) && Accounted(s, m)
    ensures Accounted(r, m)
  {
    if DeadLettered(s, m) {
      var i :| 0 <= i < |s.dlq| && s.dlq[i].msg == m;
      assert r.dlq[i] == s.dlq[i];
    } else {
      var d: Done :| d.msg == m && Ran(m, d.emits) in s.runs && (d.emits == [] || exists b :: InBatch(s, b, d));
      if d.emits != [] {
        var b :| InBatch(s, b, d);
        assert InBatch(r, b, d);
      }
    }
  }

  /** A step that sends no ack beyond the accounted ones keeps every ack sound. */
  lemma {:induction false} AcksStaySound(s: State, r: State)
    requires AcksSound(s) && Grows(s, r)
    requires forall m :: AckTravels(r.link, m) ==> AckTravels(s.link, m) || Accounted(r, m)
    ensures AcksSound(r)
  {
    forall m | AckTravels(r.link, m) ensures Accounted(r, m) {
      if AckTravels(s.link, m) { StaysAccounted(s, r, m); }
    }
  }

  lemma {:induction false} OthersStayOk(s: State, r: State)
    requires Grows(s, r) && DeathsFair(s) && r.dlq == s.dlq
    ensures DeathsFair(r)
    ensures forall t :: t in s.workers && t in r.workers && r.workers[t].inbox == s.workers[t].inbox && InboxOk(s, t) ==> InboxOk(r, t)
  {
    forall i | 0 <= i < |r.dlq|
      ensures var d := r.dlq[i];
              d.msg < |r.stream| && (!r.stream[d.msg].json || d.count >= MAX_DELIVERIES) && 0 < d.count <= Times(r, d.msg)
    {
      assert s.stream[s.dlq[i].msg] == r.stream[s.dlq[i].msg];
    }
  }

  lemma {:induction false} NetAcks(l: L.State, a: L.Step)
    requires L.Enabled(l, a) && (a.Publish? ==> !a.item.Ack?)
    ensures forall m :: AckTravels(L.Next(l, a), m) ==> AckTravels(l, m)
  {
    hide L.Only;
    var r := L.Next(l, a);
    forall m | AckTravels(r, m) ensures AckTravels(l, m) {
      match a {
        case Write =>
        case Read =>
        case ReadLate(k) =>
        case Replace =>
        case Crash =>
        case _ =>
      }
    }
  }

  lemma {:induction false} NetKeeps(s: State, a: L.Step)
    requires Inv(s) && Enabled(s, Net(a))
    ensures Inv(Next(s, Net(a)))
  {
    hide L.Only;
    var r := Next(s, Net(a));
    L.NextKeeps(s.link, a);
    NetAcks(s.link, a);
    assert Grows(s, r) by {
      if a.Compare? { assert L.PhaseOk(s.link, s.link.threads[a.t]); }
    }
    AcksStaySound(s, r);
    OthersStayOk(s, r);
    forall t | t in r.workers ensures WorkerOk(r, t) { NetWorker(s, a, t); }
  }

  /** What a step of the link does to one thread: nothing, a new batch, or on with its own. */
  ghost predicate Advances(l: L.State, r: L.State, a: L.Step, u: nat)
    requires u in l.threads && u in r.threads
  {
    var p, q := l.threads[u], r.threads[u];
    || q == p
    || (p.Idle? && a.Begin? && a.t == u && q.Sending? && q.batch == l.nextBatch)
    || (!p.Idle? && (q.Idle? || (q.batch == p.batch && q.held == p.held)))
  }

  lemma {:induction false} NetShape(l: L.State, a: L.Step)
    requires L.Enabled(l, a) && !a.Crash?
    ensures var r := L.Next(l, a);
            && r.nextBatch >= l.nextBatch && r.threads.Keys == l.threads.Keys
            && (forall u :: u in l.threads ==> Advances(l, r, a, u))
            && (r.confirmed == l.confirmed ||
                (a.Compare? && r.confirmed == l.confirmed[l.threads[a.t].batch := l.threads[a.t].held]))
  {
    hide L.Only;
  }

  lemma {:induction false} NetWorker(s: State, a: L.Step, t: nat)
    requires Inv(s) && Enabled(s, Net(a)) && t in s.workers
    ensures WorkerOk(Next(s, Net(a)), t)
  {
    NetShape(s.link, a);
    hide L.Only, L.Inv, L.Next;
    assert WorkerOk(s, t);
    var r := Next(s, Net(a));
    assert Advances(s.link, r.link, a, t);
    forall u | u in s.link.threads && u != t && s.workers[t].confirming.Some?
      ensures r.link.threads[u].Idle? || r.link.threads[u].batch != s.workers[t].confirming.value
    {
      assert Advances(s.link, r.link, a, u);
    }
  }

  lemma {:induction false} ArriveKeeps(s: State, src: Source)
    requires Inv(s)
    ensures Inv(Next(s, Arrive(src)))
  {
    hide L.Inv;
    var r := Next(s, Arrive(src));
    AcksStaySound(s, r);
    OthersStayOk(s, r);
    forall t | t in r.workers ensures WorkerOk(r, t) { assert WorkerOk(s, t); }
  }

  lemma {:induction false} DeliverKeeps(s: State, t: nat, m: nat)
    requires Inv(s) && Enabled(s, Deliver(t, m))
    ensures Inv(Next(s, Deliver(t, m)))
  {
    hide L.Inv;
    var r := Next(s, Deliver(t, m));
    AcksStaySound(s, r);
    OthersStayOk(s, r);
    forall u | u in r.workers ensures WorkerOk(r, u) && InboxOk(r, u) {
      assert WorkerOk(s, u) && InboxOk(s, u);
    }
  }

  // ---------- processing one message ----------

  /** The state after a message left the inbox, before what its fate adds. */
  ghost predicate Ready(s: State, d: Delivery) {
    Inv(s) && d.msg < |s.stream| && 0 < d.count <= Times(s, d.msg)
  }

  lemma {:induction false} BuryKeeps(s: State, d: Delivery, fate: Fate, ackLeaves: bool)
    requires Ready(s, d) && (!s.stream[d.msg].json || d.count >= MAX_DELIVERIES)
    ensures Inv(Bury(s, d, fate, ackLeaves))
  {
    hide L.Only;
    if !fate.NotStored? {
      var r := Bury(s, d, fate, ackLeaves);
      assert r.dlq[|s.dlq|] == Dead(d.msg, d.count);
      assert DeadLettered(r, d.msg);
      if fate.Stored? && ackLeaves { L.PublishKeeps(s.link, L.Ack(d.msg)); }
      hide L.Inv;
      AcksStaySound(s, r);
      forall u | u in r.workers ensures WorkerOk(r, u) && InboxOk(r, u) {
        assert WorkerOk(s, u) && InboxOk(s, u);
      }
    }
  }

  /** A run that succeeded is noted, and its worker holds what it held plus a part of the emissions. */
  lemma {:induction false} HoldKeeps(s: State, t: nat, d: Delivery, emits: seq<L.Message>, fits: nat, w: Worker)
    requires Inv(s) && Processing(s, t) && fits <= |emits|
    requires var was := s.workers[t];
             && was.inbox != [] && d == was.inbox[0]
             && w == was.(inbox := was.inbox[1..], held := was.held + emits[..fits], toAck := w.toAck)
             && (w.toAck == was.toAck || (fits == |emits| && w.toAck == was.toAck + [Done(d.msg, |was.held|, emits)]))
    ensures Ready(SetWorker(s.(runs := s.runs + {Ran(d.msg, emits)}), t, w), d)
  {
    hide L.Inv;
    var r := SetWorker(s.(runs := s.runs + {Ran(d.msg, emits)}), t, w);
    AcksStaySound(s, r);
    OthersStayOk(s, r);
    assert WorkerOk(s, t) && InboxOk(s, t);
    var was := s.workers[t];
    forall i | 0 <= i < |w.toAck|
      ensures Within(w.held, w.toAck[i]) && Ran(w.toAck[i].msg, w.toAck[i].emits) in r.runs
    {
      if i < |was.toAck| {
        var x := was.toAck[i];
        assert Within(was.held, x) && w.held[x.at..x.at + |x.emits|] == was.held[x.at..x.at + |x.emits|];
      } else {
        assert emits[..fits] == emits;
        assert w.held[|was.held|..|was.held| + |emits|] == emits;
      }
    }
    forall u | u in r.workers ensures WorkerOk(r, u) && InboxOk(r, u) {
      assert WorkerOk(s, u) && InboxOk(s, u);
    }
  }

  lemma {:induction false} TakeKeeps(s: State, t: nat)
    requires Inv(s) && t in s.workers && s.workers[t].inbox != []
    ensures Ready(SetWorker(s, t, s.workers[t].(inbox := s.workers[t].inbox[1..])), s.workers[t].inbox[0])
  {
    hide L.Inv;
    var r := SetWorker(s, t, s.workers[t].(inbox := s.workers[t].inbox[1..]));
    AcksStaySound(s, r);
    OthersStayOk(s, r);
    forall u | u in r.workers ensures WorkerOk(r, u) && InboxOk(r, u) {
      assert WorkerOk(s, u) && InboxOk(s, u);
    }
    assert InboxOk(s, t);
  }

  lemma {:induction false} ProcessKeeps(s: State, t: nat, o: Outcome, fate: Fate, ackLeaves: bool)
    requires Inv(s) && Enabled(s, Process(t, o, fate, ackLeaves))
    ensures Inv(Next(s, Process(t, o, fate, ackLeaves)))
  {
    hide L.Inv, L.Next, WorkerOk, AcksSound, DeathsFair;
    var w := s.workers[t];
    var d := w.inbox[0];
    var w1 := w.(inbox := w.inbox[1..]);
    assert d.msg < |s.stream| by { assert InboxOk(s, t); }
    TakeKeeps(s, t);
    var s0 := SetWorker(s, t, w1);
    if !s.stream[d.msg].json {
      BuryKeeps(s0, d, fate, ackLeaves);
    } else if o.Failure? {
      if d.count >= MAX_DELIVERIES { BuryKeeps(s0, d, fate, ackLeaves); }
    } else {
      var held := w.held + o.emits[..o.fits];
      var s1 := s.(runs := s.runs + {Ran(d.msg, o.emits)});
      if o.fits == |o.emits| {
        assert o.emits[..o.fits] == o.emits;
        HoldKeeps(s, t, d, o.emits, o.fits, w1.(held := held, toAck := w.toAck + [Done(d.msg, |w.held|, o.emits)]));
      } else {
        HoldKeeps(s, t, d, o.emits, o.fits, w1.(held := held));
        if d.count >= MAX_DELIVERIES { BuryKeeps(SetWorker(s1, t, w1.(held := held)), d, fate, ackLeaves); }
      }
    }
  }

  // ---------- the end of a round ----------

  lemma {:induction false} AckAllKeeps(l: L.State, ds: seq<Done>)
    requires L.Inv(l)
    ensures L.Inv(AckAll(l, ds))
    ensures AckAll(l, ds) == l.(queue := AckAll(l, ds).queue)
    ensures forall m :: AckTravels(AckAll(l, ds), m) ==> AckTravels(l, m) || exists i :: 0 <= i < |ds| && ds[i].msg == m
    decreases |ds|
  {
    hide L.Only;
    if ds != [] {
      var l1 := L.Next(l, L.Publish(L.Ack(ds[0].msg)));
      L.PublishKeeps(l, L.Ack(ds[0].msg));
      hide L.Inv;
      AckAllKeeps(l1, ds[1..]);
      forall m | AckTravels(AckAll(l, ds), m)
        ensures AckTravels(l, m) || exists i :: 0 <= i < |ds| && ds[i].msg == m
      {
        if !AckTravels(l1, m) {
          var i :| 0 <= i < |ds[1..]| && ds[1..][i].msg == m;
          assert ds[i + 1].msg == m;
        }
      }
    }
  }

  /** Acks leave for messages that are accounted for, and the worker starts over. */
  lemma {:induction false} AckKeeps(s: State, t: nat, n: nat)
    requires Inv(s) && t in s.workers && n <= |s.workers[t].toAck| && s.link.threads[t].Idle?
    requires forall i :: 0 <= i < n ==> Accounted(s, s.workers[t].toAck[i].msg)
    ensures Inv(SetWorker(s, t, Reset(s.workers[t])).(link := AckAll(s.link, s.workers[t].toAck[..n])))
  {
    hide L.Inv, L.Next;
    var w := s.workers[t];
    var ds := w.toAck[..n];
    var r := SetWorker(s, t, Reset(w)).(link := AckAll(s.link, ds));
    AckAllKeeps(s.link, ds);
    assert Grows(s, r);
    forall m | AckTravels(r.link, m) ensures AckTravels(s.link, m) || Accounted(r, m) {
      if !AckTravels(s.link, m) {
        var i :| 0 <= i < |ds| && ds[i].msg == m;
        StaysAccounted(s, r, m);
      }
    }
    AcksStaySound(s, r);
    OthersStayOk(s, r);
    forall u | u in r.workers ensures WorkerOk(r, u) { assert WorkerOk(s, u); }
  }

  lemma {:induction false} BatchIsNew(l: L.State)
    requires L.Inv(l)
    ensures l.nextBatch !in l.confirmed
    ensures forall u :: u in l.threads && !l.threads[u].Idle? ==> l.threads[u].batch < l.nextBatch
  {
    assert forall u :: u in l.threads ==> L.PhaseOk(l, l.threads[u]);
  }

  lemma {:induction false} BeginRound(s: State, t: nat)
    requires Inv(s) && Processing(s, t) && L.Enabled(s.link, L.Begin(t, s.workers[t].held))
    ensures var w := s.workers[t];
            Inv(SetWorker(s, t, w.(confirming := Some(s.link.nextBatch))).(link := L.Next(s.link, L.Begin(t, w.held))))
  {
    hide L.Inv, L.Only, L.Received, L.Enqueued, L.GaveUp;
    var w := s.workers[t];
    var r := SetWorker(s, t, w.(confirming := Some(s.link.nextBatch))).(link := L.Next(s.link, L.Begin(t, w.held)));
    L.BeginKeeps(s.link, t, w.held);
    BatchIsNew(s.link);
    AcksStaySound(s, r);
    OthersStayOk(s, r);
    forall u | u in r.workers ensures WorkerOk(r, u) { assert WorkerOk(s, u); }
  }

  lemma {:induction false} EndRoundKeeps(s: State, t: nat, n: nat)
    requires Inv(s) && Enabled(s, EndRound(t, n))
    ensures Inv(Next(s, EndRound(t, n)))
  {
    hide L.Inv, L.Next;
    var w := s.workers[t];
    assert WorkerOk(s, t);
    if w.held == [] {
      forall i | 0 <= i < n ensures Accounted(s, w.toAck[i].msg) {
        assert Within(w.held, w.toAck[i]) && w.toAck[i].emits == [];
      }
      AckKeeps(s, t, n);
    } else if s.link.up && L.Enabled(s.link, L.Begin(t, w.held)) {
      BeginRound(s, t);
    } else {
      var r := SetWorker(s, t, Reset(w));
      AcksStaySound(s, r);
      OthersStayOk(s, r);
      forall u | u in r.workers ensures WorkerOk(r, u) { assert WorkerOk(s, u); }
    }
  }

  lemma {:induction false} FinishKeeps(s: State, t: nat, n: nat)
    requires Inv(s) && Enabled(s, Finish(t, n))
    ensures Inv(Next(s, Finish(t, n)))
  {
    hide L.Inv;
    var w := s.workers[t];
    var b := w.confirming.value;
    assert WorkerOk(s, t);
    if b in s.link.confirmed {
      forall i | 0 <= i < n ensures Accounted(s, w.toAck[i].msg) {
        assert InBatch(s, b, w.toAck[i]);
      }
      AckKeeps(s, t, n);
    } else {
      var r := Next(s, Finish(t, n));
      AcksStaySound(s, r);
      OthersStayOk(s, r);
      forall u | u in r.workers ensures WorkerOk(r, u) { assert WorkerOk(s, u); }
    }
  }

  lemma {:induction false} StopKeeps(s: State, t: nat)
    requires Inv(s) && Enabled(s, Stop(t))
    ensures Inv(Next(s, Stop(t)))
  {
    hide L.Inv;
    var r := Next(s, Stop(t));
    AcksStaySound(s, r);
    OthersStayOk(s, r);
    forall u | u in r.workers ensures WorkerOk(r, u) { assert WorkerOk(s, u); }
  }

  lemma {:induction false} CrashKeeps(s: State)
    requires Inv(s)
    ensures Inv(Next(s, Crash))
  {
    hide L.Only;
    var r := Next(s, Crash);
    L.CrashKeeps(s.link);
    NetAcks(s.link, L.Crash);
    hide L.Inv;
    AcksStaySound(s, r);
    OthersStayOk(s, r);
    forall u | u in r.workers ensures WorkerOk(r, u) { assert WorkerOk(s, u); }
  }

  lemma {:induction false} NextKeeps(s: State, a: Step)
    requires Inv(s) && Enabled(s, a)
    ensures Inv(Next(s, a))
  {
    match a
    case Net(x) => NetKeeps(s, x);
    case Arrive(src) => ArriveKeeps(s, src);
    case Deliver(t, m) => DeliverKeeps(s, t, m);
    case Process(t, o, fate, ackLeaves) => ProcessKeeps(s, t, o, fate, ackLeaves);
    case EndRound(t, n) => EndRoundKeeps(s, t, n);
    case Finish(t, n) => FinishKeeps(s, t, n);
    case Stop(t) => StopKeeps(s, t);
    case Crash => CrashKeeps(s);
  }

  // ---------- whole runs ----------

  ghost predicate CanRun(s: State, steps: seq<Step>)
    decreases |steps|
  {
    steps == [] || (Enabled(s, steps[0]) && CanRun(Next(s, steps[0]), steps[1..]))
  }

  ghost function Run(s: State, steps: seq<Step>): (r: State)
    requires CanRun(s, steps)
    decreases |steps|
  {
    if steps == [] then s else Run(Next(s, steps[0]), steps[1..])
  }

  lemma {:induction false} RunKeeps(s: State, steps: seq<Step>)
    requires Inv(s) && CanRun(s, steps)
    ensures Inv(Run(s, steps))
    decreases |steps|
  {
    hide Inv;
    if steps != [] {
      NextKeeps(s, steps[0]);
      RunKeeps(Next(s, steps[0]), steps[1..]);
    }
  }

  /** The server has read all the emissions of a run, in their order, among those of one batch. */
  ghost predicate ReadByServer(log: seq<L.Item>, b: nat, at: nat, emits: seq<L.Message>) {
    at + |emits| <= |L.Only(b, log)| && L.Only(b, log)[at..at + |emits|] == L.Pubs(b, emits)
  }

  ghost predicate EmitsRead(s: State, m: nat) {
    exists emits :: Ran(m, emits) in s.runs && (emits == [] || exists b, at :: ReadByServer(s.link.log, b, at, emits))
  }

  lemma {:induction false} PublishedWasRead(s: State, m: nat)
    requires L.Inv(s.link) && Published(s, m)
    ensures EmitsRead(s, m)
  {
    hide L.Only;
    var d: Done :| d.msg == m && Ran(m, d.emits) in s.runs && (d.emits == [] || exists b :: InBatch(s, b, d));
    if d.emits != [] {
      var b :| InBatch(s, b, d);
      var held := s.link.confirmed[b];
      assert L.ReadInOrder(b, held, s.link.log);
      var got := L.Only(b, s.link.log);
      assert got[d.at..d.at + |d.emits|] == got[..|held|][d.at..d.at + |d.emits|];
      assert L.Pubs(b, held)[d.at..d.at + |d.emits|] == L.Pubs(b, d.emits);
      assert ReadByServer(s.link.log, b, d.at, d.emits);
    }
  }

  /**
   * At least once. In every run, whatever stops, is replaced, is lost or dies, a message the
   * consumer has an ack for either had all the emissions of one of its runs read by the server
   * or has a dead letter; and a dead letter is of a message that is not JSON or was delivered
   * MAX_DELIVERIES times. (That a message without an ack is delivered again is the consumer's
   * part: it is what `Deliver` is enabled for.)
   */
  lemma {:induction false} AtLeastOnce(s: State, steps: seq<Step>)
    requires Init(s) && CanRun(s, steps)
    ensures var r := Run(s, steps);
            && (forall m :: Acked(r, m) ==> DeadLettered(r, m) || EmitsRead(r, m))
            && (forall i :: 0 <= i < |r.dlq| ==>
                  && r.dlq[i].msg < |r.stream| && r.dlq[i].count <= Times(r, r.dlq[i].msg)
                  && (!r.stream[r.dlq[i].msg].json || r.dlq[i].count >= MAX_DELIVERIES))
  {
    L.InitInv(s.link);
    assert Inv(s);
    RunKeeps(s, steps);
    var r := Run(s, steps);
    forall m | Acked(r, m) ensures DeadLettered(r, m) || EmitsRead(r, m) {
      assert AckTravels(r.link, m);
      if !DeadLettered(r, m) { PublishedWasRead(r, m); }
    }
  }
}
