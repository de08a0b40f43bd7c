// The shared NATS connection and the publish-before-ack barrier (core/src/bus.rs), as a state
// machine: any number of threads confirm batches on one link while the connection writes,
// the server reads, and the connection is dropped and replaced at any moment.
//
// What is taken from the transport: one connection is first-in first-out; a replaced
// connection loses what the server had not read, or the server reads it late; and the epoch
// has moved before anything is written on the new connection.

module Link {

  datatype Message = Message(subject: string, payload: seq<char>)

  /** What travels to the server. `batch` says which confirmation sent it; it is not on the wire. */
  datatype Item =
    | Pub(batch: nat, message: Message)
    | Echo(batch: nat, id: nat)
    | Ack(msg: nat)
    | Loose(message: Message)

  predicate Of(b: nat, it: Item) { (it.Pub? || it.Echo?) && it.batch == b }

  /** Where a thread is inside `Batch::confirm`. */
  datatype Phase =
    | Idle
    | Sending(batch: nat, epoch: nat, held: seq<Message>, sent: nat)
    | Asking(batch: nat, epoch: nat, held: seq<Message>, id: nat)
    | Listening(batch: nat, epoch: nat, held: seq<Message>, id: nat)
    | Heard(batch: nat, epoch: nat, held: seq<Message>, id: nat)

  datatype State = State(
    epoch: nat,
    up: bool,
    queue: seq<Item>,                  // handed to the client, not written yet
    pipe: seq<Item>,                   // written on this connection, not read yet
    orphans: seq<Item>,                // written on a replaced connection: read late, or never
    log: seq<Item>,                    // read by the server, in that order
    echoes: set<nat>,                  // barrier ids on their way back
    nextId: nat,
    waiting: set<nat>,                 // barrier ids with a registered waiter
    fired: set<nat>,                   // waiters that were woken
    returned: set<nat>,                // barriers that are over, either way
    owner: map<nat, nat>,              // the batch a barrier id belongs to
    threads: map<nat, Phase>,
    nextBatch: nat,
    confirmed: map<nat, seq<Message>>) // batches whose confirm gave Ok, with what they held

  predicate Init(s: State) {
    && s.queue == [] && s.pipe == [] && s.orphans == [] && s.log == []
    && s.echoes == {} && s.waiting == {} && s.fired == {} && s.returned == {}
    && s.owner == map[] && s.confirmed == map[]
    && forall t :: t in s.threads ==> s.threads[t].Idle?
  }

  datatype Step =
    // the connection, the server, and the death of the process
    | Write | Read | ReadLate(k: nat) | Hear(id: nat) | Drop | Replace | Crash
    // a publish or an ack outside any batch
    | Publish(item: Item)
    // one thread inside confirm
    | Begin(t: nat, held: seq<Message>)
    | Send(t: nat) | SendFails(t: nat)
    | Ask(t: nat) | AskSends(t: nat) | AskFails(t: nat)
    | Wake(t: nat) | TimesOut(t: nat)
    | Compare(t: nat)

  predicate In(s: State, t: nat) { t in s.threads }

  predicate Enabled(s: State, a: Step) {
    match a
    case Write => s.up && s.queue != []
    case Read => s.pipe != []
    case ReadLate(k) => k < |s.orphans|
    case Hear(id) => id in s.echoes
    case Drop => s.up
    case Replace => !s.up
    case Crash => true
    case Publish(item) => item.Ack? || item.Loose?
    case Begin(t, held) => In(s, t) && s.threads[t].Idle? && held != []
    case Send(t) => In(s, t) && s.threads[t].Sending? && s.threads[t].sent < |s.threads[t].held|
    case SendFails(t) => In(s, t) && s.threads[t].Sending? && s.threads[t].sent < |s.threads[t].held|
    case Ask(t) => In(s, t) && s.threads[t].Sending? && s.threads[t].sent == |s.threads[t].held|
    case AskSends(t) => In(s, t) && s.threads[t].Asking?
    case AskFails(t) => In(s, t) && s.threads[t].Asking?
    case Wake(t) => In(s, t) && s.threads[t].Listening? && s.threads[t].id in s.fired
    case TimesOut(t) => In(s, t) && s.threads[t].Listening?
    case Compare(t) => In(s, t) && s.threads[t].Heard?
  }

  /** The server reads one item; an echo starts on its way back. */
  function Received(s: State, it: Item): (r: State) {
    s.(log := s.log + [it], echoes := if it.Echo? then s.echoes + {it.id} else s.echoes)
  }

  function Enqueued(s: State, it: Item): (r: State) { s.(queue := s.queue + [it]) }

  function Moved(s: State, t: nat, p: Phase): (r: State) { s.(threads := s.threads[t := p]) }

  /** The barrier of `t` is over and leaves no waiter behind. */
  function GaveUp(s: State, t: nat): (r: State)
    requires In(s, t) && (s.threads[t].Asking? || s.threads[t].Listening?)
  {
    var id := s.threads[t].id;
    Moved(s, t, Idle).(waiting := s.waiting - {id}, returned := s.returned + {id})
  }

  function Next(s: State, a: Step): (r: State)
    requires Enabled(s, a)
  {
    match a
    case Write => s.(pipe := s.pipe + [s.queue[0]], queue := s.queue[1..])
    case Read => Received(s.(pipe := s.pipe[1..]), s.pipe[0])
    case ReadLate(k) => Received(s.(orphans := s.orphans[..k] + s.orphans[k + 1..]), s.orphans[k])
    case Hear(id) =>
      if id in s.waiting then s.(waiting := s.waiting - {id}, fired := s.fired + {id}) else s
    case Drop => s.(up := false)
    case Replace => s.(up := true, epoch := s.epoch + 1, orphans := s.orphans + s.pipe, pipe := [])
    case Crash =>
      s.(up := true, epoch := s.epoch + 1, orphans := s.orphans + s.pipe, pipe := [], queue := [],
         waiting := {}, fired := {}, returned := s.returned + s.waiting,
         threads := map t | t in s.threads :: Idle)
    case Publish(item) => Enqueued(s, item)
    case Begin(t, held) => Moved(s, t, Sending(s.nextBatch, s.epoch, held, 0)).(nextBatch := s.nextBatch + 1)
    case Send(t) =>
      var p := s.threads[t];
      Enqueued(Moved(s, t, p.(sent := p.sent + 1)), Pub(p.batch, p.held[p.sent]))
    case SendFails(t) => Moved(s, t, Idle)
    case Ask(t) =>
      var p := s.threads[t];
      Moved(s, t, Asking(p.batch, p.epoch, p.held, s.nextId)).(
        nextId := s.nextId + 1, waiting := s.waiting + {s.nextId}, owner := s.owner[s.nextId := p.batch])
    case AskSends(t) =>
      var p := s.threads[t];
      Enqueued(Moved(s, t, Listening(p.batch, p.epoch, p.held, p.id)), Echo(p.batch, p.id))
    case AskFails(t) => GaveUp(s, t)
    case Wake(t) =>
      var p := s.threads[t];
      Moved(s, t, Heard(p.batch, p.epoch, p.held, p.id)).(returned := s.returned + {p.id})
    case TimesOut(t) => GaveUp(s, t)
    case Compare(t) =>
      var p := s.threads[t];
      if s.epoch == p.epoch then Moved(s, t, Idle).(confirmed := s.confirmed[p.batch := p.held])
      else Moved(s, t, Idle)
  }

  // ---------- the items of one batch ----------

  function Only(b: nat, items: seq<Item>): (r: seq<Item>) {
    if items == [] then []
    else
      var last := items[|items| - 1];
      Only(b, items[..|items| - 1]) + if Of(b, last) then [last] else []
  }

  lemma {:induction false} OnlyPush(b: nat, items: seq<Item>, it: Item)
    ensures Only(b, items + [it]) == Only(b, items) + if Of(b, it) then [it] else []
  {
    assert (items + [it])[..|items|] == items;
  }

  lemma {:induction false} OnlyJoin(b: nat, x: seq<Item>, y: seq<Item>)
    ensures Only(b, x + y) == Only(b, x) + Only(b, y)
  {
    if y == [] {
      assert x + y == x;
    } else {
      var n := |y| - 1;
      OnlyJoin(b, x, y[..n]);
      assert x + y == (x + y[..n]) + [y[n]] && y == y[..n] + [y[n]];
      OnlyPush(b, x + y[..n], y[n]);
      OnlyPush(b, y[..n], y[n]);
    }
  }

  lemma {:induction false} OnlyNone(b: nat, items: seq<Item>)
    requires forall i :: 0 <= i < |items| ==> !Of(b, items[i])
    ensures Only(b, items) == []
  {
    if items != [] { OnlyNone(b, items[..|items| - 1]); }
  }

  lemma {:induction false} OnlyHas(b: nat, items: seq<Item>, it: Item)
    requires it in items && Of(b, it)
    ensures it in Only(b, items)
  {
    var n := |items| - 1;
    if items[n] != it { OnlyHas(b, items[..n], it); }
  }

  function Pubs(b: nat, held: seq<Message>): (r: seq<Item>) {
    seq(|held|, i requires 0 <= i < |held| => Pub(b, held[i]))
  }

  /** Everything handed to the client since the connection of now, read or not. */
  function Whole(s: State): (r: seq<Item>) { s.log + s.pipe + s.queue }

  function Sent(p: Phase): (r: seq<Item>)
    requires !p.Idle? && (p.Sending? ==> p.sent <= |p.held|)
  {
    match p
    case Sending(b, _, held, n) => Pubs(b, held[..n])
    case Asking(b, _, held, _) => Pubs(b, held)
    case Listening(b, _, held, id) => Pubs(b, held) + [Echo(b, id)]
    case Heard(b, _, held, id) => Pubs(b, held) + [Echo(b, id)]
  }

  // ---------- the invariant ----------

  ghost predicate KnownItems(nextBatch: nat, owner: map<nat, nat>, items: seq<Item>) {
    forall i :: 0 <= i < |items| ==>
      && (items[i].Pub? || items[i].Echo? ==> items[i].batch < nextBatch)
      && (items[i].Echo? ==> items[i].id in owner && owner[items[i].id] == items[i].batch)
  }

  ghost predicate Numbered(s: State) {
    && KnownItems(s.nextBatch, s.owner, Whole(s)) && KnownItems(s.nextBatch, s.owner, s.orphans)
    && (forall id :: id in s.owner ==> id < s.nextId)
    && (forall id :: id in s.returned || id in s.waiting || id in s.fired ==> id < s.nextId)
    && (forall b :: b in s.confirmed ==> b < s.nextBatch)
  }

  /** A thread's phase is sound: its batch is its own, and nothing of it is lost in its epoch. */
  ghost predicate PhaseOk(s: State, p: Phase) {
    !p.Idle? ==>
      && p.batch < s.nextBatch && p.batch !in s.confirmed && p.epoch <= s.epoch
      && (p.Sending? ==> p.sent <= |p.held|)
      && (!p.Sending? ==> p.id in s.owner && s.owner[p.id] == p.batch)
      && (p.Heard? ==> Echo(p.batch, p.id) in s.log)
      && (p.epoch == s.epoch ==> Only(p.batch, Whole(s)) == Sent(p) && Only(p.batch, s.orphans) == [])
  }

  predicate Apart(p: Phase, q: Phase) { p.Idle? || q.Idle? || p.batch != q.batch }

  ghost predicate ThreadsOk(s: State) {
    && (forall t :: t in s.threads ==> PhaseOk(s, s.threads[t]))
    && (forall t, u :: t in s.threads && u in s.threads && t != u ==> Apart(s.threads[t], s.threads[u]))
  }

  ghost predicate EchoesTrue(s: State) {
    forall id :: id in s.echoes || id in s.fired ==> id in s.owner && Echo(s.owner[id], id) in s.log
  }

  /** The server has read every message of the batch, once each, in the order they were held. */
  ghost predicate ReadInOrder(b: nat, held: seq<Message>, log: seq<Item>) {
    |Only(b, log)| == |held| + 1 && Only(b, log)[..|held|] == Pubs(b, held)
  }

  ghost predicate Settled(confirmed: map<nat, seq<Message>>, log: seq<Item>, under: seq<Item>, orphans: seq<Item>) {
    forall b :: b in confirmed ==>
      ReadInOrder(b, confirmed[b], log) && Only(b, under) == [] && Only(b, orphans) == []
  }

  ghost predicate NoStaleWaiter(s: State) {
    s.waiting !! s.returned && s.waiting !! s.fired
  }

  ghost predicate Inv(s: State) {
    Numbered(s) && ThreadsOk(s) && EchoesTrue(s) && Settled(s.confirmed, s.log, s.pipe + s.queue, s.orphans) && NoStaleWaiter(s)
  }

  lemma {:induction false} InitInv(s: State)
    requires Init(s)
    ensures Inv(s)
  {
  }

  // ---------- every step keeps it ----------

  lemma {:induction false} NoneOf(b: nat, items: seq<Item>)
    requires Only(b, items) == []
    ensures forall i :: 0 <= i < |items| ==> !Of(b, items[i])
  {
    forall i | 0 <= i < |items| ensures !Of(b, items[i]) {
      if Of(b, items[i]) { OnlyHas(b, items, items[i]); }
    }
  }

  lemma {:induction false} WriteKeeps(s: State)
    requires Inv(s) && Enabled(s, Write)
    ensures Inv(Next(s, Write))
  {
    hide Only;
    var r := Next(s, Write);
    assert r.pipe + r.queue == s.pipe + s.queue;
    assert Whole(r) == Whole(s);
    assert forall t :: t in r.threads ==> PhaseOk(s, s.threads[t]);
  }

  lemma {:induction false} ReadKeeps(s: State)
    requires Inv(s) && Enabled(s, Read)
    ensures Inv(Next(s, Read))
  {
    hide Only;
    var r := Next(s, Read);
    var it := s.pipe[0];
    assert Whole(r) == Whole(s);
    assert s.pipe + s.queue == [it] + (r.pipe + r.queue);
    assert KnownItems(s.nextBatch, s.owner, Whole(s)) && Whole(s)[|s.log|] == it;
    assert forall x :: x in s.log ==> x in r.log;
    forall b | b in s.confirmed
      ensures ReadInOrder(b, s.confirmed[b], r.log) && Only(b, r.pipe + r.queue) == []
    {
      NoneOf(b, s.pipe + s.queue);
      assert (s.pipe + s.queue)[0] == it;
      OnlyPush(b, s.log, it);
      OnlyJoin(b, [it], r.pipe + r.queue);
    }
    assert forall t :: t in r.threads ==> PhaseOk(s, s.threads[t]);
    assert r.log[|s.log|] == it;
  }

  /** A late read adds nothing to a batch that left nothing behind. */
  lemma {:induction false} LateIsNone(s: State, k: nat, b: nat)
    requires Enabled(s, ReadLate(k)) && Only(b, s.orphans) == []
    ensures var r := Next(s, ReadLate(k));
            Only(b, r.orphans) == [] && Only(b, r.log) == Only(b, s.log) && Only(b, Whole(r)) == Only(b, Whole(s))
  {
    hide Only;
    var r := Next(s, ReadLate(k));
    var it := s.orphans[k];
    assert Whole(r) == (s.log + [it]) + (s.pipe + s.queue) && Whole(s) == s.log + (s.pipe + s.queue);
    NoneOf(b, s.orphans);
    OnlyNone(b, r.orphans);
    OnlyPush(b, s.log, it);
    OnlyJoin(b, s.log + [it], s.pipe + s.queue);
    OnlyJoin(b, s.log, s.pipe + s.queue);
  }

  lemma {:induction false} LateNumbered(s: State, k: nat)
    requires Numbered(s) && Enabled(s, ReadLate(k))
    ensures Numbered(Next(s, ReadLate(k)))
  {
    var r := Next(s, ReadLate(k));
    var it := s.orphans[k];
    assert Whole(r) == (s.log + [it]) + (s.pipe + s.queue) && Whole(s) == s.log + (s.pipe + s.queue);
    assert forall i :: 0 <= i < |Whole(r)| ==> Whole(r)[i] == it || Whole(r)[i] in Whole(s);
  }

  lemma {:induction false} LateThreads(s: State, k: nat)
    requires ThreadsOk(s) && Enabled(s, ReadLate(k))
    ensures ThreadsOk(Next(s, ReadLate(k)))
  {
    hide Only, Whole, Sent;
    var r := Next(s, ReadLate(k));
    forall t | t in r.threads ensures PhaseOk(r, r.threads[t]) {
      var p := s.threads[t];
      assert PhaseOk(s, p);
      if !p.Idle? && p.epoch == s.epoch { LateIsNone(s, k, p.batch); }
    }
  }

  lemma {:induction false} LateSettled(s: State, k: nat)
    requires Settled(s.confirmed, s.log, s.pipe + s.queue, s.orphans) && Enabled(s, ReadLate(k))
    ensures var r := Next(s, ReadLate(k)); Settled(r.confirmed, r.log, r.pipe + r.queue, r.orphans)
  {
    hide Only, Whole;
    forall b | b in s.confirmed ensures Only(b, Next(s, ReadLate(k)).orphans) == [] && Only(b, Next(s, ReadLate(k)).log) == Only(b, s.log) {
      LateIsNone(s, k, b);
    }
  }

  lemma {:induction false} ReadLateKeeps(s: State, k: nat)
    requires Inv(s) && Enabled(s, ReadLate(k))
    ensures Inv(Next(s, ReadLate(k)))
  {
    var r := Next(s, ReadLate(k));
    var it := s.orphans[k];
    assert it.Echo? ==> it.id in s.owner && s.owner[it.id] == it.batch;
    LateNumbered(s, k);
    LateThreads(s, k);
    LateSettled(s, k);
    hide Numbered, ThreadsOk, Settled;
    assert forall x :: x in s.log ==> x in r.log;
    assert r.log[|s.log|] == it;
  }

  lemma {:induction false} ReplaceKeeps(s: State)
    requires Inv(s) && Enabled(s, Replace)
    ensures Inv(Next(s, Replace))
  {
    hide Only;
    var r := Next(s, Replace);
    forall b | b in s.confirmed
      ensures Only(b, r.pipe + r.queue) == [] && Only(b, r.orphans) == []
    {
      OnlyJoin(b, s.pipe, s.queue);
      OnlyJoin(b, s.orphans, s.pipe);
      assert r.pipe + r.queue == s.queue;
    }
    assert forall i :: 0 <= i < |Whole(r)| ==> Whole(r)[i] in Whole(s);
    assert forall i :: 0 <= i < |r.orphans| ==> r.orphans[i] in s.orphans || r.orphans[i] in Whole(s);
    assert forall t :: t in r.threads ==> PhaseOk(s, s.threads[t]);
  }

  lemma {:induction false} CrashKeeps(s: State)
    requires Inv(s)
    ensures Inv(Next(s, Crash))
  {
    hide Only;
    var r := Next(s, Crash);
    forall b | b in s.confirmed
      ensures Only(b, r.pipe + r.queue) == [] && Only(b, r.orphans) == []
    {
      OnlyJoin(b, s.pipe, s.queue);
      OnlyJoin(b, s.orphans, s.pipe);
      OnlyNone(b, r.pipe + r.queue);
    }
    assert forall i :: 0 <= i < |Whole(r)| ==> Whole(r)[i] in Whole(s);
    assert forall i :: 0 <= i < |r.orphans| ==> r.orphans[i] in s.orphans || r.orphans[i] in Whole(s);
  }

  /** An item joins the queue: the batches that are not its own do not see it. */
  lemma {:induction false} EnqueueSeen(s: State, it: Item)
    ensures forall b :: !Of(b, it) ==>
              && Only(b, Whole(Enqueued(s, it))) == Only(b, Whole(s))
              && Only(b, s.pipe + Enqueued(s, it).queue) == Only(b, s.pipe + s.queue)
    ensures Whole(Enqueued(s, it)) == Whole(s) + [it]
  {
    assert Whole(Enqueued(s, it)) == Whole(s) + [it];
    assert s.pipe + Enqueued(s, it).queue == (s.pipe + s.queue) + [it];
    forall b | !Of(b, it)
      ensures Only(b, Whole(s) + [it]) == Only(b, Whole(s))
      ensures Only(b, (s.pipe + s.queue) + [it]) == Only(b, s.pipe + s.queue)
    {
      OnlyPush(b, Whole(s), it);
      OnlyPush(b, s.pipe + s.queue, it);
    }
  }

  lemma {:induction false} PublishKeeps(s: State, it: Item)
    requires Inv(s) && Enabled(s, Publish(it))
    ensures Inv(Next(s, Publish(it)))
  {
    hide Only;
    EnqueueSeen(s, it);
    assert forall t :: t in s.threads ==> PhaseOk(s, s.threads[t]);
  }

  lemma {:induction false} SendKeeps(s: State, t: nat)
    requires Inv(s) && Enabled(s, Send(t))
    ensures Inv(Next(s, Send(t)))
  {
    hide Only;
    var p, r := s.threads[t], Next(s, Send(t));
    var it := Pub(p.batch, p.held[p.sent]);
    EnqueueSeen(s, it);
    assert PhaseOk(s, p);
    OnlyPush(p.batch, Whole(s), it);
    assert Pubs(p.batch, p.held[..p.sent + 1]) == Pubs(p.batch, p.held[..p.sent]) + [it];
    assert PhaseOk(r, r.threads[t]);
    forall u | u in s.threads && u != t ensures PhaseOk(r, r.threads[u]) {
      assert PhaseOk(s, s.threads[u]) && Apart(s.threads[u], p);
    }
  }

  lemma {:induction false} AskSendsKeeps(s: State, t: nat)
    requires Inv(s) && Enabled(s, AskSends(t))
    ensures Inv(Next(s, AskSends(t)))
  {
    hide Only;
    var p, r := s.threads[t], Next(s, AskSends(t));
    var it := Echo(p.batch, p.id);
    EnqueueSeen(s, it);
    assert PhaseOk(s, p);
    OnlyPush(p.batch, Whole(s), it);
    assert PhaseOk(r, r.threads[t]);
    forall u | u in s.threads && u != t ensures PhaseOk(r, r.threads[u]) {
      assert PhaseOk(s, s.threads[u]) && Apart(s.threads[u], p);
    }
  }

  lemma {:induction false} BeginKeeps(s: State, t: nat, held: seq<Message>)
    requires Inv(s) && Enabled(s, Begin(t, held))
    ensures Inv(Next(s, Begin(t, held)))
  {
    hide Only;
    var r := Next(s, Begin(t, held));
    OnlyNone(s.nextBatch, Whole(s));
    OnlyNone(s.nextBatch, s.orphans);
    assert Pubs(s.nextBatch, held[..0]) == [];
    assert PhaseOk(r, r.threads[t]);
    forall u | u in s.threads && u != t ensures PhaseOk(r, r.threads[u]) {
      assert PhaseOk(s, s.threads[u]);
    }
  }

  lemma {:induction false} AskKeeps(s: State, t: nat)
    requires Inv(s) && Enabled(s, Ask(t))
    ensures Inv(Next(s, Ask(t)))
  {
    hide Only, Settled;
    var p, r := s.threads[t], Next(s, Ask(t));
    assert PhaseOk(s, p);
    assert p.held[..p.sent] == p.held;
    assert PhaseOk(r, r.threads[t]);
    forall u | u in s.threads && u != t ensures PhaseOk(r, r.threads[u]) {
      assert PhaseOk(s, s.threads[u]) && Apart(s.threads[u], p);
    }
  }

  /** Nothing travels: only phases, waiters and the connection's state change. */
  lemma {:induction false} QuietKeeps(s: State, a: Step)
    requires Inv(s) && Enabled(s, a) && (a.Hear? || a.Drop? || a.SendFails?)
    ensures Inv(Next(s, a))
  {
    hide Only, KnownItems, Settled;
    var r := Next(s, a);
    forall u | u in s.threads ensures PhaseOk(r, r.threads[u]) {
      assert PhaseOk(s, s.threads[u]);
    }
  }

  lemma {:induction false} OverKeeps(s: State, a: Step)
    requires Inv(s) && Enabled(s, a) && (a.AskFails? || a.TimesOut?)
    ensures Inv(Next(s, a))
  {
    hide Only, KnownItems, Settled;
    var r := Next(s, a);
    assert PhaseOk(s, s.threads[a.t]);
    forall u | u in s.threads ensures PhaseOk(r, r.threads[u]) {
      assert PhaseOk(s, s.threads[u]);
    }
  }

  lemma {:induction false} WakeKeeps(s: State, t: nat)
    requires Inv(s) && Enabled(s, Wake(t))
    ensures Inv(Next(s, Wake(t)))
  {
    hide Only, KnownItems, Settled;
    var p, r := s.threads[t], Next(s, Wake(t));
    assert PhaseOk(s, p);
    assert PhaseOk(r, r.threads[t]);
    forall u | u in s.threads && u != t ensures PhaseOk(r, r.threads[u]) {
      assert PhaseOk(s, s.threads[u]) && Apart(s.threads[u], p);
    }
  }

  /** The heart of the barrier: an echo heard in the epoch of the batch comes after all of it. */
  lemma {:induction false} EchoProves(s: State, p: Phase)
    requires PhaseOk(s, p) && p.Heard? && p.epoch == s.epoch
    ensures ReadInOrder(p.batch, p.held, s.log) && Only(p.batch, s.pipe + s.queue) == []
  {
    var b := p.batch;
    assert Whole(s) == s.log + (s.pipe + s.queue);
    OnlyJoin(b, s.log, s.pipe + s.queue);
    OnlyHas(b, s.log, Echo(b, p.id));
    var read := Only(b, s.log);
    var i :| 0 <= i < |read| && read[i] == Echo(b, p.id);
    assert Sent(p)[i] == read[i];
    assert i == |p.held|;
    assert read == Sent(p) && Sent(p)[..|p.held|] == Pubs(b, p.held);
  }

  lemma {:induction false} CompareKeeps(s: State, t: nat)
    requires Inv(s) && Enabled(s, Compare(t))
    ensures Inv(Next(s, Compare(t)))
  {
    hide Only, KnownItems, ReadInOrder;
    var p, r := s.threads[t], Next(s, Compare(t));
    assert PhaseOk(s, p);
    if p.epoch == s.epoch { EchoProves(s, p); }
    forall u | u in s.threads ensures PhaseOk(r, r.threads[u]) {
      assert PhaseOk(s, s.threads[u]);
      if u != t { assert Apart(s.threads[u], p); }
    }
  }

  lemma {:induction false} NextKeeps(s: State, a: Step)
    requires Inv(s) && Enabled(s, a)
    ensures Inv(Next(s, a))
  {
    match a
    case Write => WriteKeeps(s);
    case Read => ReadKeeps(s);
    case ReadLate(k) => ReadLateKeeps(s, k);
    case Replace => ReplaceKeeps(s);
    case Crash => CrashKeeps(s);
    case Publish(it) => PublishKeeps(s, it);
    case Begin(t, held) => BeginKeeps(s, t, held);
    case Send(t) => SendKeeps(s, t);
    case Ask(t) => AskKeeps(s, t);
    case AskSends(t) => AskSendsKeeps(s, t);
    case Compare(t) => CompareKeeps(s, t);
    case Wake(t) => WakeKeeps(s, t);
    case AskFails(_) => OverKeeps(s, a);
    case TimesOut(_) => OverKeeps(s, a);
    case _ => QuietKeeps(s, a);
  }

  // ---------- whole runs ----------

  ghost predicate CanRun(s: State, steps: seq<Step>)
    decreases |steps|
  {
    steps == [] || (Enabled(s, steps[0]) && CanRun(Next(s, steps[0]), steps[1..]))
  }

  ghost function Run(s: State, steps: seq<Step>): (r: State)
    requires CanRun(s, steps)
    decreases |steps|
  {
    if steps == [] then s else Run(Next(s, steps[0]), steps[1..])
  }

  lemma {:induction false} RunKeeps(s: State, steps: seq<Step>)
    requires Inv(s) && CanRun(s, steps)
    ensures Inv(Run(s, steps))
    decreases |steps|
  {
    if steps != [] {
      NextKeeps(s, steps[0]);
      RunKeeps(Next(s, steps[0]), steps[1..]);
    }
  }

  /**
   * Barrier safety. However the threads, the connection and the server interleave, and wherever
   * the connection is dropped and replaced, a batch whose confirm gave Ok was read by the server
   * in full, once, in held order; and no barrier that is over has left a waiter.
   */
  lemma {:induction false} BarrierSafety(s: State, steps: seq<Step>)
    requires Init(s) && CanRun(s, steps)
    ensures var r := Run(s, steps);
            && (forall b :: b in r.confirmed ==> ReadInOrder(b, r.confirmed[b], r.log))
            && r.waiting !! r.returned
  {
    InitInv(s);
    RunKeeps(s, steps);
  }
}
