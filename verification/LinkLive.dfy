// The barrier comes to an end (core/src/bus.rs): from every state of the link with the connection up
// a batch can be confirmed without the connection being lost, and `confirm` is Ok exactly when the
// epoch is the one in which the batch began.

module LinkLive {
  import opened Link

  // ---------- runs ----------

  lemma {:induction false} RunJoin(s: State, x: seq<Step>, y: seq<Step>)
    requires CanRun(s, x) && CanRun(Run(s, x), y)
    ensures CanRun(s, x + y) && Run(s, x + y) == Run(Run(s, x), y)
    decreases |x|
  {
    hide Enabled, Next;
    if x == [] {
      assert x + y == y;
    } else {
      RunJoin(Next(s, x[0]), x[1..], y);
      assert (x + y)[0] == x[0] && (x + y)[1..] == x[1..] + y;
    }
  }

  lemma {:induction false} OneStep(s: State, a: Step)
    requires Enabled(s, a)
    ensures CanRun(s, [a]) && Run(s, [a]) == Next(s, a)
  {
    hide Enabled, Next;
    var r := Next(s, a);
    assert [a][1..] == [];
    assert CanRun(r, []) && Run(r, []) == r;
  }

  /** The connection is neither lost nor replaced, nothing dies, no batch begins, and no other thread moves. */
  ghost predicate Gentle(steps: seq<Step>, t: nat) {
    forall k :: 0 <= k < |steps| ==> Calm(steps[k], t)
  }

  ghost predicate Calm(a: Step, t: nat) {
    match a
    case Write => true
    case Read => true
    case Hear(_) => true
    case Send(u) => u == t
    case Ask(u) => u == t
    case AskSends(u) => u == t
    case Wake(u) => u == t
    case Compare(u) => u == t
    case _ => false
  }

  lemma {:induction false} GentleJoin(x: seq<Step>, y: seq<Step>, t: nat)
    requires Gentle(x, t) && Gentle(y, t)
    ensures Gentle(x + y, t)
  {
    hide Calm;
  }

  // ---------- on the way ----------

  /** The rest of a batch is handed to the client. */
  lemma {:induction false} SendsAll(s: State, t: nat) returns (steps: seq<Step>, queue: seq<Item>)
    requires In(s, t) && s.threads[t].Sending? && s.threads[t].sent <= |s.threads[t].held|
    ensures Gentle(steps, t) && CanRun(s, steps) && Run(s, steps) == s.(threads := s.threads[t := s.threads[t].(sent := |s.threads[t].held|)], queue := queue)
    decreases |s.threads[t].held| - s.threads[t].sent
  {
    var p := s.threads[t];
    if p.sent == |p.held| {
      steps, queue := [], s.queue;
      assert s.threads[t := p] == s.threads;
      assert s.(threads := s.threads[t := p], queue := s.queue) == s;
    } else {
      var r := Next(s, Send(t));
      var more, q := SendsAll(r, t);
      OneStep(s, Send(t));
      RunJoin(s, [Send(t)], more);
      steps, queue := [Send(t)] + more, q;
      assert r.threads[t := r.threads[t].(sent := |p.held|)] == s.threads[t := p.(sent := |p.held|)];
    }
  }

  /** What is queued is written. */
  lemma {:induction false} WritesAll(s: State, t: nat) returns (steps: seq<Step>)
    requires s.up
    ensures Gentle(steps, t) && CanRun(s, steps) && Run(s, steps) == s.(pipe := s.pipe + s.queue, queue := [])
    decreases |s.queue|
  {
    if s.queue == [] {
      steps := [];
      assert s.pipe + s.queue == s.pipe;
    } else {
      var r := Next(s, Write);
      var more := WritesAll(r, t);
      OneStep(s, Write);
      RunJoin(s, [Write], more);
      steps := [Write] + more;
      assert r.pipe + r.queue == s.pipe + s.queue;
    }
  }

  /** What is written is read, and the echoes among it are on their way back. */
  lemma {:induction false} ReadsAll(s: State, t: nat) returns (steps: seq<Step>, echoes: set<nat>)
    ensures Gentle(steps, t) && CanRun(s, steps) && Run(s, steps) == s.(log := s.log + s.pipe, pipe := [], echoes := echoes)
    ensures s.echoes <= echoes && forall it :: it in s.pipe && it.Echo? ==> it.id in echoes
    decreases |s.pipe|
  {
    if s.pipe == [] {
      steps, echoes := [], s.echoes;
      assert s.log + s.pipe == s.log;
    } else {
      var r := Next(s, Read);
      var more, e := ReadsAll(r, t);
      OneStep(s, Read);
      RunJoin(s, [Read], more);
      steps, echoes := [Read] + more, e;
      assert r.log + r.pipe == s.log + s.pipe;
      assert s.pipe == [s.pipe[0]] + r.pipe;
    }
  }

  /** Everything that is on its way arrives. */
  lemma {:induction false} Arrives(s: State, t: nat) returns (steps: seq<Step>, echoes: set<nat>)
    requires s.up
    ensures Gentle(steps, t) && CanRun(s, steps) && Run(s, steps) == s.(log := Whole(s), pipe := [], queue := [], echoes := echoes)
    ensures forall it :: it in s.pipe + s.queue && it.Echo? ==> it.id in echoes
  {
    var x := WritesAll(s, t);
    var r := Run(s, x);
    var y, e := ReadsAll(r, t);
    RunJoin(s, x, y);
    GentleJoin(x, y, t);
    steps, echoes := x + y, e;
    assert s.log + (s.pipe + s.queue) == Whole(s);
  }

  // ---------- a batch is confirmed ----------

  /** `r` is where thread `t` has its batch confirmed, its messages read and its barrier over; the other threads are where they were. */
  ghost predicate Confirms(s: State, r: State, t: nat, b: nat, held: seq<Message>) {
    && r.up && r.epoch == s.epoch && r.queue == [] && r.pipe == []
    && r.threads.Keys == s.threads.Keys && t in r.threads && r.threads[t].Idle?
    && (forall u :: u in s.threads && u != t ==> r.threads[u] == s.threads[u])
    && b in r.confirmed && r.confirmed[b] == held
    && (forall c :: c != b ==> (c in r.confirmed <==> c in s.confirmed) && (c in s.confirmed ==> r.confirmed[c] == s.confirmed[c]))
  }

  /** The question is asked, and the echo is behind everything else. */
  lemma {:induction false} Asks(s: State, t: nat) returns (r: State)
    requires In(s, t) && s.threads[t].Sending? && s.threads[t].sent == |s.threads[t].held|
    ensures var p, id := s.threads[t], s.nextId;
            && CanRun(s, [Ask(t), AskSends(t)]) && r == Run(s, [Ask(t), AskSends(t)])
            && r == s.(threads := s.threads[t := Listening(p.batch, p.epoch, p.held, id)], nextId := id + 1, waiting := s.waiting + {id},
                       owner := s.owner[id := p.batch], queue := s.queue + [Echo(p.batch, id)])
  {
    var s1 := Next(s, Ask(t));
    var s2 := Next(s1, AskSends(t));
    OneStep(s, Ask(t));
    OneStep(s1, AskSends(t));
    RunJoin(s, [Ask(t)], [AskSends(t)]);
    assert [Ask(t)] + [AskSends(t)] == [Ask(t), AskSends(t)];
    r := s2;
    assert s1.threads[t := s2.threads[t]] == s.threads[t := s2.threads[t]];
  }

  /** The echo comes back, and the batch is confirmed. */
  lemma {:induction false} Answers(s: State, t: nat) returns (r: State)
    requires In(s, t) && s.threads[t].Listening? && s.threads[t].epoch == s.epoch && s.threads[t].id in s.echoes && s.threads[t].id in s.waiting
    ensures var p := s.threads[t]; var steps := [Hear(p.id), Wake(t), Compare(t)];
            && CanRun(s, steps) && r == Run(s, steps)
            && r == s.(threads := s.threads[t := Idle], confirmed := s.confirmed[p.batch := p.held], waiting := s.waiting - {p.id},
                       fired := s.fired + {p.id}, returned := s.returned + {p.id})
  {
    var p := s.threads[t];
    var s1 := Next(s, Hear(p.id));
    var s2 := Next(s1, Wake(t));
    var s3 := Next(s2, Compare(t));
    OneStep(s, Hear(p.id));
    OneStep(s1, Wake(t));
    OneStep(s2, Compare(t));
    assert s2.threads[t := Idle] == s.threads[t := Idle];
    hide Enabled, Next, CanRun, Run;
    RunJoin(s, [Hear(p.id)], [Wake(t)]);
    RunJoin(s, [Hear(p.id)] + [Wake(t)], [Compare(t)]);
    assert [Hear(p.id)] + [Wake(t)] + [Compare(t)] == [Hear(p.id), Wake(t), Compare(t)];
    r := s3;
  }

  /** From the last message sent to the answer. */
  lemma {:induction false} AskedIsConfirmed(s: State, t: nat) returns (steps: seq<Step>)
    requires s.up && In(s, t) && s.threads[t].Sending? && s.threads[t].sent == |s.threads[t].held| && s.threads[t].epoch == s.epoch
    ensures Gentle(steps, t) && CanRun(s, steps)
    ensures Confirms(s, Run(s, steps), t, s.threads[t].batch, s.threads[t].held)
  {
    hide CanRun, Run, Enabled, Next;
    var p, id := s.threads[t], s.nextId;
    var s2 := Asks(s, t);
    var x, echoes := Arrives(s2, t);
    var s3 := Run(s2, x);
    assert s2.queue[|s.queue|] == Echo(p.batch, id);
    var s6 := Answers(s3, t);
    RunJoin(s, [Ask(t), AskSends(t)], x);
    RunJoin(s, [Ask(t), AskSends(t)] + x, [Hear(id), Wake(t), Compare(t)]);
    steps := [Ask(t), AskSends(t)] + x + [Hear(id), Wake(t), Compare(t)];
  }

  /** A batch that has begun on this connection can be confirmed. */
  lemma {:induction false} BegunIsConfirmed(s: State, t: nat) returns (steps: seq<Step>)
    requires s.up && In(s, t) && s.threads[t].Sending? && s.threads[t].sent <= |s.threads[t].held| && s.threads[t].epoch == s.epoch
    ensures Gentle(steps, t) && CanRun(s, steps)
    ensures Confirms(s, Run(s, steps), t, s.threads[t].batch, s.threads[t].held)
  {
    var x, queue := SendsAll(s, t);
    var r := Run(s, x);
    var y := AskedIsConfirmed(r, t);
    hide Enabled, Next, CanRun, Run;
    RunJoin(s, x, y);
    GentleJoin(x, y, t);
    steps := x + y;
  }

  /**
   * A confirm can succeed. From every state with the connection up, an idle thread's batch can come to be
   * confirmed, with exactly what it held, without the connection being lost or anything else moving.
   */
  lemma {:induction false} ConfirmSucceeds(s: State, t: nat, held: seq<Message>) returns (steps: seq<Step>)
    requires Inv(s) && s.up && In(s, t) && s.threads[t].Idle? && held != []
    ensures steps != [] && steps[0] == Begin(t, held) && Gentle(steps[1..], t) && CanRun(s, steps)
    ensures Confirms(s, Run(s, steps), t, s.nextBatch, held) && ReadInOrder(s.nextBatch, held, Run(s, steps).log)
  {
    hide CanRun, Run, Inv, Confirms, Next, ReadInOrder;
    var r := Begins(s, t, held);
    OneStep(s, Begin(t, held));
    var more := BegunIsConfirmed(r, t);
    RunJoin(s, [Begin(t, held)], more);
    steps := [Begin(t, held)] + more;
    SinceBegin(s, r, Run(r, more), t, s.nextBatch, held);
    RunKeeps(s, steps);
    ConfirmsMeans(s, Run(s, steps), t, s.nextBatch, held);
    SettledMeans(Run(s, steps), s.nextBatch);
  }

  lemma {:induction false} Begins(s: State, t: nat, held: seq<Message>) returns (r: State)
    requires In(s, t) && s.threads[t].Idle? && held != []
    ensures Enabled(s, Begin(t, held)) && r == Next(s, Begin(t, held))
    ensures r == s.(threads := s.threads[t := Sending(s.nextBatch, s.epoch, held, 0)], nextBatch := s.nextBatch + 1)
  {
    r := Next(s, Begin(t, held));
  }

  lemma {:induction false} SinceBegin(s: State, r: State, q: State, t: nat, b: nat, held: seq<Message>)
    requires t in s.threads && r.threads.Keys == s.threads.Keys && r.epoch == s.epoch && r.confirmed == s.confirmed
    requires (forall u :: u in s.threads && u != t ==> r.threads[u] == s.threads[u]) && Confirms(r, q, t, b, held)
    ensures Confirms(s, q, t, b, held)
  {
  }

  lemma {:induction false} ConfirmsMeans(s: State, r: State, t: nat, b: nat, held: seq<Message>)
    requires Confirms(s, r, t, b, held)
    ensures b in r.confirmed && r.confirmed[b] == held
  {
  }

  lemma {:induction false} SettledMeans(s: State, b: nat)
    requires Inv(s) && b in s.confirmed
    ensures ReadInOrder(b, s.confirmed[b], s.log)
  {
    hide Only;
  }

  // ---------- exactly when ----------

  /** Thread `t` has given up, or is still at the batch it began. */
  ghost predicate Still(s: State, t: nat, b: nat, e: nat, held: seq<Message>) {
    && In(s, t)
    && (s.threads[t].Idle? || (s.threads[t].batch == b && s.threads[t].epoch == e && s.threads[t].held == held))
  }

  lemma {:induction false} StaysAt(s: State, a: Step, t: nat, b: nat, e: nat, held: seq<Message>)
    requires Enabled(s, a) && Still(s, t, b, e, held) && !(a.Begin? && a.t == t)
    ensures Still(Next(s, a), t, b, e, held)
  {
  }

  lemma {:induction false} RunStaysAt(s: State, steps: seq<Step>, t: nat, b: nat, e: nat, held: seq<Message>)
    requires CanRun(s, steps) && Still(s, t, b, e, held) && forall k :: 0 <= k < |steps| ==> !(steps[k].Begin? && steps[k].t == t)
    ensures Still(Run(s, steps), t, b, e, held)
    decreases |steps|
  {
    hide Enabled, Next, Still;
    if steps != [] {
      StaysAt(s, steps[0], t, b, e, held);
      RunStaysAt(Next(s, steps[0]), steps[1..], t, b, e, held);
    }
  }

  /** Only the comparison at the end of a confirm adds to what is confirmed. */
  lemma {:induction false} OnlyCompareConfirms(s: State, a: Step)
    requires Enabled(s, a) && Next(s, a).confirmed != s.confirmed
    ensures a.Compare? && s.threads[a.t].Heard? && s.threads[a.t].epoch == s.epoch
    ensures Next(s, a).confirmed == s.confirmed[s.threads[a.t].batch := s.threads[a.t].held]
  {
  }

  /**
   * When a confirm is Ok. A thread begins a batch, anything at all happens, and the barrier ends: then
   * confirm is Ok, for exactly what was held, if and only if the connection is still the one it began on.
   */
  lemma {:induction false} ConfirmExact(s: State, t: nat, held: seq<Message>, mid: seq<Step>)
    requires Inv(s) && CanRun(s, [Begin(t, held)] + mid + [Compare(t)]) && forall k :: 0 <= k < |mid| ==> !(mid[k].Begin? && mid[k].t == t)
    ensures var r := Run(s, [Begin(t, held)] + mid + [Compare(t)]);
            && In(r, t) && r.threads[t].Idle?
            && (s.nextBatch in r.confirmed <==> r.epoch == s.epoch)
            && (s.nextBatch in r.confirmed ==> r.confirmed[s.nextBatch] == held)
  {
    hide Inv, Next, CanRun, Run;
    var first := [Begin(t, held)];
    RunSplit(s, first + mid, [Compare(t)]);
    RunSplit(s, first, mid);
    CanOne(s, Begin(t, held));
    OneStep(s, Begin(t, held));
    var s1 := Begins(s, t, held);
    var s2 := Run(s1, mid);
    RunStaysAt(s1, mid, t, s.nextBatch, s.epoch, held);
    RunKeeps(s, first + mid);
    CanOne(s2, Compare(t));
    OneStep(s2, Compare(t));
    Compares(s2, t);
  }

  lemma {:induction false} OneMore(s: State, xs: seq<Step>, r: State, a: Step) returns (ys: seq<Step>)
    requires CanRun(s, xs) && Run(s, xs) == r && Enabled(r, a)
    ensures ys == xs + [a] && CanRun(s, ys) && Run(s, ys) == Next(r, a)
  {
    hide Enabled, Next, CanRun, Run;
    OneStep(r, a);
    RunJoin(s, xs, [a]);
    ys := xs + [a];
  }

  /** A message is written, and the connection is replaced before the server has read it. */
  lemma {:induction false} LostInTheMiddle(s: State, t: nat, m: Message) returns (steps: seq<Step>, r: State)
    requires Init(s) && s.up && In(s, t)
    ensures steps != [] && steps[0] == Begin(t, [m]) && CanRun(s, steps) && Run(s, steps) == r
    ensures r.up && r.queue == [] && r.pipe == [] && r.log == [] && r.echoes == {} && r.confirmed == map[] && r.waiting == {} && r.fired == {}
    ensures In(r, t) && r.threads[t] == Sending(s.nextBatch, s.epoch, [m], 1) && r.epoch == s.epoch + 1
  {
    hide CanRun, Run;
    var s1 := Next(s, Begin(t, [m]));
    OneStep(s, Begin(t, [m]));
    steps := [Begin(t, [m])];
    var s2 := Next(s1, Send(t));
    steps := OneMore(s, steps, s1, Send(t));
    var s3 := Next(s2, Write);
    steps := OneMore(s, steps, s2, Write);
    var s4 := Next(s3, Drop);
    steps := OneMore(s, steps, s3, Drop);
    r := Next(s4, Replace);
    steps := OneMore(s, steps, s4, Replace);
  }

  /** The echo goes round on the new connection. */
  lemma {:induction false} EchoGoesRound(s: State, t: nat, b: nat, e: nat, held: seq<Message>) returns (steps: seq<Step>, r: State)
    requires s.up && s.queue == [] && s.pipe == [] && s.echoes == {} && s.waiting == {} && s.fired == {}
    requires In(s, t) && s.threads[t] == Sending(b, e, held, |held|)
    ensures CanRun(s, steps) && Run(s, steps) == r
    ensures In(r, t) && r.threads[t] == Heard(b, e, held, s.nextId) && r.log == s.log + [Echo(b, s.nextId)]
    ensures r.epoch == s.epoch && r.confirmed == s.confirmed
  {
    hide CanRun, Run;
    var id := s.nextId;
    var s1 := Next(s, Ask(t));
    OneStep(s, Ask(t));
    steps := [Ask(t)];
    var s2 := Next(s1, AskSends(t));
    steps := OneMore(s, steps, s1, AskSends(t));
    var s3 := Next(s2, Write);
    steps := OneMore(s, steps, s2, Write);
    var s4 := Next(s3, Read);
    steps := OneMore(s, steps, s3, Read);
    var s5 := Next(s4, Hear(id));
    steps := OneMore(s, steps, s4, Hear(id));
    r := Next(s5, Wake(t));
    steps := OneMore(s, steps, s5, Wake(t));
  }

  /**
   * Why the epoch is compared. There is a run in which the echo of a batch comes back although the server
   * never read the batch: it was written on a connection that was replaced. Only the epoch keeps it from
   * being confirmed.
   */
  lemma {:induction false} EchoAloneProvesNothing(s: State, t: nat, m: Message) returns (steps: seq<Step>, r: State)
    requires Init(s) && s.up && In(s, t)
    ensures steps != [] && steps[0] == Begin(t, [m]) && CanRun(s, steps) && Run(s, steps) == r
    ensures In(r, t) && r.threads[t].Heard? && r.threads[t].batch == s.nextBatch && r.threads[t].held == [m]
    ensures Echo(s.nextBatch, r.threads[t].id) in r.log && Pub(s.nextBatch, m) !in r.log
    ensures Enabled(r, Compare(t)) && Next(r, Compare(t)).confirmed == map[]
  {
    hide CanRun, Run;
    var x, q := LostInTheMiddle(s, t, m);
    var y;
    y, r := EchoGoesRound(q, t, s.nextBatch, s.epoch, [m]);
    RunJoin(s, x, y);
    steps := x + y;
  }

  lemma {:induction false} CanOne(s: State, a: Step)
    requires CanRun(s, [a])
    ensures Enabled(s, a)
  {
    hide Enabled, Next;
  }

  /** The end of a confirm. */
  lemma {:induction false} Compares(s: State, t: nat)
    requires Inv(s) && Enabled(s, Compare(t))
    ensures var p, r := s.threads[t], Next(s, Compare(t));
            && In(r, t) && r.threads[t].Idle? && r.epoch == s.epoch
            && (p.batch in r.confirmed <==> s.epoch == p.epoch) && (s.epoch == p.epoch ==> r.confirmed[p.batch] == p.held)
  {
    NotYet(s, t);
    hide Inv;
  }

  lemma {:induction false} NotYet(s: State, t: nat)
    requires Inv(s) && In(s, t) && !s.threads[t].Idle?
    ensures s.threads[t].batch !in s.confirmed
  {
    hide Only;
    assert PhaseOk(s, s.threads[t]);
  }

  lemma {:induction false} RunSplit(s: State, x: seq<Step>, y: seq<Step>)
    requires CanRun(s, x + y)
    ensures CanRun(s, x) && CanRun(Run(s, x), y) && Run(s, x + y) == Run(Run(s, x), y)
    decreases |x|
  {
    hide Enabled, Next;
    if x == [] {
      assert x + y == y;
    } else {
      assert (x + y)[0] == x[0] && (x + y)[1..] == x[1..] + y;
      RunSplit(Next(s, x[0]), x[1..], y);
    }
  }
}
