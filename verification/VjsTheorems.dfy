// What holds of every VejasScript run: the write analysis is sound, a shadow run shows
// nothing of a secret, and a service body runs only where EXPORTS lets it.

module VjsTheorems {
  import opened Wrappers
  import opened VjsSyntax
  import opened VjsPure

  // ---------- the write analysis ----------

  /** Program::writes_bus: is there an emit or an invoke anywhere? */
  predicate WritesBus(prog: Program) { StmtsWriteBus(prog.stmts) }

  predicate StmtsWriteBus(ss: seq<Stmt>) {
    exists i :: 0 <= i < |ss| && StmtWritesBus(ss[i])
  }

  predicate StmtWritesBus(s: Stmt) {
    match s
    case Emit(_, _) => true
    case InvokeMerge(_, _) => true
    case Assign(_, e) => ExprWritesBus(e)
    case Respond(status, answer) => ExprWritesBus(status) || ExprWritesBus(answer)
    case If(arms, otherwise) =>
      || (exists i :: 0 <= i < |arms| && (ExprWritesBus(arms[i].guard) || StmtsWriteBus(arms[i].body)))
      || (otherwise.Else? && StmtsWriteBus(otherwise.block))
    case For(_, iter, body) => ExprWritesBus(iter) || StmtsWriteBus(body)
  }

  predicate ExprWritesBus(e: Expr) {
    match e
    case Invoke(_, _) => true
    case Lit(_) => false
    case Var(_) => false
    case FString(parts) => exists i :: 0 <= i < |parts| && PartWritesBus(parts[i])
    case Doc(fields) => exists i :: 0 <= i < |fields| && ExprWritesBus(fields[i].value)
    case Array(elems) => exists i :: 0 <= i < |elems| && ExprWritesBus(elems[i])
    case Field(b, _, _) => ExprWritesBus(b)
    case Index(a, b) => ExprWritesBus(a) || ExprWritesBus(b)
    case Projection(b) => ExprWritesBus(b)
    case Filter(a, b) => ExprWritesBus(a) || ExprWritesBus(b)
    case Call(_, args) => exists i :: 0 <= i < |args| && ExprWritesBus(args[i])
    case Unary(_, b) => ExprWritesBus(b)
    case Bin(_, a, b) => ExprWritesBus(a) || ExprWritesBus(b)
  }

  predicate PartWritesBus(p: FPart) { p.Hole? && ExprWritesBus(p.e) }

  ghost predicate Silent<T>(o: Out<T>) { o.emits == [] && o.hops == [] }

  /**
   * A program the analysis calls a pure read emits nothing and starts no service, whatever
   * the event, the services on disk, the secret store and the package it runs in, whether
   * the run succeeds or fails.
   */
  lemma {:induction false} WriteAnalysisSound(w: World, prog: Program, event: Value, pkg: string)
    requires !WritesBus(prog)
    ensures Run(w, prog, event, pkg).emits == [] && Run(w, prog, event, pkg).hops == []
  {
    ExecSilent(w, prog.stmts, Scope(Pipeline(event), None), pkg, 0);
  }

  lemma {:induction false} EvalSilent(w: World, e: Expr, vars: Vars, pkg: string, depth: nat)
    requires depth <= MAX_DEPTH && !ExprWritesBus(e)
    ensures Silent(Eval(w, e, vars, pkg, depth))
    decreases e, 0
  {
    match e
    case Lit(_) =>
    case Var(_) =>
    case FString(parts) => PartsSilent(w, parts, vars, pkg, depth);
    case Doc(fields) => EntriesSilent(w, fields, vars, pkg, depth);
    case Array(elems) => AllSilent(w, elems, vars, pkg, depth);
    case Field(b, _, _) => EvalSilent(w, b, vars, pkg, depth);
    case Index(a, b) =>
      EvalSilent(w, a, vars, pkg, depth);
      EvalSilent(w, b, vars, pkg, depth);
    case Projection(b) => EvalSilent(w, b, vars, pkg, depth);
    case Filter(a, b) =>
      EvalSilent(w, a, vars, pkg, depth);
      var base := Eval(w, a, vars, pkg, depth);
      if base.res.Ok? && base.res.value.Arr? {
        FilterSilent(w, b, base.res.value.items, vars, pkg, depth);
      }
    case Call(_, args) => AllSilent(w, args, vars, pkg, depth);
    case Unary(_, b) => EvalSilent(w, b, vars, pkg, depth);
    case Bin(_, a, b) =>
      EvalSilent(w, a, vars, pkg, depth);
      EvalSilent(w, b, vars, pkg, depth);
  }

  lemma {:induction false} AllSilent(w: World, es: seq<Expr>, vars: Vars, pkg: string, depth: nat)
    requires depth <= MAX_DEPTH
    requires forall i :: 0 <= i < |es| ==> !ExprWritesBus(es[i])
    ensures Silent(EvalAll(w, es, vars, pkg, depth))
    decreases es, 0
  {
    if es != [] {
      EvalSilent(w, es[0], vars, pkg, depth);
      AllSilent(w, es[1..], vars, pkg, depth);
    }
  }

  lemma {:induction false} EntriesSilent(w: World, fs: seq<Entry>, vars: Vars, pkg: string, depth: nat)
    requires depth <= MAX_DEPTH
    requires forall i :: 0 <= i < |fs| ==> !ExprWritesBus(fs[i].value)
    ensures Silent(EvalEntries(w, fs, vars, pkg, depth))
    decreases fs, 0
  {
    if fs != [] {
      EvalSilent(w, fs[0].value, vars, pkg, depth);
      EntriesSilent(w, fs[1..], vars, pkg, depth);
    }
  }

  lemma {:induction false} PartsSilent(w: World, ps: seq<FPart>, vars: Vars, pkg: string, depth: nat)
    requires depth <= MAX_DEPTH
    requires forall i :: 0 <= i < |ps| ==> !PartWritesBus(ps[i])
    ensures Silent(EvalParts(w, ps, vars, pkg, depth))
    decreases ps, 0
  {
    if ps != [] {
      if ps[0].Hole? {
        assert ps[0].e < ps[0];
        EvalSilent(w, ps[0].e, vars, pkg, depth);
      }
      PartsSilent(w, ps[1..], vars, pkg, depth);
    }
  }

  lemma {:induction false} FilterSilent(w: World, cond: Expr, items: seq<Value>, vars: Vars, pkg: string, depth: nat)
    requires depth <= MAX_DEPTH && !ExprWritesBus(cond)
    ensures Silent(EvalFilter(w, cond, items, vars, pkg, depth))
    decreases cond, 1 + |items|
  {
    if items != [] {
      EvalSilent(w, cond, Bound(vars, items[0]), pkg, depth);
      FilterSilent(w, cond, items[1..], vars, pkg, depth);
    }
  }

  lemma {:induction false} ExecSilent(w: World, ss: seq<Stmt>, st: Scope, pkg: string, depth: nat)
    requires depth <= MAX_DEPTH && !StmtsWriteBus(ss)
    ensures Silent(Exec(w, ss, st, pkg, depth))
    decreases ss, 0
  {
    if ss != [] {
      assert !StmtWritesBus(ss[0]);
      StmtSilent(w, ss[0], st, pkg, depth);
      var o := ExecStmt(w, ss[0], st, pkg, depth);
      assert forall i :: 0 <= i < |ss[1..]| ==> ss[1..][i] == ss[i + 1];
      if o.res.Ok? { ExecSilent(w, ss[1..], o.res.value, pkg, depth); }
    }
  }

  lemma {:induction false} StmtSilent(w: World, s: Stmt, st: Scope, pkg: string, depth: nat)
    requires depth <= MAX_DEPTH && !StmtWritesBus(s)
    ensures Silent(ExecStmt(w, s, st, pkg, depth))
    decreases s, 1
  {
    match s
    case Assign(_, e) => EvalSilent(w, e, st.vars, pkg, depth);
    case Respond(status, answer) =>
      EvalSilent(w, status, st.vars, pkg, depth);
      EvalSilent(w, answer, st.vars, pkg, depth);
    case If(arms, otherwise) => ArmsSilent(w, s, 0, st, pkg, depth);
    case For(name, iter, body) =>
      EvalSilent(w, iter, st.vars, pkg, depth);
      var v := Eval(w, iter, st.vars, pkg, depth);
      if v.res.Ok? && v.res.value.Arr? {
        ForSilent(w, name, v.res.value.items, body, st, pkg, depth);
      }
  }

  lemma {:induction false} ArmsSilent(w: World, s: Stmt, k: nat, st: Scope, pkg: string, depth: nat)
    requires depth <= MAX_DEPTH && s.If? && k <= |s.arms| && !StmtWritesBus(s)
    ensures Silent(ExecArms(w, s, k, st, pkg, depth))
    decreases s, 0, |s.arms| - k
  {
    if k == |s.arms| {
      if s.otherwise.Else? { ExecSilent(w, s.otherwise.block, st, pkg, depth); }
    } else {
      assert !ExprWritesBus(s.arms[k].guard) && !StmtsWriteBus(s.arms[k].body);
      EvalSilent(w, s.arms[k].guard, st.vars, pkg, depth);
      ExecSilent(w, s.arms[k].body, st, pkg, depth);
      ArmsSilent(w, s, k + 1, st, pkg, depth);
    }
  }

  lemma {:induction false} ForSilent(w: World, name: string, items: seq<Value>, body: seq<Stmt>, st: Scope,
                                     pkg: string, depth: nat)
    requires depth <= MAX_DEPTH && !StmtsWriteBus(body)
    ensures Silent(ExecFor(w, name, items, body, st, pkg, depth))
    decreases body, 1 + |items|
  {
    if items != [] {
      var inner := st.(vars := st.vars[name := items[0]]);
      ExecSilent(w, body, inner, pkg, depth);
      var o := Exec(w, body, inner, pkg, depth);
      if o.res.Ok? { ForSilent(w, name, items[1..], body, o.res.value, pkg, depth); }
    }
  }

  // ---------- shadow runs ----------

  type Store = string -> Result<string>

  /** RedactedStore::get: the store is asked, and its answer replaced by a placeholder. */
  function Redacted(inner: Store): (s: Store) {
    r => if inner(r).Err? then Err(inner(r).error) else Ok("<secret:" + r + ">")
  }

  /** The world of Engine::shadow. */
  function Shadow(w: World): (s: World) { w.(secrets := Redacted(w.secrets)) }

  ghost predicate SameReferences(a: Store, b: Store) {
    forall r :: a(r).Ok? <==> b(r).Ok?
  }

  /** Two outcomes nobody can tell apart, but for the text of a failure. */
  ghost predicate Alike<T(!new)>(a: Out<T>, b: Out<T>) {
    && a.emits == b.emits && a.hops == b.hops
    && (a.res.Ok? || b.res.Ok? ==> a.res == b.res)
  }

  /** Two stores that agree on every reference, but for the text of a failure. */
  ghost predicate AlikeStores(a: Store, b: Store) {
    forall r :: a(r).Ok? || b(r).Ok? ==> a(r) == b(r)
  }

  /**
   * A shadow run does not depend on what a secret holds: with any two stores that resolve the
   * same references it fails in both, or it ends in the same variables, emissions and
   * response, for every program, event and set of services.
   */
  lemma {:induction false} ShadowNonInterference(w: World, other: Store, prog: Program, event: Value, pkg: string)
    requires SameReferences(w.secrets, other)
    ensures Alike(Run(Shadow(w), prog, event, pkg),
                  Run(Shadow(w.(secrets := other)), prog, event, pkg))
  {
    var a := Shadow(w);
    var b := Redacted(other);
    assert Shadow(w.(secrets := other)) == a.(secrets := b);
    ExecAlike(a, b, prog.stmts, Scope(Pipeline(event), None), pkg, 0);
  }

  lemma {:induction false} EvalAlike(w: World, b: Store, e: Expr, vars: Vars, pkg: string, depth: nat)
    requires depth <= MAX_DEPTH && AlikeStores(w.secrets, b)
    ensures Alike(Eval(w, e, vars, pkg, depth), Eval(w.(secrets := b), e, vars, pkg, depth))
    decreases MAX_DEPTH - depth, 1, e, 1
  {
    hide EvalAll, EvalEntries, EvalParts, EvalFilter, RunService;
    match e
    case Lit(_) =>
    case Var(_) =>
    case FString(parts) => PartsAlike(w, b, parts, vars, pkg, depth);
    case Doc(fields) => EntriesAlike(w, b, fields, vars, pkg, depth);
    case Array(elems) => AllAlike(w, b, elems, vars, pkg, depth);
    case Invoke(service, given) =>
      EntriesAlike(w, b, given, vars, pkg, depth);
      var m := EvalEntries(w, given, vars, pkg, depth);
      if m.res.Ok? { ServiceAlike(w, b, service, m.res.value, pkg, depth); }
    case Field(base, _, _) => EvalAlike(w, b, base, vars, pkg, depth);
    case Index(_, _) => PairAlike(w, b, e, vars, pkg, depth);
    case Projection(base) => EvalAlike(w, b, base, vars, pkg, depth);
    case Filter(_, _) => SelectAlike(w, b, e, vars, pkg, depth);
    case Call(_, args) => AllAlike(w, b, args, vars, pkg, depth);
    case Unary(_, arg) => EvalAlike(w, b, arg, vars, pkg, depth);
    case Bin(_, _, _) => PairAlike(w, b, e, vars, pkg, depth);
  }

  /** An index or an operator, from its two parts. */
  lemma {:induction false} PairAlike(w: World, b: Store, e: Expr, vars: Vars, pkg: string, depth: nat)
    requires depth <= MAX_DEPTH && AlikeStores(w.secrets, b) && (e.Index? || e.Bin?)
    ensures Alike(Eval(w, e, vars, pkg, depth), Eval(w.(secrets := b), e, vars, pkg, depth))
    decreases MAX_DEPTH - depth, 1, e, 0
  {
    hide EvalAll, EvalEntries, EvalParts, EvalFilter, RunService, BinValue, ReadIndex;
    var x, y := if e.Index? then e.base else e.l, if e.Index? then e.key else e.r;
    EvalAlike(w, b, x, vars, pkg, depth);
    EvalAlike(w, b, y, vars, pkg, depth);
  }

  lemma {:induction false} SelectAlike(w: World, b: Store, e: Expr, vars: Vars, pkg: string, depth: nat)
    requires depth <= MAX_DEPTH && AlikeStores(w.secrets, b) && e.Filter?
    ensures Alike(Eval(w, e, vars, pkg, depth), Eval(w.(secrets := b), e, vars, pkg, depth))
    decreases MAX_DEPTH - depth, 1, e, 0
  {
    hide EvalAll, EvalEntries, EvalParts, EvalFilter, RunService;
    EvalAlike(w, b, e.base, vars, pkg, depth);
    var o := Eval(w, e.base, vars, pkg, depth);
    if o.res.Ok? && o.res.value.Arr? {
      FilterAlike(w, b, e.cond, o.res.value.items, vars, pkg, depth);
    }
  }

  lemma {:induction false} AllAlike(w: World, b: Store, es: seq<Expr>, vars: Vars, pkg: string, depth: nat)
    requires depth <= MAX_DEPTH && AlikeStores(w.secrets, b)
    ensures Alike(EvalAll(w, es, vars, pkg, depth), EvalAll(w.(secrets := b), es, vars, pkg, depth))
    decreases MAX_DEPTH - depth, 1, es, 0
  {
    if es != [] {
      EvalAlike(w, b, es[0], vars, pkg, depth);
      AllAlike(w, b, es[1..], vars, pkg, depth);
    }
  }

  lemma {:induction false} EntriesAlike(w: World, b: Store, fs: seq<Entry>, vars: Vars, pkg: string, depth: nat)
    requires depth <= MAX_DEPTH && AlikeStores(w.secrets, b)
    ensures Alike(EvalEntries(w, fs, vars, pkg, depth), EvalEntries(w.(secrets := b), fs, vars, pkg, depth))
    decreases MAX_DEPTH - depth, 1, fs, 0
  {
    if fs != [] {
      EvalAlike(w, b, fs[0].value, vars, pkg, depth);
      EntriesAlike(w, b, fs[1..], vars, pkg, depth);
    }
  }

  lemma {:induction false} PartsAlike(w: World, b: Store, ps: seq<FPart>, vars: Vars, pkg: string, depth: nat)
    requires depth <= MAX_DEPTH && AlikeStores(w.secrets, b)
    ensures Alike(EvalParts(w, ps, vars, pkg, depth), EvalParts(w.(secrets := b), ps, vars, pkg, depth))
    decreases MAX_DEPTH - depth, 1, ps, 0
  {
    if ps != [] {
      if ps[0].Hole? {
        assert ps[0].e < ps[0];
        EvalAlike(w, b, ps[0].e, vars, pkg, depth);
      }
      PartsAlike(w, b, ps[1..], vars, pkg, depth);
    }
  }

  lemma {:induction false} FilterAlike(w: World, b: Store, cond: Expr, items: seq<Value>, vars: Vars,
                                       pkg: string, depth: nat)
    requires depth <= MAX_DEPTH && AlikeStores(w.secrets, b)
    ensures Alike(EvalFilter(w, cond, items, vars, pkg, depth),
                  EvalFilter(w.(secrets := b), cond, items, vars, pkg, depth))
    decreases MAX_DEPTH - depth, 1, cond, 1 + |items|
  {
    if items != [] {
      EvalAlike(w, b, cond, Bound(vars, items[0]), pkg, depth);
      FilterAlike(w, b, cond, items[1..], vars, pkg, depth);
    }
  }

  lemma {:induction false} ServiceAlike(w: World, b: Store, name: string, args: Vars, pkg: string, depth: nat)
    requires depth <= MAX_DEPTH && AlikeStores(w.secrets, b)
    ensures Alike(RunService(w, name, args, pkg, depth), RunService(w.(secrets := b), name, args, pkg, depth))
    decreases MAX_DEPTH - depth, 0
  {
    var target := Resolve(w, name, pkg);
    if depth < MAX_DEPTH && target.Ok? {
      var prog := Load(w, target.value.0, target.value.1);
      if prog.Ok? {
        var start := Scope(args["event" := Obj(args)], None);
        ExecAlike(w, b, prog.value.stmts, start, target.value.0, depth + 1);
      }
    }
  }

  lemma {:induction false} ExecAlike(w: World, b: Store, ss: seq<Stmt>, st: Scope, pkg: string, depth: nat)
    requires depth <= MAX_DEPTH && AlikeStores(w.secrets, b)
    ensures Alike(Exec(w, ss, st, pkg, depth), Exec(w.(secrets := b), ss, st, pkg, depth))
    decreases MAX_DEPTH - depth, 1, ss, 0
  {
    if ss != [] {
      StmtAlike(w, b, ss[0], st, pkg, depth);
      var o := ExecStmt(w, ss[0], st, pkg, depth);
      if o.res.Ok? { ExecAlike(w, b, ss[1..], o.res.value, pkg, depth); }
    }
  }

  lemma {:induction false} StmtAlike(w: World, b: Store, s: Stmt, st: Scope, pkg: string, depth: nat)
    requires depth <= MAX_DEPTH && AlikeStores(w.secrets, b)
    ensures Alike(ExecStmt(w, s, st, pkg, depth), ExecStmt(w.(secrets := b), s, st, pkg, depth))
    decreases MAX_DEPTH - depth, 1, s, 1
  {
    match s
    case Assign(_, e) => EvalAlike(w, b, e, st.vars, pkg, depth);
    case InvokeMerge(service, given) =>
      EntriesAlike(w, b, given, st.vars, pkg, depth);
      var m := EvalEntries(w, given, st.vars, pkg, depth);
      if m.res.Ok? { ServiceAlike(w, b, service, m.res.value, pkg, depth); }
    case If(_, _) => ArmsAlike(w, b, s, 0, st, pkg, depth);
    case For(name, iter, body) =>
      EvalAlike(w, b, iter, st.vars, pkg, depth);
      var v := Eval(w, iter, st.vars, pkg, depth);
      if v.res.Ok? && v.res.value.Arr? {
        ForAlike(w, b, name, v.res.value.items, body, st, pkg, depth);
      }
    case Emit(subject, payload) =>
      EvalAlike(w, b, subject, st.vars, pkg, depth);
      EvalAlike(w, b, payload, st.vars, pkg, depth);
    case Respond(status, answer) =>
      EvalAlike(w, b, status, st.vars, pkg, depth);
      EvalAlike(w, b, answer, st.vars, pkg, depth);
  }

  lemma {:induction false} ArmsAlike(w: World, b: Store, s: Stmt, k: nat, st: Scope, pkg: string, depth: nat)
    requires depth <= MAX_DEPTH && AlikeStores(w.secrets, b) && s.If? && k <= |s.arms|
    ensures Alike(ExecArms(w, s, k, st, pkg, depth), ExecArms(w.(secrets := b), s, k, st, pkg, depth))
    decreases MAX_DEPTH - depth, 1, s, 0, |s.arms| - k
  {
    if k == |s.arms| {
      if s.otherwise.Else? { ExecAlike(w, b, s.otherwise.block, st, pkg, depth); }
    } else {
      EvalAlike(w, b, s.arms[k].guard, st.vars, pkg, depth);
      ExecAlike(w, b, s.arms[k].body, st, pkg, depth);
      ArmsAlike(w, b, s, k + 1, st, pkg, depth);
    }
  }

  lemma {:induction false} ForAlike(w: World, b: Store, name: string, items: seq<Value>, body: seq<Stmt>,
                                    st: Scope, pkg: string, depth: nat)
    requires depth <= MAX_DEPTH && AlikeStores(w.secrets, b)
    ensures Alike(ExecFor(w, name, items, body, st, pkg, depth),
                  ExecFor(w.(secrets := b), name, items, body, st, pkg, depth))
    decreases MAX_DEPTH - depth, 1, body, 1 + |items|
  {
    if items != [] {
      var inner := st.(vars := st.vars[name := items[0]]);
      ExecAlike(w, b, body, inner, pkg, depth);
      var o := Exec(w, body, inner, pkg, depth);
      if o.res.Ok? { ForAlike(w, b, name, items[1..], body, o.res.value, pkg, depth); }
    }
  }

  // ---------- export discipline ----------

  /** A body may run for a caller of its own package, or for anyone if it is exported. */
  ghost predicate Allowed(w: World, h: Hop) {
    || h.caller == h.pkg
    || (ExportsOf(w, h.pkg).Ok? && h.svc in ExportsOf(w, h.pkg).value)
  }

  /** `h` was asked for by the run itself (`pkg` at `depth`) or by a body started before it. */
  ghost predicate Asked(pkg: string, depth: nat, h: Hop, earlier: seq<Hop>) {
    || (h.caller == pkg && h.depth == depth + 1)
    || exists j :: 0 <= j < |earlier| && earlier[j].pkg == h.caller && earlier[j].depth + 1 == h.depth
  }

  ghost predicate Disciplined(w: World, pkg: string, depth: nat, hops: seq<Hop>) {
    forall i :: 0 <= i < |hops| ==>
      Allowed(w, hops[i]) && hops[i].depth <= MAX_DEPTH && Asked(pkg, depth, hops[i], hops[..i])
  }

  /**
   * Every service body a run starts, also one that fails, was asked for by the flow or by a
   * body started earlier, from the same package or because its package exports it, and is at
   * most MAX_DEPTH deep, however the services invoke each other.
   */
  lemma {:induction false} ExportDiscipline(w: World, prog: Program, event: Value, pkg: string)
    ensures Disciplined(w, pkg, 0, Run(w, prog, event, pkg).hops)
  {
    ExecDisciplined(w, prog.stmts, Scope(Pipeline(event), None), pkg, 0);
  }

  lemma {:induction false} JoinDisciplined(w: World, pkg: string, depth: nat, a: seq<Hop>, b: seq<Hop>)
    requires Disciplined(w, pkg, depth, a) && Disciplined(w, pkg, depth, b)
    ensures Disciplined(w, pkg, depth, a + b)
  {
    var c := a + b;
    forall i | 0 <= i < |c|
      ensures Allowed(w, c[i]) && c[i].depth <= MAX_DEPTH && Asked(pkg, depth, c[i], c[..i])
    {
      if i < |a| {
        assert c[..i] == a[..i] && c[i] == a[i];
      } else {
        var k := i - |a|;
        assert c[i] == b[k];
        if !(b[k].caller == pkg && b[k].depth == depth + 1) {
          var j :| 0 <= j < |b[..k]| && b[..k][j].pkg == b[k].caller && b[..k][j].depth + 1 == b[k].depth;
          assert c[..i][|a| + j] == b[..k][j];
        }
      }
    }
  }

  lemma {:induction false} NestDisciplined(w: World, pkg: string, depth: nat, h: Hop, inner: seq<Hop>)
    requires Allowed(w, h) && h.caller == pkg && h.depth == depth + 1 <= MAX_DEPTH
    requires Disciplined(w, h.pkg, depth + 1, inner)
    ensures Disciplined(w, pkg, depth, [h] + inner)
  {
    var c := [h] + inner;
    forall i | 0 <= i < |c|
      ensures Allowed(w, c[i]) && c[i].depth <= MAX_DEPTH && Asked(pkg, depth, c[i], c[..i])
    {
      if i > 0 {
        var k := i - 1;
        assert c[i] == inner[k];
        if inner[k].caller == h.pkg && inner[k].depth == depth + 2 {
          assert c[..i][0] == h;
        } else {
          var j :| 0 <= j < |inner[..k]| && inner[..k][j].pkg == inner[k].caller && inner[..k][j].depth + 1 == inner[k].depth;
          assert c[..i][1 + j] == inner[..k][j];
        }
      }
    }
  }

  lemma {:induction false} EvalDisciplined(w: World, e: Expr, vars: Vars, pkg: string, depth: nat)
    requires depth <= MAX_DEPTH
    ensures Disciplined(w, pkg, depth, Eval(w, e, vars, pkg, depth).hops)
    decreases MAX_DEPTH - depth, 1, e, 0
  {
    match e
    case Lit(_) =>
    case Var(_) =>
    case FString(parts) => PartsDisciplined(w, parts, vars, pkg, depth);
    case Doc(fields) => EntriesDisciplined(w, fields, vars, pkg, depth);
    case Array(elems) => AllDisciplined(w, elems, vars, pkg, depth);
    case Invoke(service, given) =>
      EntriesDisciplined(w, given, vars, pkg, depth);
      var m := EvalEntries(w, given, vars, pkg, depth);
      if m.res.Ok? {
        ServiceDisciplined(w, service, m.res.value, pkg, depth);
        JoinDisciplined(w, pkg, depth, m.hops, RunService(w, service, m.res.value, pkg, depth).hops);
      }
    case Field(base, _, _) => EvalDisciplined(w, base, vars, pkg, depth);
    case Index(base, key) =>
      EvalDisciplined(w, base, vars, pkg, depth);
      EvalDisciplined(w, key, vars, pkg, depth);
      JoinDisciplined(w, pkg, depth, Eval(w, base, vars, pkg, depth).hops, Eval(w, key, vars, pkg, depth).hops);
    case Projection(base) => EvalDisciplined(w, base, vars, pkg, depth);
    case Filter(base, cond) =>
      EvalDisciplined(w, base, vars, pkg, depth);
      var o := Eval(w, base, vars, pkg, depth);
      if o.res.Ok? && o.res.value.Arr? {
        FilterDisciplined(w, cond, o.res.value.items, vars, pkg, depth);
        JoinDisciplined(w, pkg, depth, o.hops, EvalFilter(w, cond, o.res.value.items, vars, pkg, depth).hops);
      }
    case Call(_, args) => AllDisciplined(w, args, vars, pkg, depth);
    case Unary(_, arg) => EvalDisciplined(w, arg, vars, pkg, depth);
    case Bin(_, l, r) =>
      EvalDisciplined(w, l, vars, pkg, depth);
      EvalDisciplined(w, r, vars, pkg, depth);
      JoinDisciplined(w, pkg, depth, Eval(w, l, vars, pkg, depth).hops, Eval(w, r, vars, pkg, depth).hops);
  }

  lemma {:induction false} AllDisciplined(w: World, es: seq<Expr>, vars: Vars, pkg: string, depth: nat)
    requires depth <= MAX_DEPTH
    ensures Disciplined(w, pkg, depth, EvalAll(w, es, vars, pkg, depth).hops)
    decreases MAX_DEPTH - depth, 1, es, 0
  {
    if es != [] {
      EvalDisciplined(w, es[0], vars, pkg, depth);
      AllDisciplined(w, es[1..], vars, pkg, depth);
      JoinDisciplined(w, pkg, depth, Eval(w, es[0], vars, pkg, depth).hops, EvalAll(w, es[1..], vars, pkg, depth).hops);
    }
  }

  lemma {:induction false} EntriesDisciplined(w: World, fs: seq<Entry>, vars: Vars, pkg: string, depth: nat)
    requires depth <= MAX_DEPTH
    ensures Disciplined(w, pkg, depth, EvalEntries(w, fs, vars, pkg, depth).hops)
    decreases MAX_DEPTH - depth, 1, fs, 0
  {
    if fs != [] {
      EvalDisciplined(w, fs[0].value, vars, pkg, depth);
      EntriesDisciplined(w, fs[1..], vars, pkg, depth);
      JoinDisciplined(w, pkg, depth, Eval(w, fs[0].value, vars, pkg, depth).hops, EvalEntries(w, fs[1..], vars, pkg, depth).hops);
    }
  }

  lemma {:induction false} PartsDisciplined(w: World, ps: seq<FPart>, vars: Vars, pkg: string, depth: nat)
    requires depth <= MAX_DEPTH
    ensures Disciplined(w, pkg, depth, EvalParts(w, ps, vars, pkg, depth).hops)
    decreases MAX_DEPTH - depth, 1, ps, 0
  {
    if ps != [] {
      PartsDisciplined(w, ps[1..], vars, pkg, depth);
      if ps[0].Hole? {
        assert ps[0].e < ps[0];
        EvalDisciplined(w, ps[0].e, vars, pkg, depth);
        JoinDisciplined(w, pkg, depth, Eval(w, ps[0].e, vars, pkg, depth).hops, EvalParts(w, ps[1..], vars, pkg, depth).hops);
      } else {
        JoinDisciplined(w, pkg, depth, [], EvalParts(w, ps[1..], vars, pkg, depth).hops);
      }
    }
  }

  lemma {:induction false} FilterDisciplined(w: World, cond: Expr, items: seq<Value>, vars: Vars,
                                             pkg: string, depth: nat)
    requires depth <= MAX_DEPTH
    ensures Disciplined(w, pkg, depth, EvalFilter(w, cond, items, vars, pkg, depth).hops)
    decreases MAX_DEPTH - depth, 1, cond, 1 + |items|
  {
    if items != [] {
      EvalDisciplined(w, cond, Bound(vars, items[0]), pkg, depth);
      FilterDisciplined(w, cond, items[1..], vars, pkg, depth);
      JoinDisciplined(w, pkg, depth, Eval(w, cond, Bound(vars, items[0]), pkg, depth).hops,
                      EvalFilter(w, cond, items[1..], vars, pkg, depth).hops);
    }
  }

  lemma {:induction false} ServiceDisciplined(w: World, name: string, args: Vars, pkg: string, depth: nat)
    requires depth <= MAX_DEPTH
    ensures Disciplined(w, pkg, depth, RunService(w, name, args, pkg, depth).hops)
    decreases MAX_DEPTH - depth, 0
  {
    var target := Resolve(w, name, pkg);
    if depth < MAX_DEPTH && target.Ok? {
      var (to, svc) := target.value;
      var prog := Load(w, to, svc);
      if prog.Ok? {
        var start := Scope(args["event" := Obj(args)], None);
        ExecDisciplined(w, prog.value.stmts, start, to, depth + 1);
        NestDisciplined(w, pkg, depth, Hop(pkg, to, svc, depth + 1), Exec(w, prog.value.stmts, start, to, depth + 1).hops);
      }
    }
  }

  lemma {:induction false} ExecDisciplined(w: World, ss: seq<Stmt>, st: Scope, pkg: string, depth: nat)
    requires depth <= MAX_DEPTH
    ensures Disciplined(w, pkg, depth, Exec(w, ss, st, pkg, depth).hops)
    decreases MAX_DEPTH - depth, 1, ss, 0
  {
    if ss != [] {
      StmtDisciplined(w, ss[0], st, pkg, depth);
      var o := ExecStmt(w, ss[0], st, pkg, depth);
      if o.res.Ok? {
        ExecDisciplined(w, ss[1..], o.res.value, pkg, depth);
        JoinDisciplined(w, pkg, depth, o.hops, Exec(w, ss[1..], o.res.value, pkg, depth).hops);
      }
    }
  }

  lemma {:induction false} StmtDisciplined(w: World, s: Stmt, st: Scope, pkg: string, depth: nat)
    requires depth <= MAX_DEPTH
    ensures Disciplined(w, pkg, depth, ExecStmt(w, s, st, pkg, depth).hops)
    decreases MAX_DEPTH - depth, 1, s, 1
  {
    match s
    case Assign(_, e) => EvalDisciplined(w, e, st.vars, pkg, depth);
    case InvokeMerge(service, given) =>
      EntriesDisciplined(w, given, st.vars, pkg, depth);
      var m := EvalEntries(w, given, st.vars, pkg, depth);
      if m.res.Ok? {
        ServiceDisciplined(w, service, m.res.value, pkg, depth);
        JoinDisciplined(w, pkg, depth, m.hops, RunService(w, service, m.res.value, pkg, depth).hops);
      }
    case If(_, _) => ArmsDisciplined(w, s, 0, st, pkg, depth);
    case For(name, iter, body) =>
      EvalDisciplined(w, iter, st.vars, pkg, depth);
      var v := Eval(w, iter, st.vars, pkg, depth);
      if v.res.Ok? && v.res.value.Arr? {
        ForDisciplined(w, name, v.res.value.items, body, st, pkg, depth);
        JoinDisciplined(w, pkg, depth, v.hops, ExecFor(w, name, v.res.value.items, body, st, pkg, depth).hops);
      }
    case Emit(subject, payload) => 
      EvalDisciplined(w, subject, st.vars, pkg, depth);
      EvalDisciplined(w, payload, st.vars, pkg, depth);
      JoinDisciplined(w, pkg, depth, Eval(w, subject, st.vars, pkg, depth).hops, Eval(w, payload, st.vars, pkg, depth).hops);
    case Respond(status, answer) => 
      EvalDisciplined(w, status, st.vars, pkg, depth);
      EvalDisciplined(w, answer, st.vars, pkg, depth);
      JoinDisciplined(w, pkg, depth, Eval(w, status, st.vars, pkg, depth).hops, Eval(w, answer, st.vars, pkg, depth).hops);
  }

  lemma {:induction false} ArmsDisciplined(w: World, s: Stmt, k: nat, st: Scope, pkg: string, depth: nat)
    requires depth <= MAX_DEPTH && s.If? && k <= |s.arms|
    ensures Disciplined(w, pkg, depth, ExecArms(w, s, k, st, pkg, depth).hops)
    decreases MAX_DEPTH - depth, 1, s, 0, |s.arms| - k
  {
    if k == |s.arms| {
      if s.otherwise.Else? { ExecDisciplined(w, s.otherwise.block, st, pkg, depth); }
    } else {
      EvalDisciplined(w, s.arms[k].guard, st.vars, pkg, depth);
      ExecDisciplined(w, s.arms[k].body, st, pkg, depth);
      ArmsDisciplined(w, s, k + 1, st, pkg, depth);
      var c := Eval(w, s.arms[k].guard, st.vars, pkg, depth);
      JoinDisciplined(w, pkg, depth, c.hops, Exec(w, s.arms[k].body, st, pkg, depth).hops);
      JoinDisciplined(w, pkg, depth, c.hops, ExecArms(w, s, k + 1, st, pkg, depth).hops);
    }
  }

  lemma {:induction false} ForDisciplined(w: World, name: string, items: seq<Value>, body: seq<Stmt>, st: Scope,
                                          pkg: string, depth: nat)
    requires depth <= MAX_DEPTH
    ensures Disciplined(w, pkg, depth, ExecFor(w, name, items, body, st, pkg, depth).hops)
    decreases MAX_DEPTH - depth, 1, body, 1 + |items|
  {
    if items != [] {
      var inner := st.(vars := st.vars[name := items[0]]);
      ExecDisciplined(w, body, inner, pkg, depth);
      var o := Exec(w, body, inner, pkg, depth);
      if o.res.Ok? {
        ForDisciplined(w, name, items[1..], body, o.res.value, pkg, depth);
        JoinDisciplined(w, pkg, depth, o.hops, ExecFor(w, name, items[1..], body, o.res.value, pkg, depth).hops);
      }
    }
  }
}
