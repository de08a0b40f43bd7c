// The interpreter of core/src/vjs.rs as it runs: one mutable variable space that a filter
// overwrites and puts back, one list of emissions, and an engine that counts its depth,
// switches its package and keeps parsed services and export lists. Each method computes
// what the evaluator of VjsPure computes, which reads every file again and writes nothing.

module VjsEngine {
  import opened Wrappers
  import opened VjsSyntax
  import P = VjsPure

  class Ctx {
    var vars: Vars
    var emits: seq<Emission>
    var response: Option<(Value, Value)>

    constructor (vars: Vars)
      ensures this.vars == vars && emits == [] && response == None
    {
      this.vars, emits, response := vars, [], None;
    }
  }

  function Key(pkg: string, svc: string): (k: string) { pkg + ":" + svc }

  lemma {:induction false} KeyInjective(p: string, s: string, p': string, s': string)
    requires P.ValidName(p) && P.ValidName(p') && Key(p, s) == Key(p', s')
    ensures p == p' && s == s'
  {
    var k := Key(p, s);
    assert k[|p|] == ':' && k[|p'|] == ':';
    assert forall i :: 0 <= i < |p| ==> k[i] == p[i];
    assert forall i :: 0 <= i < |p'| ==> k[i] == p'[i];
    assert p == k[..|p|] && p' == k[..|p'|];
    assert s == k[|p| + 1..] && s' == k[|p'| + 1..];
  }

  ghost predicate TrueCache(w: World, cache: map<string, Program>) {
    forall p, s :: P.ValidName(p) && P.ValidName(s) && Key(p, s) in cache ==>
      P.Load(w, p, s) == Ok(cache[Key(p, s)])
  }

  ghost predicate TrueExports(w: World, exports: map<string, seq<string>>) {
    forall p :: p in exports ==> P.ExportsOf(w, p) == Ok(exports[p])
  }

  class Engine {
    var callerPkg: string
    var cache: map<string, Program>
    var exports: map<string, seq<string>>
    var depth: nat
    /** Every service body started so far. */
    ghost var hops: seq<Hop>

    constructor (callerPkg: string)
      ensures this.callerPkg == callerPkg && depth == 0 && hops == []
      ensures forall w: World :: Coherent(w)
    {
      this.callerPkg, cache, exports, depth := callerPkg, map[], map[], 0;
      hops := [];
    }

    /** Whatever is cached is what the files say. */
    ghost predicate Coherent(w: World)
      reads this
    {
      depth <= P.MAX_DEPTH && TrueCache(w, cache) && TrueExports(w, exports)
    }

    /** Coherent, back in `pkg` at `depth`, with `hops` behind it. */
    ghost predicate Back(w: World, pkg: string, depth: nat, hops: seq<Hop>)
      reads this
    {
      Coherent(w) && callerPkg == pkg && this.depth == depth && this.hops == hops
    }

    /** Drop everything read so far: coherent again, whatever the files now hold. */
    method Invalidate()
      requires depth <= P.MAX_DEPTH
      modifies this`cache, this`exports
      ensures forall w: World :: Coherent(w)
    {
      cache, exports := map[], map[];
    }

    method ExportsOf(w: World, pkg: string) returns (r: Result<seq<string>>)
      requires Coherent(w)
      modifies this`exports
      ensures Coherent(w) && r == P.ExportsOf(w, pkg)
    {
      if pkg in exports {
        return Ok(exports[pkg]);
      }
      if pkg !in w.manifests {
        return Err(NoManifest(pkg));
      }
      var prog := w.parse(w.manifests[pkg]);
      if prog.Err? {
        return Err(BadManifest(pkg, prog.error));
      }
      var list := P.ExportList(prog.value.surface);
      exports := exports[pkg := list];
      return Ok(list);
    }

    method Resolve(w: World, name: string) returns (r: Result<(string, string)>)
      requires Coherent(w)
      modifies this`exports
      ensures Coherent(w) && r == P.Resolve(w, name, callerPkg)
    {
      var (pkg, svc) := P.Target(name, callerPkg);
      if !P.ValidName(pkg) || !P.ValidName(svc) {
        return Err(InvalidReference(name));
      }
      if pkg != callerPkg {
        var list := ExportsOf(w, pkg);
        if list.Err? {
          return Err(list.error);
        }
        if svc !in list.value {
          return Err(NotExported(pkg, svc));
        }
      }
      return Ok((pkg, svc));
    }

    method ServiceStmts(w: World, pkg: string, svc: string) returns (r: Result<seq<Stmt>>)
      requires Coherent(w) && P.ValidName(pkg) && P.ValidName(svc)
      modifies this`cache
      ensures Coherent(w)
      ensures match P.Load(w, pkg, svc)
              case Ok(prog) => r == Ok(prog.stmts)
              case Err(e) => r == Err(e)
    {
      var key := Key(pkg, svc);
      if key !in cache {
        if (pkg, svc) !in w.services {
          return Err(UnknownService(pkg, svc));
        }
        var prog := w.parse(w.services[(pkg, svc)]);
        if prog.Err? {
          return Err(BadService(pkg, svc, prog.error));
        }
        cache := cache[key := prog.value];
        forall p, s | P.ValidName(p) && P.ValidName(s) && Key(p, s) in cache
          ensures P.Load(w, p, s) == Ok(cache[Key(p, s)])
        {
          if Key(p, s) == key { KeyInjective(p, s, pkg, svc); }
        }
      }
      return Ok(cache[key].stmts);
    }
  }

  // ---------- expressions ----------

  /**
   * eval: the result, the emissions and the services started are those of the pure evaluator,
   * on success and on every failure; depth and package are back where they were; and a
   * successful evaluation leaves the variables as it found them.
   */
  method Eval(w: World, e: Expr, ctx: Ctx, engine: Engine) returns (r: Result<Value>)
    requires engine.Coherent(w)
    modifies ctx`vars, ctx`emits, engine
    ensures var o := P.Eval(w, e, old(ctx.vars), old(engine.callerPkg), old(engine.depth));
            && r == o.res
            && ctx.emits == old(ctx.emits) + o.emits
            && engine.Back(w, old(engine.callerPkg), old(engine.depth), old(engine.hops) + o.hops)
    ensures r.Ok? ==> ctx.vars == old(ctx.vars)
    decreases P.MAX_DEPTH - engine.depth, 1, e, 1
  {
    match e
    case Lit(v) => return Ok(v);
    case Var(name) => return Ok(P.Get(ctx.vars, name));
    case FString(parts) =>
      var s := EvalParts(w, parts, ctx, engine);
      return if s.Err? then Err(s.error) else Ok(Str(s.value));
    case Doc(fields) =>
      var m := EvalEntries(w, fields, ctx, engine);
      return if m.Err? then Err(m.error) else Ok(Obj(m.value));
    case Array(elems) =>
      var a := EvalAll(w, elems, ctx, engine);
      return if a.Err? then Err(a.error) else Ok(Arr(a.value));
    case Invoke(service, given) =>
      r := EvalInvoke(w, e, ctx, engine);
    case Field(base, name, safe) =>
      var b := Eval(w, base, ctx, engine);
      if b.Err? { return b; }
      return P.ReadField(b.value, name, safe);
    case Index(base, key) =>
      r := EvalIndex(w, e, ctx, engine);
    case Projection(base) =>
      r := Eval(w, base, ctx, engine);
    case Filter(base, cond) =>
      r := EvalSelect(w, e, ctx, engine);
    case Call(name, args) =>
      var a := EvalAll(w, args, ctx, engine);
      if a.Err? { return Err(a.error); }
      return P.CallValue(w, name, a.value);
    case Unary(op, arg) =>
      var v := Eval(w, arg, ctx, engine);
      if v.Err? { return v; }
      return Ok(P.UnaryValue(op, v.value));
    case Bin(op, left, right) =>
      r := EvalBin(w, e, ctx, engine);
  }

  method EvalInvoke(w: World, e: Expr, ctx: Ctx, engine: Engine) returns (r: Result<Value>)
    requires engine.Coherent(w) && e.Invoke?
    modifies ctx`vars, ctx`emits, engine
    ensures var o := P.Eval(w, e, old(ctx.vars), old(engine.callerPkg), old(engine.depth));
            && r == o.res
            && ctx.emits == old(ctx.emits) + o.emits
            && engine.Back(w, old(engine.callerPkg), old(engine.depth), old(engine.hops) + o.hops)
    ensures r.Ok? ==> ctx.vars == old(ctx.vars)
    decreases P.MAX_DEPTH - engine.depth, 1, e, 0
  {
    hide P.RunService, P.EvalEntries;
    var m := EvalEntries(w, e.given, ctx, engine);
    if m.Err? { return Err(m.error); }
    var out, emits := RunService(w, e.service, m.value, engine);
    ctx.emits := ctx.emits + emits;
    return out;
  }

  method EvalIndex(w: World, e: Expr, ctx: Ctx, engine: Engine) returns (r: Result<Value>)
    requires engine.Coherent(w) && e.Index?
    modifies ctx`vars, ctx`emits, engine
    ensures var o := P.Eval(w, e, old(ctx.vars), old(engine.callerPkg), old(engine.depth));
            && r == o.res
            && ctx.emits == old(ctx.emits) + o.emits
            && engine.Back(w, old(engine.callerPkg), old(engine.depth), old(engine.hops) + o.hops)
    ensures r.Ok? ==> ctx.vars == old(ctx.vars)
    decreases P.MAX_DEPTH - engine.depth, 1, e, 0
  {
    var b := Eval(w, e.base, ctx, engine);
    if b.Err? { return b; }
    var k := Eval(w, e.key, ctx, engine);
    if k.Err? { return k; }
    return Ok(P.ReadIndex(b.value, k.value));
  }

  method EvalSelect(w: World, e: Expr, ctx: Ctx, engine: Engine) returns (r: Result<Value>)
    requires engine.Coherent(w) && e.Filter?
    modifies ctx`vars, ctx`emits, engine
    ensures var o := P.Eval(w, e, old(ctx.vars), old(engine.callerPkg), old(engine.depth));
            && r == o.res
            && ctx.emits == old(ctx.emits) + o.emits
            && engine.Back(w, old(engine.callerPkg), old(engine.depth), old(engine.hops) + o.hops)
    ensures r.Ok? ==> ctx.vars == old(ctx.vars)
    decreases P.MAX_DEPTH - engine.depth, 1, e, 0
  {
    hide P.EvalFilter;
    var b := Eval(w, e.base, ctx, engine);
    if b.Err? { return b; }
    if !b.value.Arr? { return Ok(Arr([])); }
    var kept := EvalFilter(w, e.cond, b.value.items, ctx, engine);
    return if kept.Err? then Err(kept.error) else Ok(Arr(kept.value));
  }

  method EvalBin(w: World, e: Expr, ctx: Ctx, engine: Engine) returns (r: Result<Value>)
    requires engine.Coherent(w) && e.Bin?
    modifies ctx`vars, ctx`emits, engine
    ensures var o := P.Eval(w, e, old(ctx.vars), old(engine.callerPkg), old(engine.depth));
            && r == o.res
            && ctx.emits == old(ctx.emits) + o.emits
            && engine.Back(w, old(engine.callerPkg), old(engine.depth), old(engine.hops) + o.hops)
    ensures r.Ok? ==> ctx.vars == old(ctx.vars)
    decreases P.MAX_DEPTH - engine.depth, 1, e, 0
  {
    hide P.BinValue;
    var lv := Eval(w, e.l, ctx, engine);
    if lv.Err? { return lv; }
    if P.ShortCircuits(e.op) {
      if P.StopsAtLeft(e.op, lv.value) { return lv; }
      r := Eval(w, e.r, ctx, engine);
      return;
    }
    var rv := Eval(w, e.r, ctx, engine);
    if rv.Err? { return rv; }
    return Ok(P.BinValue(w.prims, e.op, lv.value, rv.value));
  }

  lemma {:induction false} UnrollAll(w: World, xs: seq<Expr>, k: nat, vars: Vars, pkg: string, depth: nat,
                   acc: seq<Value>, es: seq<Emission>, hs: seq<Hop>)
    requires depth <= P.MAX_DEPTH && k <= |xs|
    ensures k == |xs| ==> P.EvalAll(w, xs[k..], vars, pkg, depth) == P.Pure(Ok([]))
    ensures k < |xs| ==>
            var one := P.Eval(w, xs[k], vars, pkg, depth);
            var rest := P.EvalAll(w, xs[k..], vars, pkg, depth);
            var next := P.EvalAll(w, xs[k + 1..], vars, pkg, depth);
            if one.res.Err? then rest == P.Failed(one)
            else
              && es + rest.emits == (es + one.emits) + next.emits
              && hs + rest.hops == (hs + one.hops) + next.hops
              && (next.res.Err? ==> rest.res == next.res)
              && (next.res.Ok? ==> rest.res.Ok? && acc + rest.res.value == (acc + [one.res.value]) + next.res.value)
  {
    hide P.Eval;
    if k < |xs| {
      assert xs[k..][0] == xs[k] && xs[k..][1..] == xs[k + 1..];
    }
  }

  method EvalAll(w: World, es: seq<Expr>, ctx: Ctx, engine: Engine) returns (r: Result<seq<Value>>)
    requires engine.Coherent(w)
    modifies ctx`vars, ctx`emits, engine
    ensures var o := P.EvalAll(w, es, old(ctx.vars), old(engine.callerPkg), old(engine.depth));
            && r == o.res
            && ctx.emits == old(ctx.emits) + o.emits
            && engine.Back(w, old(engine.callerPkg), old(engine.depth), old(engine.hops) + o.hops)
    ensures r.Ok? ==> ctx.vars == old(ctx.vars)
    decreases P.MAX_DEPTH - engine.depth, 1, es, 0
  {
    hide P.Eval, P.EvalAll;
    ghost var vars, pkg, depth := ctx.vars, engine.callerPkg, engine.depth;
    ghost var all := P.EvalAll(w, es, vars, pkg, depth);
    ghost var rest := all;
    var vals := [];
    var k := 0;
    assert es[0..] == es;
    while k < |es|
      invariant 0 <= k <= |es| && rest == P.EvalAll(w, es[k..], vars, pkg, depth)
      invariant ctx.vars == vars && engine.Back(w, pkg, depth, engine.hops)
      invariant rest.res.Err? ==> all.res == rest.res
      invariant rest.res.Ok? ==> all.res.Ok? && all.res.value == vals + rest.res.value
      invariant ctx.emits + rest.emits == old(ctx.emits) + all.emits
      invariant engine.hops + rest.hops == old(engine.hops) + all.hops
    {
      UnrollAll(w, es, k, vars, pkg, depth, vals, ctx.emits, engine.hops);
      var v := Eval(w, es[k], ctx, engine);
      if v.Err? { return Err(v.error); }
      vals := vals + [v.value];
      k := k + 1;
      rest := P.EvalAll(w, es[k..], vars, pkg, depth);
    }
    UnrollAll(w, es, k, vars, pkg, depth, vals, ctx.emits, engine.hops);
    assert vals + [] == vals;
    return Ok(vals);
  }

  lemma {:induction false} UnrollEntries(w: World, xs: seq<Entry>, k: nat, vars: Vars, pkg: string, depth: nat,
                   acc: Vars, es: seq<Emission>, hs: seq<Hop>)
    requires depth <= P.MAX_DEPTH && k <= |xs|
    ensures k == |xs| ==> P.EvalEntries(w, xs[k..], vars, pkg, depth) == P.Pure(Ok(map[]))
    ensures k < |xs| ==>
            var one := P.Eval(w, xs[k].value, vars, pkg, depth);
            var rest := P.EvalEntries(w, xs[k..], vars, pkg, depth);
            var next := P.EvalEntries(w, xs[k + 1..], vars, pkg, depth);
            if one.res.Err? then rest == P.Failed(one)
            else
              && es + rest.emits == (es + one.emits) + next.emits
              && hs + rest.hops == (hs + one.hops) + next.hops
              && (next.res.Err? ==> rest.res == next.res)
              && (next.res.Ok? ==> rest.res.Ok? && acc + rest.res.value == acc[xs[k].key := one.res.value] + next.res.value)
  {
    hide P.Eval;
    if k < |xs| {
      assert xs[k..][0] == xs[k] && xs[k..][1..] == xs[k + 1..];
    }
  }

  method EvalEntries(w: World, fs: seq<Entry>, ctx: Ctx, engine: Engine) returns (r: Result<Vars>)
    requires engine.Coherent(w)
    modifies ctx`vars, ctx`emits, engine
    ensures var o := P.EvalEntries(w, fs, old(ctx.vars), old(engine.callerPkg), old(engine.depth));
            && r == o.res
            && ctx.emits == old(ctx.emits) + o.emits
            && engine.Back(w, old(engine.callerPkg), old(engine.depth), old(engine.hops) + o.hops)
    ensures r.Ok? ==> ctx.vars == old(ctx.vars)
    decreases P.MAX_DEPTH - engine.depth, 1, fs, 0
  {
    hide P.Eval, P.EvalEntries;
    ghost var vars, pkg, depth := ctx.vars, engine.callerPkg, engine.depth;
    ghost var all := P.EvalEntries(w, fs, vars, pkg, depth);
    ghost var rest := all;
    var m: Vars := map[];
    var k := 0;
    assert fs[0..] == fs;
    while k < |fs|
      invariant 0 <= k <= |fs| && rest == P.EvalEntries(w, fs[k..], vars, pkg, depth)
      invariant ctx.vars == vars && engine.Back(w, pkg, depth, engine.hops)
      invariant rest.res.Err? ==> all.res == rest.res
      invariant rest.res.Ok? ==> all.res.Ok? && all.res.value == m + rest.res.value
      invariant ctx.emits + rest.emits == old(ctx.emits) + all.emits
      invariant engine.hops + rest.hops == old(engine.hops) + all.hops
    {
      UnrollEntries(w, fs, k, vars, pkg, depth, m, ctx.emits, engine.hops);
      var v := Eval(w, fs[k].value, ctx, engine);
      if v.Err? { return Err(v.error); }
      m := m[fs[k].key := v.value];
      k := k + 1;
      rest := P.EvalEntries(w, fs[k..], vars, pkg, depth);
    }
    UnrollEntries(w, fs, k, vars, pkg, depth, m, ctx.emits, engine.hops);
    assert m + map[] == m;
    return Ok(m);
  }

  ghost function PartOut(w: World, p: FPart, vars: Vars, pkg: string, depth: nat): P.Out<Value>
    requires depth <= P.MAX_DEPTH
  {
    if p.Hole? then P.Eval(w, p.e, vars, pkg, depth) else P.Pure(Ok(Str(p.s)))
  }

  lemma {:induction false} UnrollParts(w: World, xs: seq<FPart>, k: nat, vars: Vars, pkg: string, depth: nat,
                   acc: string, es: seq<Emission>, hs: seq<Hop>)
    requires depth <= P.MAX_DEPTH && k <= |xs|
    ensures k == |xs| ==> P.EvalParts(w, xs[k..], vars, pkg, depth) == P.Pure(Ok([]))
    ensures k < |xs| ==>
            var one := PartOut(w, xs[k], vars, pkg, depth);
            var rest := P.EvalParts(w, xs[k..], vars, pkg, depth);
            var next := P.EvalParts(w, xs[k + 1..], vars, pkg, depth);
            if one.res.Err? then rest == P.Failed(one)
            else
              && es + rest.emits == (es + one.emits) + next.emits
              && hs + rest.hops == (hs + one.hops) + next.hops
              && (next.res.Err? ==> rest.res == next.res)
              && (next.res.Ok? ==> rest.res.Ok? && acc + rest.res.value == (acc + P.Display(w.prims, one.res.value)) + next.res.value)
  {
    hide P.Eval;
    if k < |xs| {
      assert xs[k..][0] == xs[k] && xs[k..][1..] == xs[k + 1..];
    }
  }

  method EvalParts(w: World, ps: seq<FPart>, ctx: Ctx, engine: Engine) returns (r: Result<string>)
    requires engine.Coherent(w)
    modifies ctx`vars, ctx`emits, engine
    ensures var o := P.EvalParts(w, ps, old(ctx.vars), old(engine.callerPkg), old(engine.depth));
            && r == o.res
            && ctx.emits == old(ctx.emits) + o.emits
            && engine.Back(w, old(engine.callerPkg), old(engine.depth), old(engine.hops) + o.hops)
    ensures r.Ok? ==> ctx.vars == old(ctx.vars)
    decreases P.MAX_DEPTH - engine.depth, 1, ps, 0
  {
    hide P.Eval, P.EvalParts;
    ghost var vars, pkg, depth := ctx.vars, engine.callerPkg, engine.depth;
    ghost var all := P.EvalParts(w, ps, vars, pkg, depth);
    ghost var rest := all;
    var s := "";
    var k := 0;
    assert ps[0..] == ps;
    while k < |ps|
      invariant 0 <= k <= |ps| && rest == P.EvalParts(w, ps[k..], vars, pkg, depth)
      invariant ctx.vars == vars && engine.Back(w, pkg, depth, engine.hops)
      invariant rest.res.Err? ==> all.res == rest.res
      invariant rest.res.Ok? ==> all.res.Ok? && all.res.value == s + rest.res.value
      invariant ctx.emits + rest.emits == old(ctx.emits) + all.emits
      invariant engine.hops + rest.hops == old(engine.hops) + all.hops
    {
      UnrollParts(w, ps, k, vars, pkg, depth, s, ctx.emits, engine.hops);
      if ps[k].Hole? {
        assert ps[k].e < ps[k];
        var v := Eval(w, ps[k].e, ctx, engine);
        if v.Err? { return Err(v.error); }
        s := s + P.Display(w.prims, v.value);
      } else {
        s := s + ps[k].s;
      }
      k := k + 1;
      rest := P.EvalParts(w, ps[k..], vars, pkg, depth);
    }
    UnrollParts(w, ps, k, vars, pkg, depth, s, ctx.emits, engine.hops);
    assert s + "" == s;
    return Ok(s);
  }

  // ---------- filters ----------

  type Saved = seq<(string, Option<Value>)>

  function Lookup(m: Vars, k: string): (r: Option<Value>) { if k in m then Some(m[k]) else None }

  lemma {:induction false} SameLookups(a: Vars, b: Vars)
    requires forall k :: Lookup(a, k) == Lookup(b, k)
    ensures a == b
  {
    assert forall k :: k in a <==> Lookup(a, k).Some?;
    assert forall k :: k in b <==> Lookup(b, k).Some?;
    forall k | k in a ensures k in b && a[k] == b[k] {
      assert Lookup(a, k) == Lookup(b, k);
    }
    assert a.Keys == b.Keys;
  }

  /** Lay a document's fields over the variables, remembering what each one hid. */
  method Bind(ctx: Ctx, o: Vars) returns (saved: Saved)
    modifies ctx`vars
    ensures ctx.vars == old(ctx.vars) + o
    ensures forall i :: 0 <= i < |saved| ==> saved[i].1 == Lookup(old(ctx.vars), saved[i].0)
    ensures forall k :: k in o ==> exists i :: 0 <= i < |saved| && saved[i].0 == k
  {
    saved := [];
    var todo := o.Keys;
    while todo != {}
      invariant todo <= o.Keys
      invariant forall i :: 0 <= i < |saved| ==> saved[i].1 == Lookup(ctx.vars, saved[i].0)
      invariant forall k :: k in o && k !in todo ==> exists i :: 0 <= i < |saved| && saved[i].0 == k
    {
      var k :| k in todo;
      ghost var before := saved;
      saved := saved + [(k, Lookup(ctx.vars, k))];
      assert saved[|before|].0 == k;
      assert forall i :: 0 <= i < |before| ==> saved[i] == before[i];
      todo := todo - {k};
    }
    todo := o.Keys;
    while todo != {}
      invariant todo <= o.Keys
      invariant ctx.vars == old(ctx.vars) + (map k | k in o && k !in todo :: o[k])
    {
      var k :| k in todo;
      ctx.vars := ctx.vars[k := o[k]];
      todo := todo - {k};
    }
    assert (map k | k in o && k !in todo :: o[k]) == o;
  }

  /** Put back what a binding hid. `was` is the variable space before it. */
  method Restore(ctx: Ctx, saved: Saved, ghost was: Vars)
    requires forall i :: 0 <= i < |saved| ==> saved[i].1 == Lookup(was, saved[i].0)
    requires forall k :: (forall i :: 0 <= i < |saved| ==> saved[i].0 != k) ==>
               Lookup(ctx.vars, k) == Lookup(was, k)
    modifies ctx`vars
    ensures ctx.vars == was
  {
    var j := 0;
    while j < |saved|
      invariant 0 <= j <= |saved|
      invariant forall k :: (forall i :: j <= i < |saved| ==> saved[i].0 != k) ==>
                  Lookup(ctx.vars, k) == Lookup(was, k)
    {
      var (k, hidden) := saved[j];
      ghost var before := ctx.vars;
      ctx.vars := if hidden.Some? then ctx.vars[k := hidden.value] else ctx.vars - {k};
      assert Lookup(ctx.vars, k) == hidden == saved[j].1;
      assert forall x :: x != k ==> Lookup(ctx.vars, x) == Lookup(before, x);
      j := j + 1;
    }
    assert forall k :: Lookup(ctx.vars, k) == Lookup(was, k);
    SameLookups(ctx.vars, was);
  }

  lemma {:induction false} UnrollFilter(w: World, cond: Expr, xs: seq<Value>, k: nat, vars: Vars, pkg: string, depth: nat,
                   acc: seq<Value>, es: seq<Emission>, hs: seq<Hop>)
    requires depth <= P.MAX_DEPTH && k <= |xs|
    ensures k == |xs| ==> P.EvalFilter(w, cond, xs[k..], vars, pkg, depth) == P.Pure(Ok([]))
    ensures k < |xs| ==>
            var one := P.Eval(w, cond, P.Bound(vars, xs[k]), pkg, depth);
            var rest := P.EvalFilter(w, cond, xs[k..], vars, pkg, depth);
            var next := P.EvalFilter(w, cond, xs[k + 1..], vars, pkg, depth);
            if one.res.Err? then rest == P.Failed(one)
            else
              && es + rest.emits == (es + one.emits) + next.emits
              && hs + rest.hops == (hs + one.hops) + next.hops
              && (next.res.Err? ==> rest.res == next.res)
              && (next.res.Ok? ==> rest.res.Ok? && acc + rest.res.value == (acc + (if P.Truthy(one.res.value) then [xs[k]] else [])) + next.res.value)
  {
    hide P.Eval;
    if k < |xs| {
      assert xs[k..][0] == xs[k] && xs[k..][1..] == xs[k + 1..];
    }
  }

  method EvalFilter(w: World, cond: Expr, items: seq<Value>, ctx: Ctx, engine: Engine)
    returns (r: Result<seq<Value>>)
    requires engine.Coherent(w)
    modifies ctx`vars, ctx`emits, engine
    ensures var o := P.EvalFilter(w, cond, items, old(ctx.vars), old(engine.callerPkg), old(engine.depth));
            && r == o.res
            && ctx.emits == old(ctx.emits) + o.emits
            && engine.Back(w, old(engine.callerPkg), old(engine.depth), old(engine.hops) + o.hops)
    ensures r.Ok? ==> ctx.vars == old(ctx.vars)
    decreases P.MAX_DEPTH - engine.depth, 1, cond, 3
  {
    hide P.Eval, P.EvalFilter;
    ghost var vars, pkg, depth := ctx.vars, engine.callerPkg, engine.depth;
    ghost var all := P.EvalFilter(w, cond, items, vars, pkg, depth);
    ghost var rest := all;
    var kept := [];
    var k := 0;
    assert items[0..] == items;
    while k < |items|
      invariant 0 <= k <= |items| && rest == P.EvalFilter(w, cond, items[k..], vars, pkg, depth)
      invariant ctx.vars == vars && engine.Back(w, pkg, depth, engine.hops)
      invariant rest.res.Err? ==> all.res == rest.res
      invariant rest.res.Ok? ==> all.res.Ok? && all.res.value == kept + rest.res.value
      invariant ctx.emits + rest.emits == old(ctx.emits) + all.emits
      invariant engine.hops + rest.hops == old(engine.hops) + all.hops
    {
      var item := items[k];
      UnrollFilter(w, cond, items, k, vars, pkg, depth, kept, ctx.emits, engine.hops);
      var c := Judge(w, cond, item, ctx, engine);
      if c.Err? { return Err(c.error); }
      kept := kept + if P.Truthy(c.value) then [item] else [];
      k := k + 1;
      rest := P.EvalFilter(w, cond, items[k..], vars, pkg, depth);
    }
    UnrollFilter(w, cond, items, k, vars, pkg, depth, kept, ctx.emits, engine.hops);
    assert kept + [] == kept;
    return Ok(kept);
  }

  /** One item of a filter: bind its fields, evaluate the condition, put the variables back. */
  method Judge(w: World, cond: Expr, item: Value, ctx: Ctx, engine: Engine) returns (r: Result<Value>)
    requires engine.Coherent(w)
    modifies ctx`vars, ctx`emits, engine
    ensures var o := P.Eval(w, cond, P.Bound(old(ctx.vars), item), old(engine.callerPkg), old(engine.depth));
            && r == o.res
            && ctx.emits == old(ctx.emits) + o.emits
            && engine.Back(w, old(engine.callerPkg), old(engine.depth), old(engine.hops) + o.hops)
    ensures r.Ok? ==> ctx.vars == old(ctx.vars)
    decreases P.MAX_DEPTH - engine.depth, 1, cond, 2
  {
    hide P.Eval;
    ghost var was := ctx.vars;
    var saved: Saved := [];
    if item.Obj? { saved := Bind(ctx, item.fields); }
    r := Eval(w, cond, ctx, engine);
    if r.Ok? {
      forall k | forall i :: 0 <= i < |saved| ==> saved[i].0 != k
        ensures Lookup(ctx.vars, k) == Lookup(was, k)
      {
        if item.Obj? { assert k !in item.fields; }
      }
      Restore(ctx, saved, was);
    }
  }

  // ---------- services and statements ----------

  /**
   * run_service: the depth guard, resolution in the caller's package, the body in the target's
   * package, and both put back whatever happens. The emissions of a failed service are dropped.
   */
  method RunService(w: World, name: string, args: Vars, engine: Engine)
    returns (r: Result<Value>, emits: seq<Emission>)
    requires engine.Coherent(w)
    modifies engine
    ensures var o := P.RunService(w, name, args, old(engine.callerPkg), old(engine.depth));
            && r == o.res && emits == o.emits && (r.Err? ==> emits == [])
            && engine.Back(w, old(engine.callerPkg), old(engine.depth), old(engine.hops) + o.hops)
    decreases P.MAX_DEPTH - engine.depth, 0
  {
    hide P.Exec;
    if engine.depth >= P.MAX_DEPTH {
      return Err(DepthExceeded(name)), [];
    }
    var target := engine.Resolve(w, name);
    if target.Err? {
      return Err(target.error), [];
    }
    var (pkg, svc) := target.value;
    engine.depth := engine.depth + 1;
    var stmts := engine.ServiceStmts(w, pkg, svc);
    if stmts.Err? {
      engine.depth := engine.depth - 1;
      return Err(stmts.error), [];
    }
    r, emits := RunBody(w, pkg, svc, stmts.value, args, engine);
  }

  /** The body of a service, in its own package, with the engine one deeper on entry only. */
  method RunBody(w: World, pkg: string, svc: string, stmts: seq<Stmt>, args: Vars, engine: Engine)
    returns (r: Result<Value>, emits: seq<Emission>)
    requires engine.Coherent(w) && 0 < engine.depth
    modifies engine
    ensures var start := P.Scope(args["event" := Obj(args)], None);
            var o := P.Exec(w, stmts, start, pkg, old(engine.depth));
            && (match o.res
                case Ok(st) => r == Ok(Obj(st.vars - {"event"})) && emits == o.emits
                case Err(e) => r == Err(e) && emits == [])
            && engine.Back(w, old(engine.callerPkg), old(engine.depth) - 1,
                 old(engine.hops) + ([Hop(old(engine.callerPkg), pkg, svc, old(engine.depth))] + o.hops))
    decreases P.MAX_DEPTH - engine.depth, 2
  {
    hide P.Exec;
    var savedPkg := engine.callerPkg;
    ghost var hop := Hop(savedPkg, pkg, svc, engine.depth);
    ghost var hops0 := engine.hops;
    engine.callerPkg := pkg;
    engine.hops := engine.hops + [hop];
    var ctx := new Ctx(args["event" := Obj(args)]);
    var result := ExecBlock(w, stmts, ctx, engine);
    engine.callerPkg := savedPkg;
    engine.depth := engine.depth - 1;
    ghost var body := P.Exec(w, stmts, P.Scope(args["event" := Obj(args)], None), pkg, engine.depth + 1);
    assert (hops0 + [hop]) + body.hops == hops0 + ([hop] + body.hops);
    if result.Err? {
      return Err(result.error), [];
    }
    assert [] + body.emits == body.emits;
    return Ok(Obj(ctx.vars - {"event"})), ctx.emits;
  }

  /**
   * exec_block: the statements in order. What comes out is the pure execution's outcome, and
   * after a success the context holds its variables and its response.
   */
  method ExecBlock(w: World, stmts: seq<Stmt>, ctx: Ctx, engine: Engine) returns (r: Result<()>)
    requires engine.Coherent(w)
    modifies ctx, engine
    ensures var o := P.Exec(w, stmts, P.Scope(old(ctx.vars), old(ctx.response)), old(engine.callerPkg), old(engine.depth));
            && (match r case Ok(_) => o.res == Ok(P.Scope(ctx.vars, ctx.response)) case Err(e) => o.res == Err(e))
            && ctx.emits == old(ctx.emits) + o.emits
            && engine.Back(w, old(engine.callerPkg), old(engine.depth), old(engine.hops) + o.hops)
    decreases P.MAX_DEPTH - engine.depth, 1, stmts, 0
  {
    hide P.ExecStmt;
    ghost var pkg, depth := engine.callerPkg, engine.depth;
    ghost var all := P.Exec(w, stmts, P.Scope(ctx.vars, ctx.response), pkg, depth);
    ghost var rest := all;
    var k := 0;
    assert stmts[0..] == stmts;
    while k < |stmts|
      invariant 0 <= k <= |stmts| && rest == P.Exec(w, stmts[k..], P.Scope(ctx.vars, ctx.response), pkg, depth)
      invariant engine.Back(w, pkg, depth, engine.hops)
      invariant all.res == rest.res
      invariant ctx.emits + rest.emits == old(ctx.emits) + all.emits
      invariant engine.hops + rest.hops == old(engine.hops) + all.hops
    {
      ghost var emits1, hops1 := ctx.emits, engine.hops;
      assert stmts[k..][1..] == stmts[k + 1..] && stmts[k..][0] == stmts[k];
      ghost var one := P.ExecStmt(w, stmts[k], P.Scope(ctx.vars, ctx.response), pkg, depth);
      var done := ExecStmt(w, stmts[k], ctx, engine);
      if done.Err? { return done; }
      k := k + 1;
      ghost var next := P.Exec(w, stmts[k..], P.Scope(ctx.vars, ctx.response), pkg, depth);
      assert emits1 + (one.emits + next.emits) == (emits1 + one.emits) + next.emits;
      assert hops1 + (one.hops + next.hops) == (hops1 + one.hops) + next.hops;
      rest := next;
    }
    return Ok(());
  }

  method ExecStmt(w: World, s: Stmt, ctx: Ctx, engine: Engine) returns (r: Result<()>)
    requires engine.Coherent(w)
    modifies ctx, engine
    ensures var o := P.ExecStmt(w, s, P.Scope(old(ctx.vars), old(ctx.response)), old(engine.callerPkg), old(engine.depth));
            && (match r case Ok(_) => o.res == Ok(P.Scope(ctx.vars, ctx.response)) case Err(e) => o.res == Err(e))
            && ctx.emits == old(ctx.emits) + o.emits
            && engine.Back(w, old(engine.callerPkg), old(engine.depth), old(engine.hops) + o.hops)
    decreases P.MAX_DEPTH - engine.depth, 1, s, 1
  {
    hide P.Eval, P.ExecArms, P.ExecFor;
    match s {
    case Assign(path, e) =>
      var v := Eval(w, e, ctx, engine);
      if v.Err? { return Err(v.error); }
      ctx.vars := P.AssignTo(ctx.vars, path, v.value);
    case InvokeMerge(service, given) =>
      r := ExecMerge(w, s, ctx, engine);
      return;
    case If(arms, otherwise) =>
      r := ExecArms(w, s, ctx, engine);
      return;
    case For(name, iter, body) =>
      var items := Eval(w, iter, ctx, engine);
      if items.Err? { return Err(items.error); }
      if items.value.Arr? {
        r := ExecFor(w, name, items.value.items, body, ctx, engine);
        return;
      }
    case Emit(subject, payload) =>
      r := ExecEmit(w, s, ctx, engine);
      return;
    case Respond(status, answer) =>
      r := ExecRespond(w, s, ctx, engine);
      return;
    }
    return Ok(());
  }

  method ExecEmit(w: World, s: Stmt, ctx: Ctx, engine: Engine) returns (r: Result<()>)
    requires engine.Coherent(w) && s.Emit?
    modifies ctx, engine
    ensures var o := P.ExecStmt(w, s, P.Scope(old(ctx.vars), old(ctx.response)), old(engine.callerPkg), old(engine.depth));
            && (match r case Ok(_) => o.res == Ok(P.Scope(ctx.vars, ctx.response)) case Err(e) => o.res == Err(e))
            && ctx.emits == old(ctx.emits) + o.emits
            && engine.Back(w, old(engine.callerPkg), old(engine.depth), old(engine.hops) + o.hops)
    decreases P.MAX_DEPTH - engine.depth, 1, s, 0
  {
    hide P.Eval;
    var subj := Eval(w, s.subject, ctx, engine);
    if subj.Err? { return Err(subj.error); }
    if !subj.value.Str? { return Err(SubjectNotString); }
    if !P.ValidSubject(w.prims, subj.value.s) { return Err(InvalidSubject(subj.value.s)); }
    var p := Eval(w, s.payload, ctx, engine);
    if p.Err? { return Err(p.error); }
    ctx.emits := ctx.emits + [Emission(subj.value.s, p.value)];
    return Ok(());
  }

  method ExecRespond(w: World, s: Stmt, ctx: Ctx, engine: Engine) returns (r: Result<()>)
    requires engine.Coherent(w) && s.Respond?
    modifies ctx, engine
    ensures var o := P.ExecStmt(w, s, P.Scope(old(ctx.vars), old(ctx.response)), old(engine.callerPkg), old(engine.depth));
            && (match r case Ok(_) => o.res == Ok(P.Scope(ctx.vars, ctx.response)) case Err(e) => o.res == Err(e))
            && ctx.emits == old(ctx.emits) + o.emits
            && engine.Back(w, old(engine.callerPkg), old(engine.depth), old(engine.hops) + o.hops)
    decreases P.MAX_DEPTH - engine.depth, 1, s, 0
  {
    hide P.Eval;
    var st := Eval(w, s.status, ctx, engine);
    if st.Err? { return Err(st.error); }
    var b := Eval(w, s.answer, ctx, engine);
    if b.Err? { return Err(b.error); }
    ctx.response := Some((st.value, b.value));
    return Ok(());
  }

  method ExecMerge(w: World, s: Stmt, ctx: Ctx, engine: Engine) returns (r: Result<()>)
    requires engine.Coherent(w) && s.InvokeMerge?
    modifies ctx, engine
    ensures var o := P.ExecStmt(w, s, P.Scope(old(ctx.vars), old(ctx.response)), old(engine.callerPkg), old(engine.depth));
            && (match r case Ok(_) => o.res == Ok(P.Scope(ctx.vars, ctx.response)) case Err(e) => o.res == Err(e))
            && ctx.emits == old(ctx.emits) + o.emits
            && engine.Back(w, old(engine.callerPkg), old(engine.depth), old(engine.hops) + o.hops)
    decreases P.MAX_DEPTH - engine.depth, 1, s, 0
  {
    hide P.RunService, P.EvalEntries;
    var m := EvalEntries(w, s.given, ctx, engine);
    if m.Err? { return Err(m.error); }
    ghost var emits1, hops1 := ctx.emits, engine.hops;
    var out, emits := RunService(w, s.service, m.value, engine);
    if out.Err? {
      assert emits == [];
      return Err(out.error);
    }
    ctx.emits := ctx.emits + emits;
    if out.value.Obj? { ctx.vars := ctx.vars + out.value.fields; }
    return Ok(());
  }

  method ExecArms(w: World, s: Stmt, ctx: Ctx, engine: Engine) returns (r: Result<()>)
    requires engine.Coherent(w) && s.If?
    modifies ctx, engine
    ensures var o := P.ExecArms(w, s, 0, P.Scope(old(ctx.vars), old(ctx.response)), old(engine.callerPkg), old(engine.depth));
            && (match r case Ok(_) => o.res == Ok(P.Scope(ctx.vars, ctx.response)) case Err(e) => o.res == Err(e))
            && ctx.emits == old(ctx.emits) + o.emits
            && engine.Back(w, old(engine.callerPkg), old(engine.depth), old(engine.hops) + o.hops)
    decreases P.MAX_DEPTH - engine.depth, 1, s, 0
  {
    hide P.Eval, P.Exec;
    ghost var st, pkg, depth := P.Scope(ctx.vars, ctx.response), engine.callerPkg, engine.depth;
    ghost var all := P.ExecArms(w, s, 0, st, pkg, depth);
    ghost var rest := all;
    var k := 0;
    while k < |s.arms|
      invariant 0 <= k <= |s.arms| && rest == P.ExecArms(w, s, k, st, pkg, depth)
      invariant st == P.Scope(ctx.vars, ctx.response)
      invariant engine.Back(w, pkg, depth, engine.hops)
      invariant all.res == rest.res
      invariant ctx.emits + rest.emits == old(ctx.emits) + all.emits
      invariant engine.hops + rest.hops == old(engine.hops) + all.hops
    {
      ghost var emits1, hops1 := ctx.emits, engine.hops;
      ghost var one := P.Eval(w, s.arms[k].guard, st.vars, pkg, depth);
      var c := Eval(w, s.arms[k].guard, ctx, engine);
      if c.Err? { return Err(c.error); }
      if P.Truthy(c.value) {
        ghost var body := P.Exec(w, s.arms[k].body, st, pkg, depth);
        assert emits1 + (one.emits + body.emits) == (emits1 + one.emits) + body.emits;
        assert hops1 + (one.hops + body.hops) == (hops1 + one.hops) + body.hops;
        r := ExecBlock(w, s.arms[k].body, ctx, engine);
        return;
      }
      k := k + 1;
      ghost var next := P.ExecArms(w, s, k, st, pkg, depth);
      assert emits1 + (one.emits + next.emits) == (emits1 + one.emits) + next.emits;
      assert hops1 + (one.hops + next.hops) == (hops1 + one.hops) + next.hops;
      rest := next;
    }
    if s.otherwise.Else? {
      r := ExecBlock(w, s.otherwise.block, ctx, engine);
      return;
    }
    return Ok(());
  }

  method ExecFor(w: World, name: string, items: seq<Value>, body: seq<Stmt>, ctx: Ctx, engine: Engine)
    returns (r: Result<()>)
    requires engine.Coherent(w)
    modifies ctx, engine
    ensures var o := P.ExecFor(w, name, items, body, P.Scope(old(ctx.vars), old(ctx.response)), old(engine.callerPkg), old(engine.depth));
            && (match r case Ok(_) => o.res == Ok(P.Scope(ctx.vars, ctx.response)) case Err(e) => o.res == Err(e))
            && ctx.emits == old(ctx.emits) + o.emits
            && engine.Back(w, old(engine.callerPkg), old(engine.depth), old(engine.hops) + o.hops)
    decreases P.MAX_DEPTH - engine.depth, 1, body, 1
  {
    hide P.Exec;
    ghost var pkg, depth := engine.callerPkg, engine.depth;
    ghost var all := P.ExecFor(w, name, items, body, P.Scope(ctx.vars, ctx.response), pkg, depth);
    ghost var rest := all;
    var k := 0;
    assert items[0..] == items;
    while k < |items|
      invariant 0 <= k <= |items|
      invariant rest == P.ExecFor(w, name, items[k..], body, P.Scope(ctx.vars, ctx.response), pkg, depth)
      invariant engine.Back(w, pkg, depth, engine.hops)
      invariant all.res == rest.res
      invariant ctx.emits + rest.emits == old(ctx.emits) + all.emits
      invariant engine.hops + rest.hops == old(engine.hops) + all.hops
    {
      ghost var emits1, hops1 := ctx.emits, engine.hops;
      assert items[k..][1..] == items[k + 1..] && items[k..][0] == items[k];
      ctx.vars := ctx.vars[name := items[k]];
      ghost var one := P.Exec(w, body, P.Scope(ctx.vars, ctx.response), pkg, depth);
      var done := ExecBlock(w, body, ctx, engine);
      if done.Err? { return done; }
      k := k + 1;
      ghost var next := P.ExecFor(w, name, items[k..], body, P.Scope(ctx.vars, ctx.response), pkg, depth);
      assert emits1 + (one.emits + next.emits) == (emits1 + one.emits) + next.emits;
      assert hops1 + (one.hops + next.hops) == (hops1 + one.hops) + next.hops;
      rest := next;
    }
    return Ok(());
  }

  /** run: one event through one program, on an engine that may already hold parsed services. */
  method Run(w: World, prog: Program, event: Value, engine: Engine) returns (r: Result<()>, ctx: Ctx)
    requires engine.Coherent(w) && engine.depth == 0
    modifies engine
    ensures fresh(ctx)
    ensures var o := P.Run(w, prog, event, old(engine.callerPkg));
            && (match r case Ok(_) => o.res == Ok(P.Scope(ctx.vars, ctx.response)) case Err(e) => o.res == Err(e))
            && ctx.emits == o.emits
            && engine.Back(w, old(engine.callerPkg), 0, old(engine.hops) + o.hops)
  {
    hide P.Exec;
    ctx := new Ctx(P.Pipeline(event));
    r := ExecBlock(w, prog.stmts, ctx, engine);
    assert ctx.emits == P.Run(w, prog, event, engine.callerPkg).emits;
  }

  // ---------- many rounds, with the files edited between them ----------

  /** The files as they are during a round, and the events it brings. */
  datatype Round = Round(world: World, events: seq<Value>)

  /** What comes out of one event. */
  datatype Answer = Answer(res: Result<P.Scope>, emits: seq<Emission>)

  /** What an engine that reads every file again answers. */
  function AnswerTo(w: World, prog: Program, event: Value, pkg: string): (a: Answer) {
    var o := P.Run(w, prog, event, pkg);
    Answer(o.res, o.emits)
  }

  /** One round: the cache is dropped, and then serves every event of the round. */
  method ServeRound(prog: Program, round: Round, engine: Engine) returns (answers: seq<Answer>)
    requires engine.depth == 0
    modifies engine
    ensures engine.depth == 0 && engine.callerPkg == old(engine.callerPkg)
    ensures |answers| == |round.events|
    ensures forall k :: 0 <= k < |answers| ==> answers[k] == AnswerTo(round.world, prog, round.events[k], old(engine.callerPkg))
  {
    engine.Invalidate();
    answers := [];
    for k := 0 to |round.events|
      invariant engine.Coherent(round.world) && engine.depth == 0 && engine.callerPkg == old(engine.callerPkg)
      invariant |answers| == k
      invariant forall l :: 0 <= l < k ==> answers[l] == AnswerTo(round.world, prog, round.events[l], old(engine.callerPkg))
    {
      var r, ctx := Run(round.world, prog, round.events[k], engine);
      var res := match r case Ok(_) => Ok(P.Scope(ctx.vars, ctx.response)) case Err(e) => Err(e);
      answers := answers + [Answer(res, ctx.emits)];
    }
  }

  /**
   * Over any number of rounds, with the files edited in any way between them, the caching engine
   * answers every event as one that reads every file again.
   */
  method Serve(prog: Program, rounds: seq<Round>, engine: Engine) returns (answers: seq<seq<Answer>>)
    requires engine.depth == 0
    modifies engine
    ensures |answers| == |rounds|
    ensures forall n :: 0 <= n < |rounds| ==> |answers[n]| == |rounds[n].events|
    ensures forall n, k :: 0 <= n < |rounds| && 0 <= k < |rounds[n].events| ==>
              answers[n][k] == AnswerTo(rounds[n].world, prog, rounds[n].events[k], old(engine.callerPkg))
  {
    answers := [];
    for n := 0 to |rounds|
      invariant engine.depth == 0 && engine.callerPkg == old(engine.callerPkg)
      invariant |answers| == n
      invariant forall m :: 0 <= m < n ==> |answers[m]| == |rounds[m].events|
      invariant forall m, k :: 0 <= m < n && 0 <= k < |rounds[m].events| ==>
          answers[m][k] == AnswerTo(rounds[m].world, prog, rounds[m].events[k], old(engine.callerPkg))
    {
      var round := ServeRound(prog, rounds[n], engine);
      answers := answers + [round];
    }
  }
}
