// What statements and services of VejasScript come to (core/src/vjs.rs): the scope they leave, what
// they emit and what they start, from the values of their expressions and the outcome of their blocks.

module VjsStmtLaws {
  import opened Wrappers
  import opened VjsSyntax
  import opened VjsPure
  import opened VjsLaws

  // ---------- blocks ----------

  lemma {:induction false} OneStmt(w: World, s: Stmt, st: Scope, pkg: string, depth: nat)
    requires depth <= MAX_DEPTH
    ensures Exec(w, [s], st, pkg, depth) == ExecStmt(w, s, st, pkg, depth)
  {
    hide ExecStmt;
    var o := ExecStmt(w, s, st, pkg, depth);
    assert [s][1..] == [];
    if o.res.Ok? {
      assert Exec(w, [], o.res.value, pkg, depth) == Out(Ok(o.res.value), [], []);
      assert o.emits + [] == o.emits && o.hops + [] == o.hops;
    }
  }

  /** A block is its first part, and then, unless that fails, its second part in the scope it left. */
  lemma {:induction false} BlockLaw(w: World, xs: seq<Stmt>, ys: seq<Stmt>, st: Scope, pkg: string, depth: nat)
    requires depth <= MAX_DEPTH
    ensures Exec(w, [], st, pkg, depth) == Out(Ok(st), [], [])
    ensures var a, o := Exec(w, xs, st, pkg, depth), Exec(w, xs + ys, st, pkg, depth);
            && (a.res.Err? ==> o == a)
            && (a.res.Ok? ==> Then(a, Exec(w, ys, a.res.value, pkg, depth), o))
    decreases |xs|
  {
    hide ExecStmt;
    if xs == [] {
      assert xs + ys == ys;
      var o := Exec(w, ys, st, pkg, depth);
      assert [] + o.emits == o.emits && [] + o.hops == o.hops;
    } else {
      assert (xs + ys)[0] == xs[0] && (xs + ys)[1..] == xs[1..] + ys;
      var f := ExecStmt(w, xs[0], st, pkg, depth);
      if f.res.Ok? {
        BlockLaw(w, xs[1..], ys, f.res.value, pkg, depth);
        FirstThen(w, xs, st, pkg, depth);
        FirstThen(w, xs + ys, st, pkg, depth);
        hide Exec;
        var a := Exec(w, xs[1..], f.res.value, pkg, depth);
        if a.res.Ok? {
          var b := Exec(w, ys, a.res.value, pkg, depth);
          assert f.emits + (a.emits + b.emits) == (f.emits + a.emits) + b.emits;
          assert f.hops + (a.hops + b.hops) == (f.hops + a.hops) + b.hops;
        }
      }
    }
  }

  lemma {:induction false} FirstThen(w: World, xs: seq<Stmt>, st: Scope, pkg: string, depth: nat)
    requires depth <= MAX_DEPTH && xs != []
    ensures var f, o := ExecStmt(w, xs[0], st, pkg, depth), Exec(w, xs, st, pkg, depth);
            && (f.res.Err? ==> o == f)
            && (f.res.Ok? ==> Then(f, Exec(w, xs[1..], f.res.value, pkg, depth), o))
  {
    hide ExecStmt;
  }

  // ---------- assignment ----------

  /** What stands at a path: a name, and then a key of each document on the way. */
  ghost function Find(m: Vars, path: seq<string>): (v: Option<Value>)
    requires path != []
    decreases |path|
  {
    if path[0] !in m then None
    else if |path| == 1 then Some(m[path[0]])
    else if m[path[0]].Obj? then Find(m[path[0]].fields, path[1..])
    else None
  }

  /** Neither path goes on where the other ends. */
  ghost predicate Apart(p: seq<string>, q: seq<string>) {
    exists i :: 0 <= i < |p| && i < |q| && p[i] != q[i]
  }

  /** `n` is `m` with `v` at the path: what is beside the path is as before, and on the way there are documents. */
  ghost predicate Placed(m: Vars, n: Vars, path: seq<string>, v: Value)
    requires path != []
  {
    && Find(n, path) == Some(v)
    && (forall q :: q != [] && Apart(q, path) ==> Find(n, q) == Find(m, q))
    && (forall k :: 0 < k < |path| ==> Find(n, path[..k]).Some? && Find(n, path[..k]).value.Obj?)
  }

  lemma {:induction false} ApartStep(p: seq<string>, q: seq<string>)
    requires p != [] && q != []
    ensures Apart(p, q) <==> p[0] != q[0] || Apart(p[1..], q[1..])
  {
    if Apart(p, q) && p[0] == q[0] {
      var i :| 0 <= i < |p| && i < |q| && p[i] != q[i];
      assert p[1..][i - 1] != q[1..][i - 1];
    }
    if Apart(p[1..], q[1..]) {
      var i :| 0 <= i < |p| - 1 && i < |q| - 1 && p[1..][i] != q[1..][i];
      assert p[i + 1] != q[i + 1];
    }
  }

  lemma {:induction false} NeverApart(q: seq<string>)
    ensures !Apart(q, [])
  {
  }

  /** One name is set. */
  lemma {:induction false} PlacedOne(m: Vars, name: string, v: Value)
    ensures Placed(m, m[name := v], [name], v)
  {
    var n := m[name := v];
    forall q | q != [] && Apart(q, [name]) ensures Find(n, q) == Find(m, q) {
      ApartStep(q, [name]);
      assert [name][1..] == [];
      NeverApart(q[1..]);
    }
  }

  /** A name is set to a document in which the rest of the path is set. */
  lemma {:induction false} PlacedIn(m: Vars, path: seq<string>, inner: Vars, inner': Vars, v: Value)
    requires |path| > 1 && Placed(inner, inner', path[1..], v)
    requires path[0] in m && m[path[0]].Obj? ==> inner == m[path[0]].fields
    requires !(path[0] in m && m[path[0]].Obj?) ==> inner == map[]
    ensures Placed(m, m[path[0] := Obj(inner')], path, v)
  {
    var n := m[path[0] := Obj(inner')];
    forall q | q != [] && Apart(q, path) ensures Find(n, q) == Find(m, q) {
      ApartStep(q, path);
      if q[0] == path[0] { Beside(m, path, inner, inner', v, q); }
    }
    forall k | 0 < k < |path| ensures Find(n, path[..k]).Some? && Find(n, path[..k]).value.Obj? {
      if k > 1 { assert path[..k][1..] == path[1..][..k - 1]; }
    }
  }

  lemma {:induction false} Beside(m: Vars, path: seq<string>, inner: Vars, inner': Vars, v: Value, q: seq<string>)
    requires |path| > 1 && Placed(inner, inner', path[1..], v) && q != [] && q[0] == path[0] && Apart(q[1..], path[1..])
    requires path[0] in m && m[path[0]].Obj? ==> inner == m[path[0]].fields
    requires !(path[0] in m && m[path[0]].Obj?) ==> inner == map[]
    ensures Find(m[path[0] := Obj(inner')], q) == Find(m, q)
  {
    assert q[1..] != [];
    assert Find(inner', q[1..]) == Find(inner, q[1..]);
  }

  lemma {:induction false} SetPathLaw(root: Value, path: seq<string>, v: Value)
    requires path != []
    ensures SetPath(root, path, v).Obj?
    ensures Placed(if root.Obj? then root.fields else map[], SetPath(root, path, v).fields, path, v)
    decreases |path|
  {
    var o := if root.Obj? then root.fields else map[];
    if |path| == 1 {
      assert path == [path[0]];
      PlacedOne(o, path[0], v);
    } else {
      var next := if path[0] in o then o[path[0]] else Obj(map[]);
      SetPathLaw(next, path[1..], v);
      hide Placed;
      PlacedIn(o, path, if next.Obj? then next.fields else map[], SetPath(next, path[1..], v).fields, v);
    }
  }

  lemma {:induction false} AssignToLaw(m: Vars, path: seq<string>, v: Value)
    requires path != []
    ensures Placed(m, AssignTo(m, path, v), path, v)
  {
    if |path| == 1 {
      assert path == [path[0]];
      PlacedOne(m, path[0], v);
    } else {
      var root := if path[0] in m then m[path[0]] else Obj(map[]);
      SetPathLaw(root, path[1..], v);
      hide Placed;
      PlacedIn(m, path, if root.Obj? then root.fields else map[], SetPath(root, path[1..], v).fields, v);
    }
  }

  /** An assignment evaluates its expression and puts the value at its path, and nowhere else. */
  lemma {:induction false} AssignLaw(w: World, path: seq<string>, e: Expr, st: Scope, pkg: string, depth: nat)
    requires depth <= MAX_DEPTH && path != []
    ensures var a, o := Eval(w, e, st.vars, pkg, depth), ExecStmt(w, Assign(path, e), st, pkg, depth);
            && o.emits == a.emits && o.hops == a.hops
            && (a.res.Err? ==> o.res == Err(a.res.error))
            && (a.res.Ok? ==> o.res.Ok? && o.res.value.response == st.response && Placed(st.vars, o.res.value.vars, path, a.res.value))
  {
    hide Placed;
    var a := Eval(w, e, st.vars, pkg, depth);
    if a.res.Ok? { AssignToLaw(st.vars, path, a.res.value); }
    hide AssignTo, Eval;
  }

  // ---------- emissions and responses ----------

  /** A text that can be the subject of a message: it is not empty and has no blank in it. */
  ghost predicate IsSubject(p: Prims, v: Value) {
    v.Str? && v.s != "" && forall c :: c in v.s ==> !p.blank(c)
  }

  /**
   * `emit` adds exactly one emission, of its payload to its subject, after what its operands emit. The
   * subject is checked before the payload is evaluated, and the scope stays.
   */
  lemma {:induction false} EmitLaw(w: World, subject: Expr, payload: Expr, st: Scope, pkg: string, depth: nat)
    requires depth <= MAX_DEPTH
    ensures var a, b := Eval(w, subject, st.vars, pkg, depth), Eval(w, payload, st.vars, pkg, depth);
            var o := ExecStmt(w, Emit(subject, payload), st, pkg, depth);
            && (a.res.Err? ==> o == Out(Err(a.res.error), a.emits, a.hops))
            && (a.res.Ok? && !IsSubject(w.prims, a.res.value) ==>
                 o == Out(Err(if a.res.value.Str? then InvalidSubject(a.res.value.s) else SubjectNotString), a.emits, a.hops))
            && (a.res.Ok? && IsSubject(w.prims, a.res.value) && b.res.Err? ==>
                 o == Out(Err(b.res.error), a.emits + b.emits, a.hops + b.hops))
            && (a.res.Ok? && IsSubject(w.prims, a.res.value) && b.res.Ok? ==>
                 o == Out(Ok(st), a.emits + b.emits + [Emission(a.res.value.s, b.res.value)], a.hops + b.hops))
  {
    var a, b := Eval(w, subject, st.vars, pkg, depth), Eval(w, payload, st.vars, pkg, depth);
    hide Eval;
    if a.res.Ok? { SubjectIs(w.prims, a.res.value); }
    hide ValidSubject, IsSubject;
    if b.res.Ok? && a.res.Ok? && a.res.value.Str? {
      var m := [Emission(a.res.value.s, b.res.value)];
      assert a.emits + (b.emits + m) == a.emits + b.emits + m;
    }
  }

  lemma {:induction false} SubjectIs(p: Prims, v: Value)
    ensures IsSubject(p, v) <==> v.Str? && ValidSubject(p, v.s)
  {
    if v.Str? && ValidSubject(p, v.s) {
      forall c | c in v.s ensures !p.blank(c) {
        var i :| 0 <= i < |v.s| && v.s[i] == c;
      }
    }
  }

  /** `respond` sets the response to its status and its body, and nothing else. */
  lemma {:induction false} RespondLaw(w: World, status: Expr, answer: Expr, st: Scope, pkg: string, depth: nat)
    requires depth <= MAX_DEPTH
    ensures var a, b := Eval(w, status, st.vars, pkg, depth), Eval(w, answer, st.vars, pkg, depth);
            var o := ExecStmt(w, Respond(status, answer), st, pkg, depth);
            && (a.res.Err? ==> o == Out(Err(a.res.error), a.emits, a.hops))
            && (a.res.Ok? && b.res.Err? ==> o == Out(Err(b.res.error), a.emits + b.emits, a.hops + b.hops))
            && (a.res.Ok? && b.res.Ok? ==>
                 o == Out(Ok(Scope(st.vars, Some((a.res.value, b.res.value)))), a.emits + b.emits, a.hops + b.hops))
  {
    hide Eval;
  }

  // ---------- if and for ----------

  /** The guards of the first `k` arms. */
  ghost function Guards(w: World, arms: seq<Arm>, k: nat, st: Scope, pkg: string, depth: nat): (os: seq<Out<Value>>)
    requires depth <= MAX_DEPTH && k <= |arms|
  {
    seq(k, i requires 0 <= i < k => Eval(w, arms[i].guard, st.vars, pkg, depth))
  }

  /** The first `k` guards evaluate, and are false. */
  ghost predicate AllFalse(os: seq<Out<Value>>) {
    forall i :: 0 <= i < |os| ==> os[i].res.Ok? && !Truthy(os[i].res.value)
  }

  /** `o` is what `b` comes to after what was done before. */
  ghost predicate Next<S, T>(before: seq<Out<S>>, b: Out<T>, o: Out<T>) {
    o.res == b.res && o.emits == Emits(before) + b.emits && o.hops == Hops(before) + b.hops
  }

  lemma {:induction false} ArmsFrom(w: World, s: Stmt, k: nat, n: nat, st: Scope, pkg: string, depth: nat)
    requires depth <= MAX_DEPTH && s.If? && k <= n <= |s.arms| && AllFalse(Guards(w, s.arms, n, st, pkg, depth))
    ensures Next(Guards(w, s.arms, n, st, pkg, depth)[k..], ExecArms(w, s, n, st, pkg, depth), ExecArms(w, s, k, st, pkg, depth))
    decreases n - k
  {
    hide Eval, Exec, Truthy;
    var gs := Guards(w, s.arms, n, st, pkg, depth);
    var o := ExecArms(w, s, n, st, pkg, depth);
    if k < n {
      ArmsFrom(w, s, k + 1, n, st, pkg, depth);
      assert gs[k..][1..] == gs[k + 1..] && gs[k..][0] == gs[k] == Eval(w, s.arms[k].guard, st.vars, pkg, depth);
      ArmTurn(w, s, k, st, pkg, depth);
      hide ExecArms, Guards, AllFalse;
      FirstOut(gs[k..]);
      var g := gs[k];
      assert g.emits + (Emits(gs[k + 1..]) + o.emits) == (g.emits + Emits(gs[k + 1..])) + o.emits;
      assert g.hops + (Hops(gs[k + 1..]) + o.hops) == (g.hops + Hops(gs[k + 1..])) + o.hops;
    } else {
      assert gs[k..] == [];
      assert [] + o.emits == o.emits && [] + o.hops == o.hops;
    }
  }

  lemma {:induction false} ArmTurn(w: World, s: Stmt, k: nat, st: Scope, pkg: string, depth: nat)
    requires depth <= MAX_DEPTH && s.If? && k < |s.arms|
    ensures var c, o := Eval(w, s.arms[k].guard, st.vars, pkg, depth), ExecArms(w, s, k, st, pkg, depth);
            && (c.res.Err? ==> o == Out(Err(c.res.error), c.emits, c.hops))
            && (c.res.Ok? && Truthy(c.res.value) ==> Then(c, Exec(w, s.arms[k].body, st, pkg, depth), o))
            && (c.res.Ok? && !Truthy(c.res.value) ==> Then(c, ExecArms(w, s, k + 1, st, pkg, depth), o))
  {
    hide Eval, Exec, Truthy;
  }

  /**
   * An `if`: where the first `k` guards are false and the next one is true, its block runs in the
   * scope as it was, and no later guard is looked at; where all are false, the else block runs if there is one.
   */
  lemma {:induction false} IfLaw(w: World, arms: seq<Arm>, otherwise: Else, k: nat, st: Scope, pkg: string, depth: nat)
    requires depth <= MAX_DEPTH && k <= |arms| && AllFalse(Guards(w, arms, k, st, pkg, depth))
    ensures var gs, o := Guards(w, arms, k, st, pkg, depth), ExecStmt(w, If(arms, otherwise), st, pkg, depth);
            if k < |arms| then
              var c := Eval(w, arms[k].guard, st.vars, pkg, depth);
              && (c.res.Ok? && Truthy(c.res.value) ==> Next(gs + [c], Exec(w, arms[k].body, st, pkg, depth), o))
              && (c.res.Err? ==> o == Out(Err(c.res.error), Emits(gs) + c.emits, Hops(gs) + c.hops))
            else if otherwise.Else? then Next(gs, Exec(w, otherwise.block, st, pkg, depth), o)
            else o == Out(Ok(st), Emits(gs), Hops(gs))
  {
    hide Eval, Exec, Truthy;
    var s := If(arms, otherwise);
    var gs := Guards(w, arms, k, st, pkg, depth);
    assert gs[0..] == gs;
    ArmsFrom(w, s, 0, k, st, pkg, depth);
    assert ExecStmt(w, s, st, pkg, depth) == ExecArms(w, s, 0, st, pkg, depth);
    if k < |arms| {
      ArmTurn(w, s, k, st, pkg, depth);
      hide ExecArms, Guards, AllFalse, ExecStmt;
      var c := Eval(w, arms[k].guard, st.vars, pkg, depth);
      LastOut(gs, c);
      if c.res.Ok? && Truthy(c.res.value) {
        var b := Exec(w, arms[k].body, st, pkg, depth);
        assert Emits(gs) + (c.emits + b.emits) == (Emits(gs) + c.emits) + b.emits;
        assert Hops(gs) + (c.hops + b.hops) == (Hops(gs) + c.hops) + b.hops;
      }
    } else {
      assert Emits(gs) + [] == Emits(gs) && Hops(gs) + [] == Hops(gs);
    }
  }

  lemma {:induction false} LastOut<T>(os: seq<Out<T>>, o: Out<T>)
    ensures Emits(os + [o]) == Emits(os) + o.emits && Hops(os + [o]) == Hops(os) + o.hops
    decreases |os|
  {
    if os == [] {
      assert os + [o] == [o];
      OnlyOut(o);
      assert [] + o.emits == o.emits && [] + o.hops == o.hops;
    } else {
      LastOut(os[1..], o);
      assert (os + [o])[1..] == os[1..] + [o];
    }
  }

  /** A loop over these items, written out: the name is assigned, then the body, once for each. */
  ghost function Unrolled(name: string, items: seq<Value>, body: seq<Stmt>): (ss: seq<Stmt>) {
    if items == [] then [] else [Assign([name], Lit(items[0]))] + body + Unrolled(name, items[1..], body)
  }

  lemma {:induction false} ForUnrolls(w: World, name: string, items: seq<Value>, body: seq<Stmt>, st: Scope, pkg: string, depth: nat)
    requires depth <= MAX_DEPTH
    ensures ExecFor(w, name, items, body, st, pkg, depth) == Exec(w, Unrolled(name, items, body), st, pkg, depth)
    decreases |items|
  {
    if items != [] {
      var first := [Assign([name], Lit(items[0]))];
      var st1 := st.(vars := st.vars[name := items[0]]);
      OneStmt(w, first[0], st, pkg, depth);
      assert Exec(w, first, st, pkg, depth) == Out(Ok(st1), [], []) by { hide Exec; }
      var rest := Unrolled(name, items[1..], body);
      hide Exec, ExecStmt;
      BlockLaw(w, first, body + rest, st, pkg, depth);
      BlockLaw(w, body, rest, st1, pkg, depth);
      assert first + (body + rest) == first + body + rest;
      var o, u := Exec(w, body, st1, pkg, depth), Exec(w, body + rest, st1, pkg, depth);
      assert [] + u.emits == u.emits && [] + u.hops == u.hops;
      if o.res.Ok? { ForUnrolls(w, name, items[1..], body, o.res.value, pkg, depth); }
    }
  }

  /** A `for` over a list is the loop written out; over anything else it does nothing. */
  lemma {:induction false} ForLaw(w: World, name: string, iter: Expr, body: seq<Stmt>, st: Scope, pkg: string, depth: nat)
    requires depth <= MAX_DEPTH
    ensures var a, o := Eval(w, iter, st.vars, pkg, depth), ExecStmt(w, For(name, iter, body), st, pkg, depth);
            && (a.res.Err? ==> o == Out(Err(a.res.error), a.emits, a.hops))
            && (a.res.Ok? && !a.res.value.Arr? ==> o == Out(Ok(st), a.emits, a.hops))
            && (a.res.Ok? && a.res.value.Arr? ==> Then(a, Exec(w, Unrolled(name, a.res.value.items, body), st, pkg, depth), o))
  {
    var a := Eval(w, iter, st.vars, pkg, depth);
    if a.res.Ok? && a.res.value.Arr? { ForUnrolls(w, name, a.res.value.items, body, st, pkg, depth); }
    hide Eval, Exec, ExecFor;
  }

  // ---------- services ----------

  /** The reference `name`, made in the package `caller`, means the service `s` of the package `p`. */
  ghost predicate Spells(name: string, caller: string, p: string, s: string) {
    (':' !in p && name == p + ":" + s) || (':' !in name && p == caller && s == name)
  }

  /** A name: letters, digits and underscores, at least one. */
  ghost predicate IsName(s: string) {
    s != "" && forall c :: c in s ==> 'a' <= c <= 'z' || 'A' <= c <= 'Z' || '0' <= c <= '9' || c == '_'
  }

  lemma {:induction false} NameIs(s: string)
    ensures ValidName(s) <==> IsName(s)
  {
    if ValidName(s) {
      forall c | c in s ensures 'a' <= c <= 'z' || 'A' <= c <= 'Z' || '0' <= c <= '9' || c == '_' {
        var i :| 0 <= i < |s| && s[i] == c;
      }
    }
    if IsName(s) {
      forall i | 0 <= i < |s| ensures NameChar(s[i]) { assert s[i] in s; }
    }
  }

  /** The first surface constant EXPORTS is a list that holds the name. */
  ghost predicate Listed(surface: seq<SurfaceEntry>, s: string) {
    exists k :: 0 <= k < |surface| && surface[k].name == "EXPORTS" && surface[k].value.Arr? && Str(s) in surface[k].value.items
                && forall l :: 0 <= l < k ==> surface[l].name != "EXPORTS"
  }

  lemma {:induction false} StringsHold(vs: seq<Value>, s: string)
    ensures s in Strings(vs) <==> Str(s) in vs
    decreases |vs|
  {
    if vs != [] {
      StringsHold(vs[1..], s);
      assert Str(s) in vs <==> vs[0] == Str(s) || Str(s) in vs[1..];
    }
  }

  lemma {:induction false} ListedStep(surface: seq<SurfaceEntry>, s: string)
    requires surface != []
    ensures Listed(surface, s) <==>
            if surface[0].name == "EXPORTS" then surface[0].value.Arr? && Str(s) in surface[0].value.items else Listed(surface[1..], s)
  {
    var rest := surface[1..];
    if surface[0].name != "EXPORTS" {
      if Listed(surface, s) {
        var k :| 0 <= k < |surface| && surface[k].name == "EXPORTS" && surface[k].value.Arr? && Str(s) in surface[k].value.items
                 && forall l :: 0 <= l < k ==> surface[l].name != "EXPORTS";
        assert rest[k - 1] == surface[k];
      }
      if Listed(rest, s) {
        var k :| 0 <= k < |rest| && rest[k].name == "EXPORTS" && rest[k].value.Arr? && Str(s) in rest[k].value.items
                 && forall l :: 0 <= l < k ==> rest[l].name != "EXPORTS";
        assert surface[k + 1] == rest[k];
        assert forall l :: 0 < l < k + 1 ==> surface[l] == rest[l - 1];
      }
    }
  }

  lemma {:induction false} ExportListIs(surface: seq<SurfaceEntry>, s: string)
    ensures s in ExportList(surface) <==> Listed(surface, s)
    decreases |surface|
  {
    hide Listed;
    if surface != [] {
      ListedStep(surface, s);
      if surface[0].name == "EXPORTS" {
        if surface[0].value.Arr? { StringsHold(surface[0].value.items, s); }
      } else {
        ExportListIs(surface[1..], s);
      }
    } else {
      assert !Listed([], s) by { NothingListed(s); }
    }
  }

  lemma {:induction false} NothingListed(s: string)
    ensures !Listed([], s)
  {
  }

  lemma {:induction false} TargetIs(name: string, caller: string, p: string, s: string)
    ensures Target(name, caller) == (p, s) <==> Spells(name, caller, p, s)
  {
    var k := ColonAt(name);
    if ':' !in p && name == p + ":" + s { ColonBehind(name, p, s); }
    if k < |name| {
      assert name == name[..k] + ":" + name[k + 1..];
      assert name[k] in name;
    } else {
      assert ':' !in name;
    }
  }

  lemma {:induction false} ColonBehind(name: string, p: string, s: string)
    requires ':' !in p && name == p + ":" + s
    ensures ColonAt(name) == |p| < |name| && name[..|p|] == p && name[|p| + 1..] == s
  {
    var k := ColonAt(name);
    assert name[|p|] == ':';
    assert forall i :: 0 <= i < |p| ==> name[i] == p[i];
  }

  /** What a reference leads to: always one service of one package, if both are names and the package lists it or is the caller's own. */
  lemma {:induction false} ResolveLaw(w: World, name: string, caller: string, p: string, s: string)
    requires Spells(name, caller, p, s)
    ensures Resolve(w, name, caller) ==
            if !IsName(p) || !IsName(s) then Err(InvalidReference(name))
            else if p == caller then Ok((p, s))
            else if p !in w.manifests then Err(NoManifest(p))
            else
              var m := w.parse(w.manifests[p]);
              if m.Err? then Err(BadManifest(p, m.error))
              else if Listed(m.value.surface, s) then Ok((p, s))
              else Err(NotExported(p, s))
  {
    TargetIs(name, caller, p, s);
    NameIs(p);
    NameIs(s);
    hide ValidName, IsName, Spells, Target, ExportList, Listed;
    if p in w.manifests && w.parse(w.manifests[p]).Ok? { ExportListIs(w.parse(w.manifests[p]).value.surface, s); }
  }

  /** Every reference spells exactly one service. */
  lemma {:induction false} SpellsOne(name: string, caller: string) returns (p: string, s: string)
    ensures Spells(name, caller, p, s) && forall q, t :: Spells(name, caller, q, t) ==> q == p && t == s
  {
    p, s := Target(name, caller).0, Target(name, caller).1;
    TargetIs(name, caller, p, s);
    forall q, t | Spells(name, caller, q, t) ensures q == p && t == s { TargetIs(name, caller, q, t); }
  }

  /** What a service starts with: its arguments, and all of them as `event`. */
  ghost predicate StartsWith(args: Vars, start: Vars) {
    && (forall name :: name in start <==> name in args || name == "event")
    && start["event"] == Obj(args)
    && (forall name :: name in args && name != "event" ==> start[name] == args[name])
  }

  /**
   * Running a service: it sees its arguments and nothing of the caller, in its own package and one level
   * deeper. Its variables come back, without `event`; its emissions only if it succeeds.
   */
  lemma {:induction false} ServiceLaw(w: World, name: string, args: Vars, pkg: string, depth: nat) returns (start: Vars)
    requires depth <= MAX_DEPTH
    ensures StartsWith(args, start)
    ensures var o, at := RunService(w, name, args, pkg, depth), Resolve(w, name, pkg);
            if depth == 32 then o == Out(Err(DepthExceeded(name)), [], [])
            else if at.Err? then o == Out(Err(at.error), [], [])
            else if at.value !in w.services then o == Out(Err(UnknownService(at.value.0, at.value.1)), [], [])
            else
              var prog := w.parse(w.services[at.value]);
              if prog.Err? then o == Out(Err(BadService(at.value.0, at.value.1, prog.error)), [], [])
              else
                var b := Exec(w, prog.value.stmts, Scope(start, None), at.value.0, depth + 1);
                && o.hops == [Hop(pkg, at.value.0, at.value.1, depth + 1)] + b.hops
                && (b.res.Err? ==> o.res == Err(b.res.error) && o.emits == [])
                && (b.res.Ok? ==>
                     && o.emits == b.emits && o.res.Ok? && o.res.value.Obj?
                     && var r, vs := o.res.value.fields, b.res.value.vars;
                        (forall x :: x in r <==> x in vs && x != "event") && (forall x :: x in r ==> r[x] == vs[x]))
  {
    hide Exec, Resolve;
    start := args["event" := Obj(args)];
  }

  /** `invoke` in an expression: the arguments are evaluated, and then the service runs. */
  lemma {:induction false} InvokeLaw(w: World, service: string, given: seq<Entry>, vars: Vars, pkg: string, depth: nat)
    requires depth <= MAX_DEPTH
    ensures var os, o := EntryOuts(w, given, vars, pkg, depth), Eval(w, Invoke(service, given), vars, pkg, depth);
            && (AllOk(os) ==> exists args :: LastOfEach(given, os, args) && Next(os, RunService(w, service, args, pkg, depth), o))
            && (forall k: nat :: FailsAt(os, k) ==> Stopped(os, k, o))
  {
    EntriesLaw(w, given, vars, pkg, depth);
    hide EvalEntries, EntryOuts, Emits, Hops, AllOk, FailsAt, LastOfEach, RunService;
  }

  /** A bare `invoke`: each name the service gives back has the service's value, and every other name its old one. */
  lemma {:induction false} MergeLaw(w: World, service: string, given: seq<Entry>, st: Scope, pkg: string, depth: nat)
    requires depth <= MAX_DEPTH
    ensures var a, o := Eval(w, Invoke(service, given), st.vars, pkg, depth), ExecStmt(w, InvokeMerge(service, given), st, pkg, depth);
            && o.emits == a.emits && o.hops == a.hops
            && (a.res.Err? ==> o.res == Err(a.res.error))
            && (a.res.Ok? ==>
                 && a.res.value.Obj? && o.res.Ok? && o.res.value.response == st.response
                 && var r, m, n := a.res.value.fields, st.vars, o.res.value.vars;
                    && (forall x :: x in n <==> x in m || x in r)
                    && (forall x :: x in n ==> n[x] == if x in r then r[x] else m[x]))
  {
    ServiceGivesDoc(w, service, given, st.vars, pkg, depth);
    hide EvalEntries, RunService;
  }

  lemma {:induction false} ServiceGivesDoc(w: World, service: string, given: seq<Entry>, vars: Vars, pkg: string, depth: nat)
    requires depth <= MAX_DEPTH
    ensures var m := EvalEntries(w, given, vars, pkg, depth);
            m.res.Ok? ==> var r := RunService(w, service, m.res.value, pkg, depth); r.res.Ok? ==> r.res.value.Obj?
  {
    hide Exec, EvalEntries, Resolve, Load;
  }

  /** A run starts with the fields of its event, and the event itself, and with no response. */
  lemma {:induction false} RunLaw(w: World, prog: Program, event: Value, pkg: string) returns (start: Vars)
    ensures forall name :: name in start <==> name == "event" || (event.Obj? && name in event.fields)
    ensures start["event"] == event && (event.Obj? ==> forall name :: name in event.fields && name != "event" ==> start[name] == event.fields[name])
    ensures Run(w, prog, event, pkg) == Exec(w, prog.stmts, Scope(start, None), pkg, 0)
  {
    hide Exec;
    start := Pipeline(event);
  }
}
