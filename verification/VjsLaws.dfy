// What expressions of VejasScript come to (core/src/vjs.rs): for every kind of expression its
// result, its emissions and the services it starts, from those of its operands. The laws say it in
// terms of the operands' values, so that each operator is fixed by what it is for.

module VjsLaws {
  import opened Wrappers
  import opened VjsSyntax
  import opened VjsPure

  // ---------- values ----------

  /** What counts as false: nothing else does. */
  lemma {:induction false} FalsyExactly(v: Value)
    ensures !Truthy(v) <==> v == Null || v == Bool(false) || v == Num(0.0) || v == Str("") || v == Arr([])
  {
  }

  /** What a value is in a text. */
  lemma {:induction false} DisplayLaw(p: Prims, v: Value)
    ensures v.Null? ==> Display(p, v) == ""
    ensures v.Str? ==> Display(p, v) == v.s
    ensures !v.Null? && !v.Str? ==> Display(p, v) == p.json(v)
  {
  }

  // ---------- operators that may stop at their left operand ----------

  /** `o` is what `b` comes to, with all that `a` did before. */
  ghost predicate Then<S, T>(a: Out<S>, b: Out<T>, o: Out<T>) {
    o.res == b.res && o.emits == a.emits + b.emits && o.hops == a.hops + b.hops
  }

  /**
   * `l and r` is true exactly when both are. The right operand is evaluated exactly when the left
   * one is true, and the value is that of the operand evaluated last.
   */
  lemma {:induction false} AndLaw(w: World, l: Expr, r: Expr, vars: Vars, pkg: string, depth: nat)
    requires depth <= MAX_DEPTH
    ensures var a, b, o := Eval(w, l, vars, pkg, depth), Eval(w, r, vars, pkg, depth), Eval(w, Bin(And, l, r), vars, pkg, depth);
            && (a.res.Err? || !Truthy(a.res.value) ==> o == a)
            && (a.res.Ok? && Truthy(a.res.value) ==> Then(a, b, o))
            && (a.res.Ok? && b.res.Ok? ==> o.res.Ok? && (Truthy(o.res.value) <==> Truthy(a.res.value) && Truthy(b.res.value)))
  {
    hide Truthy;
  }

  /** `l or r` is true exactly when either is, and looks at the right operand exactly when the left one is not. */
  lemma {:induction false} OrLaw(w: World, l: Expr, r: Expr, vars: Vars, pkg: string, depth: nat)
    requires depth <= MAX_DEPTH
    ensures var a, b, o := Eval(w, l, vars, pkg, depth), Eval(w, r, vars, pkg, depth), Eval(w, Bin(Or, l, r), vars, pkg, depth);
            && (a.res.Err? || Truthy(a.res.value) ==> o == a)
            && (a.res.Ok? && !Truthy(a.res.value) ==> Then(a, b, o))
            && (a.res.Ok? && b.res.Ok? ==> o.res.Ok? && (Truthy(o.res.value) <==> Truthy(a.res.value) || Truthy(b.res.value)))
  {
    hide Truthy;
  }

  /** `l ?? r` is null exactly when both are, and looks at the right operand exactly when the left one is null. */
  lemma {:induction false} CoalesceLaw(w: World, l: Expr, r: Expr, vars: Vars, pkg: string, depth: nat)
    requires depth <= MAX_DEPTH
    ensures var a, b, o := Eval(w, l, vars, pkg, depth), Eval(w, r, vars, pkg, depth), Eval(w, Bin(Coalesce, l, r), vars, pkg, depth);
            && (a.res.Err? || a.res.value != Null ==> o == a)
            && (a.res == Ok(Null) ==> Then(a, b, o))
            && (a.res.Ok? && b.res.Ok? ==> o.res.Ok? && (o.res.value == Null <==> a.res.value == Null && b.res.value == Null))
  {
  }

  // ---------- operators on two values ----------

  ghost predicate Strict(op: BinOp) { op != And && op != Or && op != Coalesce }

  /** Every other operator evaluates both operands, left to right, until one fails, and does not fail itself. */
  lemma {:induction false} StrictLaw(w: World, op: BinOp, l: Expr, r: Expr, vars: Vars, pkg: string, depth: nat)
    requires depth <= MAX_DEPTH && Strict(op)
    ensures var a, b, o := Eval(w, l, vars, pkg, depth), Eval(w, r, vars, pkg, depth), Eval(w, Bin(op, l, r), vars, pkg, depth);
            && (a.res.Err? ==> o == a)
            && (a.res.Ok? && b.res.Err? ==> Then(a, b, o))
            && (a.res.Ok? && b.res.Ok? ==> o.res.Ok? && o.emits == a.emits + b.emits && o.hops == a.hops + b.hops)
  {
    hide BinValue;
  }

  /** Both operands evaluate, to `x` and `y`, and `op` of them to `z`. */
  ghost predicate Yields(w: World, op: BinOp, l: Expr, r: Expr, vars: Vars, pkg: string, depth: nat, x: Value, y: Value, z: Value)
    requires depth <= MAX_DEPTH
  {
    && Eval(w, l, vars, pkg, depth).res == Ok(x) && Eval(w, r, vars, pkg, depth).res == Ok(y)
    && Eval(w, Bin(op, l, r), vars, pkg, depth).res == Ok(z)
  }

  lemma {:induction false} Computed(w: World, op: BinOp, l: Expr, r: Expr, vars: Vars, pkg: string, depth: nat, x: Value, y: Value, z: Value)
    requires depth <= MAX_DEPTH && Yields(w, op, l, r, vars, pkg, depth, x, y, z) && Strict(op)
    ensures z == BinValue(w.prims, op, x, y)
  {
    hide BinValue;
  }

  /** `==` is equality of values, `!=` its opposite. */
  lemma {:induction false} EqualityLaw(w: World, op: BinOp, l: Expr, r: Expr, vars: Vars, pkg: string, depth: nat, x: Value, y: Value, z: Value)
    requires depth <= MAX_DEPTH && Yields(w, op, l, r, vars, pkg, depth, x, y, z)
    ensures op.Eq? ==> z == Bool(x == y)
    ensures op.Ne? ==> z == Bool(x != y)
  {
    hide Yields;
    if op.Eq? || op.Ne? { Computed(w, op, l, r, vars, pkg, depth, x, y, z); }
  }

  /** Differences, sums, products and quotients of numbers undo each other; of anything else there are none. */
  lemma {:induction false} ArithmeticLaw(w: World, op: BinOp, l: Expr, r: Expr, vars: Vars, pkg: string, depth: nat, x: Value, y: Value, z: Value)
    requires depth <= MAX_DEPTH && Yields(w, op, l, r, vars, pkg, depth, x, y, z)
    ensures op.Sub? ==> if x.Num? && y.Num? then z.Num? && z.n + y.n == x.n else z == Null
    ensures op.Add? && x.Num? && y.Num? ==> z.Num? && z.n - y.n == x.n
    ensures op.Div? ==> if x.Num? && y.Num? && y.n != 0.0 then z.Num? && z.n * y.n == x.n else z == Null
    ensures op.Mul? ==> if x.Num? && y.Num? then z.Num? && (y.n == 0.0 ==> z.n == 0.0) && (y.n != 0.0 ==> z.n / y.n == x.n) else z == Null
  {
    hide Yields;
    if op in {Sub, Add, Div, Mul} {
      Computed(w, op, l, r, vars, pkg, depth, x, y, z);
      if op.Mul? && x.Num? && y.Num? && y.n != 0.0 { TimesOver(x.n, y.n); }
    }
  }

  lemma {:induction false} TimesOver(a: real, b: real)
    requires b != 0.0
    ensures a * b / b == a
  {
  }

  /** Otherwise `+` puts lists after each other, and joins the texts of anything else. */
  lemma {:induction false} JoinLaw(w: World, op: BinOp, l: Expr, r: Expr, vars: Vars, pkg: string, depth: nat, x: Value, y: Value, z: Value)
    requires depth <= MAX_DEPTH && Yields(w, op, l, r, vars, pkg, depth, x, y, z) && op.Add? && !(x.Num? && y.Num?)
    ensures x.Arr? && y.Arr? ==> z.Arr? && x.items <= z.items && z.items[|x.items|..] == y.items
    ensures !(x.Arr? && y.Arr?) ==> z == Str(Display(w.prims, x) + Display(w.prims, y))
  {
    hide Yields, Display;
    Computed(w, op, l, r, vars, pkg, depth, x, y, z);
  }

  /** Of two numbers exactly one is true: the first is smaller, they are equal, the first is greater. */
  lemma {:induction false} OrderLaw(w: World, op: BinOp, l: Expr, r: Expr, vars: Vars, pkg: string, depth: nat, x: Value, y: Value, z: Value)
    requires depth <= MAX_DEPTH && Yields(w, op, l, r, vars, pkg, depth, x, y, z) && x.Num? && y.Num?
    ensures op.Lt? ==> z == Bool(y.n - x.n > 0.0)
    ensures op.Gt? ==> z == Bool(x.n - y.n > 0.0)
    ensures op.Le? ==> z == Bool(x == y || y.n - x.n > 0.0)
    ensures op.Ge? ==> z == Bool(x == y || x.n - y.n > 0.0)
  {
    hide Yields;
    if op in {Lt, Gt, Le, Ge} { Computed(w, op, l, r, vars, pkg, depth, x, y, z); }
  }

  /** Two texts are in the order that the primitive says; nothing else is in any order. */
  lemma {:induction false} TextOrderLaw(w: World, op: BinOp, l: Expr, r: Expr, vars: Vars, pkg: string, depth: nat, x: Value, y: Value, z: Value)
    requires depth <= MAX_DEPTH && Yields(w, op, l, r, vars, pkg, depth, x, y, z) && !(x.Num? && y.Num?) && op in {Lt, Gt, Le, Ge}
    ensures x.Str? && y.Str? ==>
              && (op.Lt? ==> z == Bool(w.prims.less(x.s, y.s))) && (op.Gt? ==> z == Bool(w.prims.less(y.s, x.s)))
              && (op.Le? ==> z == Bool(!w.prims.less(y.s, x.s))) && (op.Ge? ==> z == Bool(!w.prims.less(x.s, y.s)))
    ensures !(x.Str? && y.Str?) ==> z == Bool(false)
  {
    hide Yields;
    Computed(w, op, l, r, vars, pkg, depth, x, y, z);
  }

  /** `in` finds an element of a list, a key of a document, a part of a text, and nothing anywhere else. */
  lemma {:induction false} InLaw(w: World, op: BinOp, l: Expr, r: Expr, vars: Vars, pkg: string, depth: nat, x: Value, y: Value, z: Value)
    requires depth <= MAX_DEPTH && Yields(w, op, l, r, vars, pkg, depth, x, y, z) && op.In?
    ensures z.Bool?
    ensures y.Arr? ==> (z.b <==> exists i :: 0 <= i < |y.items| && y.items[i] == x)
    ensures y.Obj? ==> (z.b <==> exists k :: k in y.fields && x == Str(k))
    ensures y.Str? ==> (z.b <==> x.Str? && w.prims.contains(y.s, x.s))
    ensures !y.Arr? && !y.Obj? && !y.Str? ==> !z.b
  {
    hide Yields;
    Computed(w, op, l, r, vars, pkg, depth, x, y, z);
  }

  // ---------- one operand ----------

  /** `not` is true exactly of what is false; a number and its negative add up to nothing. */
  lemma {:induction false} UnaryLaw(w: World, op: UnOp, e: Expr, vars: Vars, pkg: string, depth: nat)
    requires depth <= MAX_DEPTH
    ensures var a, o := Eval(w, e, vars, pkg, depth), Eval(w, Unary(op, e), vars, pkg, depth);
            && (a.res.Err? ==> o == a) && o.emits == a.emits && o.hops == a.hops
            && (a.res.Ok? ==>
                 && o.res.Ok?
                 && (op.Not? ==> o.res.value.Bool? && (o.res.value.b <==> !Truthy(a.res.value)))
                 && (op.Neg? && a.res.value.Num? ==> o.res.value.Num? && o.res.value.n + a.res.value.n == 0.0)
                 && (op.Neg? && !a.res.value.Num? ==> o.res.value == Null))
  {
    hide Truthy;
  }

  /** A variable is what it was set to, or null; a literal is its value. */
  lemma {:induction false} AtomLaw(w: World, name: string, v: Value, vars: Vars, pkg: string, depth: nat)
    requires depth <= MAX_DEPTH
    ensures Eval(w, Lit(v), vars, pkg, depth) == Out(Ok(v), [], [])
    ensures Eval(w, Var(name), vars, pkg, depth) == Out(Ok(if name in vars then vars[name] else Null), [], [])
  {
  }

  /** What a document holds under a key, or null. */
  ghost predicate Holds(v: Value, key: string, x: Value) {
    v.Obj? && ((key in v.fields && x == v.fields[key]) || (key !in v.fields && x == Null))
  }

  /** The field of a document, or of each document of a list; null has none, and of anything else it fails unless it is asked for safely. */
  lemma {:induction false} FieldLaw(w: World, e: Expr, name: string, safe: bool, vars: Vars, pkg: string, depth: nat)
    requires depth <= MAX_DEPTH
    ensures var a, o := Eval(w, e, vars, pkg, depth), Eval(w, Field(e, name, safe), vars, pkg, depth);
            && (a.res.Err? ==> o == a) && o.emits == a.emits && o.hops == a.hops
            && (a.res.Ok? ==>
                 var b := a.res.value;
                 && (b.Obj? ==> o.res.Ok? && Holds(b, name, o.res.value))
                 && (b.Null? ==> o.res == Ok(Null))
                 && (b.Arr? ==>
                      && o.res.Ok? && o.res.value.Arr? && |o.res.value.items| == |b.items|
                      && forall i :: 0 <= i < |b.items| ==>
                           if b.items[i].Obj? then Holds(b.items[i], name, o.res.value.items[i]) else o.res.value.items[i] == Null)
                 && (b.Bool? || b.Num? || b.Str? ==> o.res == if safe then Ok(Null) else Err(NoSuchField(name))))
  {
  }

  /** Indexing evaluates both parts, and finds a key of a document or a whole-numbered place of a list. */
  lemma {:induction false} IndexLaw(w: World, e: Expr, k: Expr, vars: Vars, pkg: string, depth: nat, place: nat)
    requires depth <= MAX_DEPTH
    ensures var a, b, o := Eval(w, e, vars, pkg, depth), Eval(w, k, vars, pkg, depth), Eval(w, Index(e, k), vars, pkg, depth);
            && (a.res.Err? ==> o == a)
            && (a.res.Ok? && b.res.Err? ==> Then(a, b, o))
            && (a.res.Ok? && b.res.Ok? ==>
                 o.res.Ok? && o.emits == a.emits + b.emits && o.hops == a.hops + b.hops && Found(a.res.value, b.res.value, place, o.res.value))
  {
    IndexReads(w, e, k, vars, pkg, depth);
    hide Eval, ReadIndex, Found;
    var a, b := Eval(w, e, vars, pkg, depth), Eval(w, k, vars, pkg, depth);
    if a.res.Ok? && b.res.Ok? { FoundIndex(a.res.value, b.res.value, place); }
  }

  lemma {:induction false} IndexReads(w: World, e: Expr, k: Expr, vars: Vars, pkg: string, depth: nat)
    requires depth <= MAX_DEPTH
    ensures var a, b := Eval(w, e, vars, pkg, depth), Eval(w, k, vars, pkg, depth);
            Eval(w, Index(e, k), vars, pkg, depth) ==
            if a.res.Err? then Failed(a)
            else if b.res.Err? then Failed(After(a, b))
            else Give(After(a, b), Ok(ReadIndex(a.res.value, b.res.value)))
  {
    hide ReadIndex, EvalAll, EvalEntries, EvalParts, EvalFilter, RunService, Display, ReadField, BinValue, CallValue, UnaryValue, StopsAtLeft, Truthy;
  }

  /** `z` is what stands in `x` under the key `y`, or at it if it is the number `place`; a number that is no place finds null. */
  ghost predicate Found(x: Value, y: Value, place: nat, z: Value) {
    && (x.Obj? && y.Str? ==> Holds(x, y.s, z))
    && (x.Arr? && y.Num? && y.n == place as real ==> z == if place < |x.items| then x.items[place] else Null)
    && (x.Arr? && y.Num? && (y.n < 0.0 || y.n.Floor as real < y.n) ==> z == Null)
    && (!(x.Obj? && y.Str?) && !(x.Arr? && y.Num?) ==> z == Null)
  }

  lemma {:induction false} FoundIndex(x: Value, y: Value, place: nat)
    ensures Found(x, y, place, ReadIndex(x, y))
  {
  }

  /** An empty bracket leaves the value as it is. */
  lemma {:induction false} ProjectionLaw(w: World, e: Expr, vars: Vars, pkg: string, depth: nat)
    requires depth <= MAX_DEPTH
    ensures Eval(w, Projection(e), vars, pkg, depth) == Eval(w, e, vars, pkg, depth)
  {
  }

  // ---------- several operands ----------

  /** What several evaluations emit together, in order. */
  ghost function Emits<T>(os: seq<Out<T>>): (es: seq<Emission>) {
    if os == [] then [] else os[0].emits + Emits(os[1..])
  }

  ghost function Hops<T>(os: seq<Out<T>>): (hs: seq<Hop>) {
    if os == [] then [] else os[0].hops + Hops(os[1..])
  }

  ghost predicate AllOk<T>(os: seq<Out<T>>) { forall i :: 0 <= i < |os| ==> os[i].res.Ok? }

  /** The first `k` evaluations succeed, and the next one fails. */
  ghost predicate FailsAt<T>(os: seq<Out<T>>, k: nat) { k < |os| && AllOk(os[..k]) && os[k].res.Err? }

  /** `o` is what comes of a failure at place `k`: that error, after all that was done until then. */
  ghost predicate Stopped<S, T>(os: seq<Out<S>>, k: nat, o: Out<T>)
    requires FailsAt(os, k)
  {
    o.res == Err(os[k].res.error) && o.emits == Emits(os[..k + 1]) && o.hops == Hops(os[..k + 1])
  }

  /** All succeed, and nothing else is done. */
  ghost predicate Together<S, T>(os: seq<Out<S>>, o: Out<T>) {
    o.res.Ok? && o.emits == Emits(os) && o.hops == Hops(os)
  }

  ghost function Outs(w: World, es: seq<Expr>, vars: Vars, pkg: string, depth: nat): (os: seq<Out<Value>>)
    requires depth <= MAX_DEPTH
  {
    seq(|es|, i requires 0 <= i < |es| => Eval(w, es[i], vars, pkg, depth))
  }

  lemma {:induction false} FirstOut<T>(os: seq<Out<T>>)
    requires os != []
    ensures Emits(os) == os[0].emits + Emits(os[1..]) && Hops(os) == os[0].hops + Hops(os[1..])
    ensures AllOk(os) <==> os[0].res.Ok? && AllOk(os[1..])
    ensures forall k: nat :: FailsAt(os, k) ==> k == 0 || (os[0].res.Ok? && FailsAt(os[1..], k - 1) && os[1..][..k] == os[..k + 1][1..])
  {
    assert forall i :: 1 <= i < |os| ==> os[i] == os[1..][i - 1];
    forall k: nat | FailsAt(os, k) && k > 0
      ensures os[0].res.Ok? && FailsAt(os[1..], k - 1) && os[1..][..k] == os[..k + 1][1..]
    {
      assert os[..k][0] == os[0];
      assert os[1..][..k - 1] == os[..k][1..];
      assert os[1..][..k] == os[..k + 1][1..];
    }
  }

  lemma {:induction false} OnlyOut<T>(o: Out<T>)
    ensures Emits([o]) == o.emits && Hops([o]) == o.hops
  {
    assert [o][1..] == [];
    assert o.emits + [] == o.emits && o.hops + [] == o.hops;
  }

  lemma {:induction false} StoppedFirst<S, T>(os: seq<Out<S>>, o: Out<T>)
    requires os != [] && os[0].res.Err? && o.res == Err(os[0].res.error) && o.emits == os[0].emits && o.hops == os[0].hops
    ensures FailsAt(os, 0) && Stopped(os, 0, o) && forall k: nat :: FailsAt(os, k) ==> k == 0
  {
    assert os[..1] == [os[0]];
    OnlyOut(os[0]);
    forall k: nat | k > 0 && k < |os| ensures !FailsAt(os, k) { assert os[..k][0] == os[0]; }
  }

  lemma {:induction false} StoppedLater<S, T>(os: seq<Out<S>>, k: nat, rest: Out<T>, o: Out<T>)
    requires FailsAt(os, k) && k > 0 && FailsAt(os[1..], k - 1) && Stopped(os[1..], k - 1, rest)
    requires o.res == rest.res && o.emits == os[0].emits + rest.emits && o.hops == os[0].hops + rest.hops
    ensures Stopped(os, k, o)
  {
    assert os[..k + 1][1..] == os[1..][..k];
    FirstOut(os[..k + 1]);
  }

  /** Expressions in a row: their values in order, or the first failure. */
  lemma {:induction false} AllLaw(w: World, es: seq<Expr>, vars: Vars, pkg: string, depth: nat)
    requires depth <= MAX_DEPTH
    ensures var os, o := Outs(w, es, vars, pkg, depth), EvalAll(w, es, vars, pkg, depth);
            && (AllOk(os) ==> Together(os, o) && |o.res.value| == |es| && forall i :: 0 <= i < |es| ==> o.res.value[i] == os[i].res.value)
            && (forall k: nat :: FailsAt(os, k) ==> Stopped(os, k, o))
    decreases |es|
  {
    var os, o := Outs(w, es, vars, pkg, depth), EvalAll(w, es, vars, pkg, depth);
    hide Eval;
    if es != [] {
      AllLaw(w, es[1..], vars, pkg, depth);
      assert Outs(w, es[1..], vars, pkg, depth) == os[1..];
      var v, rest := Eval(w, es[0], vars, pkg, depth), EvalAll(w, es[1..], vars, pkg, depth);
      assert os[0] == v;
      AllTurn(w, es, vars, pkg, depth);
      hide EvalAll, Stopped, Emits, Hops, AllOk, FailsAt;
      FirstOut(os);
      if v.res.Err? { StoppedFirst(os, o); } else {
        forall k: nat | FailsAt(os, k) ensures Stopped(os, k, o) {
          FailsLater(os, k);
          StoppedLater(os, k, rest, o);
        }
        if AllOk(os) { assert forall i :: 0 <= i < |es| - 1 ==> os[1..][i] == os[i + 1]; }
      }
    }
  }

  lemma {:induction false} FailsLater<T>(os: seq<Out<T>>, k: nat)
    requires FailsAt(os, k) && os[0].res.Ok?
    ensures k > 0 && FailsAt(os[1..], k - 1)
  {
    FirstOut(os);
  }

  lemma {:induction false} AllTurn(w: World, es: seq<Expr>, vars: Vars, pkg: string, depth: nat)
    requires depth <= MAX_DEPTH && es != []
    ensures var v, rest, o := Eval(w, es[0], vars, pkg, depth), EvalAll(w, es[1..], vars, pkg, depth), EvalAll(w, es, vars, pkg, depth);
            && (v.res.Err? ==> o.res == Err(v.res.error) && o.emits == v.emits && o.hops == v.hops)
            && (v.res.Ok? ==> o.emits == v.emits + rest.emits && o.hops == v.hops + rest.hops
                              && o.res == if rest.res.Err? then rest.res else Ok([v.res.value] + rest.res.value))
  {
    hide Eval;
  }

  // ---------- lists, documents, texts and calls ----------

  lemma {:induction false} ArrayLaw(w: World, es: seq<Expr>, vars: Vars, pkg: string, depth: nat)
    requires depth <= MAX_DEPTH
    ensures var os, o := Outs(w, es, vars, pkg, depth), Eval(w, Array(es), vars, pkg, depth);
            && (AllOk(os) ==>
                 && Together(os, o) && o.res.value.Arr? && |o.res.value.items| == |es|
                 && forall i :: 0 <= i < |es| ==> o.res.value.items[i] == os[i].res.value)
            && (forall k: nat :: FailsAt(os, k) ==> Stopped(os, k, o))
  {
    AllLaw(w, es, vars, pkg, depth);
    hide EvalAll, Outs, Emits, Hops, AllOk, FailsAt;
  }

  /** A call hands the values of its arguments, in order, to the builtin, or the reference to the secret store. */
  lemma {:induction false} CallLaw(w: World, name: string, es: seq<Expr>, vars: Vars, pkg: string, depth: nat)
    requires depth <= MAX_DEPTH
    ensures var os, o := Outs(w, es, vars, pkg, depth), Eval(w, Call(name, es), vars, pkg, depth);
            && (AllOk(os) ==>
                 && o.emits == Emits(os) && o.hops == Hops(os)
                 && (name != "secret" ==> o.res == w.prims.builtin(name, seq(|es|, i requires 0 <= i < |es| => os[i].res.value)))
                 && (name == "secret" && (es == [] || !os[0].res.value.Str?) ==> o.res == Err(SecretNeedsReference))
                 && (name == "secret" && es != [] && os[0].res.value.Str? ==>
                      var r := w.secrets(os[0].res.value.s);
                      o.res == if r.Ok? then Ok(Str(r.value)) else Err(r.error)))
            && (forall k: nat :: FailsAt(os, k) ==> Stopped(os, k, o))
  {
    var os, a := Outs(w, es, vars, pkg, depth), EvalAll(w, es, vars, pkg, depth);
    AllLaw(w, es, vars, pkg, depth);
    if AllOk(os) { assert a.res.value == seq(|es|, i requires 0 <= i < |es| => os[i].res.value); }
    hide EvalAll, Outs, Emits, Hops, AllOk, FailsAt;
  }

  ghost function EntryOuts(w: World, fs: seq<Entry>, vars: Vars, pkg: string, depth: nat): (os: seq<Out<Value>>)
    requires depth <= MAX_DEPTH
  {
    seq(|fs|, i requires 0 <= i < |fs| => Eval(w, fs[i].value, vars, pkg, depth))
  }

  /** No later entry has the key of entry `i`. */
  ghost predicate IsLast(fs: seq<Entry>, i: nat)
    requires i < |fs|
  {
    forall j :: i < j < |fs| ==> fs[j].key != fs[i].key
  }

  /** `m` has the keys of the entries, each with the value of the last entry of that key. */
  ghost predicate LastOfEach(fs: seq<Entry>, os: seq<Out<Value>>, m: Vars)
    requires |os| == |fs| && AllOk(os)
  {
    && (forall key :: key in m ==> exists i :: 0 <= i < |fs| && fs[i].key == key)
    && (forall i :: 0 <= i < |fs| && IsLast(fs, i) ==> fs[i].key in m && m[fs[i].key] == os[i].res.value)
  }

  /** Entries in a row: each key with its last value, or the first failure. */
  lemma {:induction false} EntriesLaw(w: World, fs: seq<Entry>, vars: Vars, pkg: string, depth: nat)
    requires depth <= MAX_DEPTH
    ensures var os, o := EntryOuts(w, fs, vars, pkg, depth), EvalEntries(w, fs, vars, pkg, depth);
            && (AllOk(os) ==> Together(os, o) && LastOfEach(fs, os, o.res.value))
            && (forall k: nat :: FailsAt(os, k) ==> Stopped(os, k, o))
    decreases |fs|
  {
    var os, o := EntryOuts(w, fs, vars, pkg, depth), EvalEntries(w, fs, vars, pkg, depth);
    hide Eval;
    if fs != [] {
      EntriesLaw(w, fs[1..], vars, pkg, depth);
      assert EntryOuts(w, fs[1..], vars, pkg, depth) == os[1..];
      var v, rest := Eval(w, fs[0].value, vars, pkg, depth), EvalEntries(w, fs[1..], vars, pkg, depth);
      assert os[0] == v;
      EntriesTurn(w, fs, vars, pkg, depth);
      hide EvalEntries, Stopped, Emits, Hops, AllOk, FailsAt, LastOfEach;
      FirstOut(os);
      if v.res.Err? { StoppedFirst(os, o); } else {
        forall k: nat | FailsAt(os, k) ensures Stopped(os, k, o) {
          FailsLater(os, k);
          StoppedLater(os, k, rest, o);
        }
        if AllOk(os) { LastWith(fs, os, rest.res.value); }
      }
    }
  }

  lemma {:induction false} EntriesTurn(w: World, fs: seq<Entry>, vars: Vars, pkg: string, depth: nat)
    requires depth <= MAX_DEPTH && fs != []
    ensures var v, rest, o := Eval(w, fs[0].value, vars, pkg, depth), EvalEntries(w, fs[1..], vars, pkg, depth), EvalEntries(w, fs, vars, pkg, depth);
            && (v.res.Err? ==> o.res == Err(v.res.error) && o.emits == v.emits && o.hops == v.hops)
            && (v.res.Ok? ==> o.emits == v.emits + rest.emits && o.hops == v.hops + rest.hops
                              && o.res == if rest.res.Err? then rest.res else Ok(map[fs[0].key := v.res.value] + rest.res.value))
  {
    hide Eval;
  }

  lemma {:induction false} LastWith(fs: seq<Entry>, os: seq<Out<Value>>, m: Vars)
    requires fs != [] && |os| == |fs| && AllOk(os) && AllOk(os[1..]) && LastOfEach(fs[1..], os[1..], m)
    ensures LastOfEach(fs, os, map[fs[0].key := os[0].res.value] + m)
  {
    var n := map[fs[0].key := os[0].res.value] + m;
    forall key | key in n ensures exists i :: 0 <= i < |fs| && fs[i].key == key {
      if key != fs[0].key { KeyThere(fs, os, m, key); }
    }
    forall i | 0 <= i < |fs| && IsLast(fs, i) ensures fs[i].key in n && n[fs[i].key] == os[i].res.value {
      hide IsLast;
      if i > 0 { LastLater(fs, os, m, i); } else { LastFirst(fs, os, m); }
    }
  }

  lemma {:induction false} KeyThere(fs: seq<Entry>, os: seq<Out<Value>>, m: Vars, key: string)
    requires fs != [] && |os| == |fs| && AllOk(os[1..]) && LastOfEach(fs[1..], os[1..], m) && key in m
    ensures exists i :: 1 <= i < |fs| && fs[i].key == key
  {
    var i :| 0 <= i < |fs[1..]| && fs[1..][i].key == key;
    assert fs[i + 1].key == key;
  }

  lemma {:induction false} LastLater(fs: seq<Entry>, os: seq<Out<Value>>, m: Vars, i: nat)
    requires fs != [] && |os| == |fs| && AllOk(os) && AllOk(os[1..]) && LastOfEach(fs[1..], os[1..], m) && 0 < i < |fs| && IsLast(fs, i)
    ensures fs[i].key in m && m[fs[i].key] == os[i].res.value
  {
    var gs := fs[1..];
    assert gs[i - 1] == fs[i] && os[1..][i - 1] == os[i];
    assert IsLast(gs, i - 1) by {
      forall j | i - 1 < j < |gs| ensures gs[j].key != gs[i - 1].key { assert gs[j] == fs[j + 1]; }
    }
  }

  lemma {:induction false} LastFirst(fs: seq<Entry>, os: seq<Out<Value>>, m: Vars)
    requires fs != [] && |os| == |fs| && AllOk(os) && AllOk(os[1..]) && LastOfEach(fs[1..], os[1..], m) && IsLast(fs, 0)
    ensures fs[0].key !in m
  {
    if fs[0].key in m { KeyThere(fs, os, m, fs[0].key); }
  }

  lemma {:induction false} DocLaw(w: World, fs: seq<Entry>, vars: Vars, pkg: string, depth: nat)
    requires depth <= MAX_DEPTH
    ensures var os, o := EntryOuts(w, fs, vars, pkg, depth), Eval(w, Doc(fs), vars, pkg, depth);
            && (AllOk(os) ==> Together(os, o) && o.res.value.Obj? && LastOfEach(fs, os, o.res.value.fields))
            && (forall k: nat :: FailsAt(os, k) ==> Stopped(os, k, o))
  {
    EntriesLaw(w, fs, vars, pkg, depth);
    hide EvalEntries, EntryOuts, Emits, Hops, AllOk, FailsAt, LastOfEach;
  }

  ghost function PartOuts(w: World, ps: seq<FPart>, vars: Vars, pkg: string, depth: nat): (os: seq<Out<Value>>)
    requires depth <= MAX_DEPTH
  {
    seq(|ps|, i requires 0 <= i < |ps| => if ps[i].Hole? then Eval(w, ps[i].e, vars, pkg, depth) else Out(Ok(Str(ps[i].s)), [], []))
  }

  /** The texts of all values after each other. */
  ghost function Texts(p: Prims, os: seq<Out<Value>>): (s: string)
    requires AllOk(os)
  {
    if os == [] then "" else Display(p, os[0].res.value) + Texts(p, os[1..])
  }

  lemma {:induction false} PartsLaw(w: World, ps: seq<FPart>, vars: Vars, pkg: string, depth: nat)
    requires depth <= MAX_DEPTH
    ensures var os, o := PartOuts(w, ps, vars, pkg, depth), EvalParts(w, ps, vars, pkg, depth);
            && (AllOk(os) ==> Together(os, o) && o.res.value == Texts(w.prims, os))
            && (forall k: nat :: FailsAt(os, k) ==> Stopped(os, k, o))
    decreases |ps|
  {
    var os, o := PartOuts(w, ps, vars, pkg, depth), EvalParts(w, ps, vars, pkg, depth);
    hide Eval;
    if ps != [] {
      PartsLaw(w, ps[1..], vars, pkg, depth);
      assert PartOuts(w, ps[1..], vars, pkg, depth) == os[1..];
      PartsTurn(w, ps, vars, pkg, depth, os[0]);
      var rest := EvalParts(w, ps[1..], vars, pkg, depth);
      hide EvalParts, Stopped, Emits, Hops, AllOk, FailsAt, Display;
      FirstOut(os);
      if os[0].res.Err? { StoppedFirst(os, o); } else {
        forall k: nat | FailsAt(os, k) ensures Stopped(os, k, o) {
          FailsLater(os, k);
          StoppedLater(os, k, rest, o);
        }
      }
    }
  }

  lemma {:induction false} PartsTurn(w: World, ps: seq<FPart>, vars: Vars, pkg: string, depth: nat, v: Out<Value>)
    requires depth <= MAX_DEPTH && ps != []
    requires v == if ps[0].Hole? then Eval(w, ps[0].e, vars, pkg, depth) else Out(Ok(Str(ps[0].s)), [], [])
    ensures var rest, o := EvalParts(w, ps[1..], vars, pkg, depth), EvalParts(w, ps, vars, pkg, depth);
            && (v.res.Err? ==> o.res == Err(v.res.error) && o.emits == v.emits && o.hops == v.hops)
            && (v.res.Ok? ==> o.emits == v.emits + rest.emits && o.hops == v.hops + rest.hops
                              && o.res == if rest.res.Err? then rest.res else Ok(Display(w.prims, v.res.value) + rest.res.value))
  {
    hide Eval, Display;
  }

  /** An f-string is the texts of its parts, in order. */
  lemma {:induction false} FStringLaw(w: World, ps: seq<FPart>, vars: Vars, pkg: string, depth: nat)
    requires depth <= MAX_DEPTH
    ensures var os, o := PartOuts(w, ps, vars, pkg, depth), Eval(w, FString(ps), vars, pkg, depth);
            && (AllOk(os) ==> Together(os, o) && o.res.value == Str(Texts(w.prims, os)))
            && (forall k: nat :: FailsAt(os, k) ==> Stopped(os, k, o))
  {
    PartsLaw(w, ps, vars, pkg, depth);
    hide EvalParts, PartOuts, Emits, Hops, AllOk, FailsAt, Texts;
  }

  // ---------- filters ----------

  /** What a filter's condition sees for an item: the fields of a document hide variables, anything else hides none. */
  ghost function Seen(vars: Vars, item: Value): (seen: Vars)
    ensures forall name :: name in seen <==> name in vars || (item.Obj? && name in item.fields)
    ensures forall name :: name in seen ==> seen[name] == if item.Obj? && name in item.fields then item.fields[name] else vars[name]
  {
    if item.Obj? then vars + item.fields else vars
  }

  ghost function Judged(w: World, cond: Expr, items: seq<Value>, vars: Vars, pkg: string, depth: nat): (os: seq<Out<Value>>)
    requires depth <= MAX_DEPTH
  {
    seq(|items|, i requires 0 <= i < |items| => Eval(w, cond, Seen(vars, items[i]), pkg, depth))
  }

  /** `kept` are the items at the places `at`, which are all those, in order, where the condition is true. */
  ghost predicate Picked(items: seq<Value>, os: seq<Out<Value>>, at: seq<nat>, kept: seq<Value>)
    requires |os| == |items| && AllOk(os)
  {
    && |at| == |kept| && (forall k :: 0 <= k < |at| ==> at[k] < |items| && kept[k] == items[at[k]])
    && (forall k, l :: 0 <= k < l < |at| ==> at[k] < at[l])
    && (forall i :: 0 <= i < |items| ==> (i in at <==> Truthy(os[i].res.value)))
  }

  lemma {:induction false} KeptLaw(w: World, cond: Expr, items: seq<Value>, vars: Vars, pkg: string, depth: nat) returns (at: seq<nat>)
    requires depth <= MAX_DEPTH
    ensures var os, o := Judged(w, cond, items, vars, pkg, depth), EvalFilter(w, cond, items, vars, pkg, depth);
            && (AllOk(os) ==> Together(os, o) && Picked(items, os, at, o.res.value))
            && (forall k: nat :: FailsAt(os, k) ==> Stopped(os, k, o))
    decreases |items|
  {
    at := [];
    var os, o := Judged(w, cond, items, vars, pkg, depth), EvalFilter(w, cond, items, vars, pkg, depth);
    hide Eval, Truthy;
    if items != [] {
      var later := KeptLaw(w, cond, items[1..], vars, pkg, depth);
      JudgedFirst(w, cond, items, vars, pkg, depth);
      FilterTurn(w, cond, items, vars, pkg, depth);
      var v, rest := os[0], EvalFilter(w, cond, items[1..], vars, pkg, depth);
      hide EvalFilter, Stopped, Emits, Hops, AllOk, FailsAt, Picked, Judged, Seen;
      FirstOut(os);
      if v.res.Err? { StoppedFirst(os, o); } else {
        forall k: nat | FailsAt(os, k) ensures Stopped(os, k, o) {
          FailsLater(os, k);
          StoppedLater(os, k, rest, o);
        }
        if AllOk(os) { at := PickFirst(items, os, later, rest.res.value); }
      }
    }
  }

  lemma {:induction false} JudgedFirst(w: World, cond: Expr, items: seq<Value>, vars: Vars, pkg: string, depth: nat)
    requires depth <= MAX_DEPTH && items != []
    ensures var os := Judged(w, cond, items, vars, pkg, depth);
            |os| == |items| && os[0] == Eval(w, cond, Seen(vars, items[0]), pkg, depth) && os[1..] == Judged(w, cond, items[1..], vars, pkg, depth)
  {
    hide Eval, Seen;
  }

  lemma {:induction false} FilterTurn(w: World, cond: Expr, items: seq<Value>, vars: Vars, pkg: string, depth: nat)
    requires depth <= MAX_DEPTH && items != []
    ensures var v := Eval(w, cond, Seen(vars, items[0]), pkg, depth);
            var rest, o := EvalFilter(w, cond, items[1..], vars, pkg, depth), EvalFilter(w, cond, items, vars, pkg, depth);
            && (v.res.Err? ==> o.res == Err(v.res.error) && o.emits == v.emits && o.hops == v.hops)
            && (v.res.Ok? ==> o.emits == v.emits + rest.emits && o.hops == v.hops + rest.hops
                              && o.res == if rest.res.Err? then rest.res
                                          else Ok((if Truthy(v.res.value) then [items[0]] else []) + rest.res.value))
  {
    hide Eval, Truthy;
    assert Bound(vars, items[0]) == Seen(vars, items[0]);
  }

  lemma {:induction false} PickFirst(items: seq<Value>, os: seq<Out<Value>>, later: seq<nat>, rest: seq<Value>) returns (at: seq<nat>)
    requires items != [] && |os| == |items| && AllOk(os) && AllOk(os[1..]) && Picked(items[1..], os[1..], later, rest)
    ensures Picked(items, os, at, (if Truthy(os[0].res.value) then [items[0]] else []) + rest)
  {
    hide Truthy;
    var b := Truthy(os[0].res.value);
    at := Places(b, later);
    forall i: nat | i < |items| ensures i in at <==> Truthy(os[i].res.value) {
      PlaceIn(b, later, i);
      if i > 0 { assert os[1..][i - 1] == os[i]; }
    }
  }

  /** The places `later` behind a first element, and that one if `here`. */
  ghost function Places(here: bool, later: seq<nat>): (at: seq<nat>) {
    (if here then [0] else []) + seq(|later|, k requires 0 <= k < |later| => later[k] + 1)
  }

  lemma {:induction false} PlaceIn(here: bool, later: seq<nat>, i: nat)
    ensures i in Places(here, later) <==> if i == 0 then here else i - 1 in later
  {
    var moved := seq(|later|, k requires 0 <= k < |later| => later[k] + 1);
    var h := if here then [0] else [];
    if i in moved {
      var k :| 0 <= k < |moved| && moved[k] == i;
      assert later[k] == i - 1;
    }
    if i > 0 && i - 1 in later {
      var k :| 0 <= k < |later| && later[k] == i - 1;
      assert moved[k] == i;
    }
    assert i in Places(here, later) <==> i in h || i in moved;
  }

  /** A filter keeps, in order, exactly the items for which its condition is true; of what is no list it keeps nothing. */
  lemma {:induction false} FilterLaw(w: World, e: Expr, cond: Expr, vars: Vars, pkg: string, depth: nat) returns (at: seq<nat>)
    requires depth <= MAX_DEPTH
    ensures var a, o := Eval(w, e, vars, pkg, depth), Eval(w, Filter(e, cond), vars, pkg, depth);
            && (a.res.Err? ==> o == a)
            && (a.res.Ok? && !a.res.value.Arr? ==> o == Out(Ok(Arr([])), a.emits, a.hops))
            && (a.res.Ok? && a.res.value.Arr? ==>
                 var items := a.res.value.items;
                 var os := Judged(w, cond, items, vars, pkg, depth);
                 && (AllOk(os) ==>
                      && o.res.Ok? && o.res.value.Arr? && Picked(items, os, at, o.res.value.items)
                      && o.emits == a.emits + Emits(os) && o.hops == a.hops + Hops(os))
                 && (forall k: nat :: FailsAt(os, k) ==>
                      && o.res == Err(os[k].res.error)
                      && o.emits == a.emits + Emits(os[..k + 1]) && o.hops == a.hops + Hops(os[..k + 1])))
  {
    at := [];
    FilterReads(w, e, cond, vars, pkg, depth);
    hide Eval, EvalFilter, Judged, Emits, Hops, AllOk, FailsAt, Picked;
    var a := Eval(w, e, vars, pkg, depth);
    if a.res.Ok? && a.res.value.Arr? { at := KeptLaw(w, cond, a.res.value.items, vars, pkg, depth); }
  }

  lemma {:induction false} FilterReads(w: World, e: Expr, cond: Expr, vars: Vars, pkg: string, depth: nat)
    requires depth <= MAX_DEPTH
    ensures var a, o := Eval(w, e, vars, pkg, depth), Eval(w, Filter(e, cond), vars, pkg, depth);
            && (a.res.Err? ==> o == a)
            && (a.res.Ok? && !a.res.value.Arr? ==> o == Out(Ok(Arr([])), a.emits, a.hops))
            && (a.res.Ok? && a.res.value.Arr? ==>
                 var k := EvalFilter(w, cond, a.res.value.items, vars, pkg, depth);
                 && o.emits == a.emits + k.emits && o.hops == a.hops + k.hops
                 && o.res == if k.res.Err? then Err(k.res.error) else Ok(Arr(k.res.value)))
  {
    hide EvalFilter;
  }
}
