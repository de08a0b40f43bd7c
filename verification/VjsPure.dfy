// A pure evaluator for VejasScript: the variable space is read, never written, inside an
// expression, and every service file is read and parsed again each time it is asked for.
// VjsEngine.dfy holds the interpreter of core/src/vjs.rs itself, with its mutable variable
// space and its caches, and proves that it computes exactly this.

module VjsPure {
  import opened Wrappers
  import opened VjsSyntax

  const MAX_DEPTH: nat := 32

  /**
   * What evaluating something comes to: its result, the emissions it added to the current
   * pipeline, and the service bodies that were started, both up to the point of failure.
   */
  datatype Out<+T> = Out(res: Result<T>, emits: seq<Emission>, hops: seq<Hop>)

  datatype Scope = Scope(vars: Vars, response: Option<(Value, Value)>)

  function Pure<T>(res: Result<T>): (o: Out<T>) { Out(res, [], []) }

  /** `o`, with what happened before it. */
  function After<S, T>(before: Out<S>, o: Out<T>): (r: Out<T>) {
    Out(o.res, before.emits + o.emits, before.hops + o.hops)
  }

  /** `res`, with what happened before it. */
  function Give<S, T>(before: Out<S>, res: Result<T>): (r: Out<T>) {
    Out(res, before.emits, before.hops)
  }

  function Failed<S, T>(o: Out<S>): (r: Out<T>)
    requires o.res.Err?
  {
    Out(Err(o.res.error), o.emits, o.hops)
  }

  // ---------- values ----------

  predicate Truthy(v: Value) {
    match v
    case Null => false
    case Bool(b) => b
    case Num(n) => n != 0.0
    case Str(s) => s != ""
    case Arr(items) => items != []
    case Obj(_) => true
  }

  function Display(p: Prims, v: Value): (s: string) {
    match v
    case Null => ""
    case Str(s) => s
    case _ => p.json(v)
  }

  function Get(m: Vars, k: string): (v: Value) {
    if k in m then m[k] else Null
  }

  function ReadField(b: Value, f: string, safe: bool): (r: Result<Value>) {
    match b
    case Obj(o) => Ok(Get(o, f))
    case Arr(items) =>
      Ok(Arr(seq(|items|, i requires 0 <= i < |items| =>
        if items[i].Obj? then Get(items[i].fields, f) else Null)))
    case Null => Ok(Null)
    case _ => if safe then Ok(Null) else Err(NoSuchField(f))
  }

  function ReadIndex(b: Value, k: Value): (v: Value) {
    match (b, k)
    case (Obj(o), Str(s)) => Get(o, s)
    case (Arr(a), Num(n)) => if n == n.Floor as real && 0 <= n.Floor < |a| then a[n.Floor] else Null
    case _ => Null
  }

  function UnaryValue(op: UnOp, v: Value): (r: Value) {
    match op
    case Not => Bool(!Truthy(v))
    case Neg => if v.Num? then Num(-v.n) else Null
  }

  predicate ShortCircuits(op: BinOp) { op.And? || op.Or? || op.Coalesce? }

  /** Does a short-circuit operator stop at its left operand? */
  predicate StopsAtLeft(op: BinOp, lv: Value)
    requires ShortCircuits(op)
  {
    match op
    case And => !Truthy(lv)
    case Or => Truthy(lv)
    case _ => !lv.Null?
  }

  function Compare(p: Prims, op: BinOp, l: Value, r: Value): (v: Value) {
    var (comparable, lt, gt) :=
      match (l, r)
      case (Num(a), Num(b)) => (true, a < b, b < a)
      case (Str(a), Str(b)) => (true, p.less(a, b), p.less(b, a))
      case _ => (false, false, false);
    if !comparable then Bool(false) else
    match op
    case Lt => Bool(lt)
    case Le => Bool(!gt)
    case Gt => Bool(gt)
    case _ => Bool(!lt)
  }

  function BinValue(p: Prims, op: BinOp, l: Value, r: Value): (v: Value)
    requires !ShortCircuits(op)
  {
    match op
    case Eq => Bool(l == r)
    case Ne => Bool(l != r)
    case In =>
      (match r
       case Arr(a) => Bool(l in a)
       case Str(s) => Bool(l.Str? && p.contains(s, l.s))
       case Obj(o) => Bool(l.Str? && l.s in o)
       case _ => Bool(false))
    case Add =>
      (match (l, r)
       case (Num(a), Num(b)) => Num(a + b)
       case (Arr(a), Arr(b)) => Arr(a + b)
       case _ => Str(Display(p, l) + Display(p, r)))
    case Sub => if l.Num? && r.Num? then Num(l.n - r.n) else Null
    case Mul => if l.Num? && r.Num? then Num(l.n * r.n) else Null
    case Div => if l.Num? && r.Num? && r.n != 0.0 then Num(l.n / r.n) else Null
    case _ => Compare(p, op, l, r)
  }

  /** `secret(...)` goes to the store, everything else to the builtins. */
  function CallValue(w: World, name: string, vals: seq<Value>): (r: Result<Value>) {
    if name == "secret" then
      if vals == [] || !vals[0].Str? then Err(SecretNeedsReference)
      else match w.secrets(vals[0].s)
           case Ok(text) => Ok(Str(text))
           case Err(e) => Err(e)
    else w.prims.builtin(name, vals)
  }

  predicate ValidSubject(p: Prims, s: string) {
    s != "" && forall i :: 0 <= i < |s| ==> !p.blank(s[i])
  }

  /** Assign below a document, turning what is not a document into an empty one. */
  function SetPath(root: Value, path: seq<string>, v: Value): (r: Value)
    requires path != []
    decreases |path|
  {
    var o := if root.Obj? then root.fields else map[];
    if |path| == 1 then Obj(o[path[0] := v])
    else
      var next := if path[0] in o then o[path[0]] else Obj(map[]);
      Obj(o[path[0] := SetPath(next, path[1..], v)])
  }

  function AssignTo(vars: Vars, path: seq<string>, v: Value): (r: Vars) {
    if path == [] then vars
    else if |path| == 1 then vars[path[0] := v]
    else
      var root := if path[0] in vars then vars[path[0]] else Obj(map[]);
      vars[path[0] := SetPath(root, path[1..], v)]
  }

  // ---------- services ----------

  predicate NameChar(c: char) {
    'a' <= c <= 'z' || 'A' <= c <= 'Z' || '0' <= c <= '9' || c == '_'
  }

  predicate ValidName(s: string) {
    s != "" && forall i :: 0 <= i < |s| ==> NameChar(s[i])
  }

  function Target(name: string, callerPkg: string): (t: (string, string)) {
    var k := ColonAt(name);
    if k < |name| then (name[..k], name[k + 1..]) else (callerPkg, name)
  }

  /** The strings of an EXPORTS list; anything else in it is skipped. */
  function Strings(vs: seq<Value>): (r: seq<string>) {
    if vs == [] then []
    else (if vs[0].Str? then [vs[0].s] else []) + Strings(vs[1..])
  }

  function ExportList(surface: seq<SurfaceEntry>): (r: seq<string>) {
    if surface == [] then []
    else if surface[0].name == "EXPORTS" then
      if surface[0].value.Arr? then Strings(surface[0].value.items) else []
    else ExportList(surface[1..])
  }

  /** What a package exports, read from its manifest. */
  function ExportsOf(w: World, pkg: string): (r: Result<seq<string>>) {
    if pkg !in w.manifests then Err(NoManifest(pkg))
    else match w.parse(w.manifests[pkg])
         case Ok(prog) => Ok(ExportList(prog.surface))
         case Err(e) => Err(BadManifest(pkg, e))
  }

  function Resolve(w: World, name: string, callerPkg: string): (r: Result<(string, string)>) {
    var (pkg, svc) := Target(name, callerPkg);
    if !ValidName(pkg) || !ValidName(svc) then Err(InvalidReference(name))
    else if pkg == callerPkg then Ok((pkg, svc))
    else match ExportsOf(w, pkg)
         case Err(e) => Err(e)
         case Ok(exports) =>
           if svc in exports then Ok((pkg, svc)) else Err(NotExported(pkg, svc))
  }

  function Load(w: World, pkg: string, svc: string): (r: Result<Program>) {
    if (pkg, svc) !in w.services then Err(UnknownService(pkg, svc))
    else match w.parse(w.services[(pkg, svc)])
         case Ok(prog) => Ok(prog)
         case Err(e) => Err(BadService(pkg, svc, e))
  }

  // ---------- evaluation ----------

  /** The variables a filter's condition sees: a document's fields hide the pipeline's. */
  function Bound(vars: Vars, item: Value): (r: Vars) {
    if item.Obj? then vars + item.fields else vars
  }

  function Eval(w: World, e: Expr, vars: Vars, pkg: string, depth: nat): (o: Out<Value>)
    requires depth <= MAX_DEPTH
    decreases MAX_DEPTH - depth, 1, e, 0
  {
    match e
    case Lit(v) => Pure(Ok(v))
    case Var(name) => Pure(Ok(Get(vars, name)))
    case FString(parts) =>
      var s := EvalParts(w, parts, vars, pkg, depth);
      if s.res.Err? then Failed(s) else Give(s, Ok(Str(s.res.value)))
    case Doc(fields) =>
      var m := EvalEntries(w, fields, vars, pkg, depth);
      if m.res.Err? then Failed(m) else Give(m, Ok(Obj(m.res.value)))
    case Array(elems) =>
      var a := EvalAll(w, elems, vars, pkg, depth);
      if a.res.Err? then Failed(a) else Give(a, Ok(Arr(a.res.value)))
    case Invoke(service, given) =>
      var m := EvalEntries(w, given, vars, pkg, depth);
      if m.res.Err? then Failed(m)
      else After(m, RunService(w, service, m.res.value, pkg, depth))
    case Field(base, name, safe) =>
      var b := Eval(w, base, vars, pkg, depth);
      if b.res.Err? then b else Give(b, ReadField(b.res.value, name, safe))
    case Index(base, key) =>
      var b := Eval(w, base, vars, pkg, depth);
      if b.res.Err? then b else
      var k := Eval(w, key, vars, pkg, depth);
      if k.res.Err? then After(b, k)
      else After(b, Give(k, Ok(ReadIndex(b.res.value, k.res.value))))
    case Projection(base) => Eval(w, base, vars, pkg, depth)
    case Filter(base, cond) =>
      var b := Eval(w, base, vars, pkg, depth);
      if b.res.Err? then b
      else if !b.res.value.Arr? then Give(b, Ok(Arr([])))
      else
        var kept := EvalFilter(w, cond, b.res.value.items, vars, pkg, depth);
        if kept.res.Err? then After(b, Failed(kept))
        else After(b, Give(kept, Ok(Arr(kept.res.value))))
    case Call(name, args) =>
      var a := EvalAll(w, args, vars, pkg, depth);
      if a.res.Err? then Failed(a) else Give(a, CallValue(w, name, a.res.value))
    case Unary(op, arg) =>
      var v := Eval(w, arg, vars, pkg, depth);
      if v.res.Err? then v else Give(v, Ok(UnaryValue(op, v.res.value)))
    case Bin(op, l, r) =>
      var lo := Eval(w, l, vars, pkg, depth);
      if lo.res.Err? then lo
      else if ShortCircuits(op) && StopsAtLeft(op, lo.res.value) then lo
      else
        var ro := Eval(w, r, vars, pkg, depth);
        if ro.res.Err? || ShortCircuits(op) then After(lo, ro)
        else After(lo, Give(ro, Ok(BinValue(w.prims, op, lo.res.value, ro.res.value))))
  }

  function EvalAll(w: World, es: seq<Expr>, vars: Vars, pkg: string, depth: nat)
    : (o: Out<seq<Value>>)
    requires depth <= MAX_DEPTH
    decreases MAX_DEPTH - depth, 1, es, 0
  {
    if es == [] then Pure(Ok([]))
    else
      var v := Eval(w, es[0], vars, pkg, depth);
      if v.res.Err? then Failed(v) else
      var vs := EvalAll(w, es[1..], vars, pkg, depth);
      if vs.res.Err? then After(v, vs)
      else After(v, Give(vs, Ok([v.res.value] + vs.res.value)))
  }

  function EvalEntries(w: World, fs: seq<Entry>, vars: Vars, pkg: string, depth: nat)
    : (o: Out<Vars>)
    requires depth <= MAX_DEPTH
    decreases MAX_DEPTH - depth, 1, fs, 0
  {
    if fs == [] then Pure(Ok(map[]))
    else
      var v := Eval(w, fs[0].value, vars, pkg, depth);
      if v.res.Err? then Failed(v) else
      var m := EvalEntries(w, fs[1..], vars, pkg, depth);
      if m.res.Err? then After(v, m)
      else After(v, Give(m, Ok(map[fs[0].key := v.res.value] + m.res.value)))
  }

  function EvalParts(w: World, ps: seq<FPart>, vars: Vars, pkg: string, depth: nat)
    : (o: Out<string>)
    requires depth <= MAX_DEPTH
    decreases MAX_DEPTH - depth, 1, ps, 0
  {
    if ps == [] then Pure(Ok(""))
    else
      var v := if ps[0].Hole? then assert ps[0].e < ps[0]; Eval(w, ps[0].e, vars, pkg, depth)
               else Pure(Ok(Str(ps[0].s)));
      if v.res.Err? then Failed(v) else
      var s := EvalParts(w, ps[1..], vars, pkg, depth);
      if s.res.Err? then After(v, s)
      else After(v, Give(s, Ok(Display(w.prims, v.res.value) + s.res.value)))
  }

  /** The items whose own fields, laid over the variables, make the condition true. */
  function EvalFilter(w: World, cond: Expr, items: seq<Value>, vars: Vars, pkg: string, depth: nat)
    : (o: Out<seq<Value>>)
    requires depth <= MAX_DEPTH
    decreases MAX_DEPTH - depth, 1, cond, 1 + |items|
  {
    if items == [] then Pure(Ok([]))
    else
      var c := Eval(w, cond, Bound(vars, items[0]), pkg, depth);
      if c.res.Err? then Failed(c) else
      var rest := EvalFilter(w, cond, items[1..], vars, pkg, depth);
      if rest.res.Err? then After(c, rest)
      else
        var here := if Truthy(c.res.value) then [items[0]] else [];
        After(c, Give(rest, Ok(here + rest.res.value)))
  }

  /** A service starts with exactly its arguments and gives back its whole final pipeline. */
  function RunService(w: World, name: string, args: Vars, pkg: string, depth: nat)
    : (o: Out<Value>)
    requires depth <= MAX_DEPTH
    decreases MAX_DEPTH - depth, 0
  {
    if depth >= MAX_DEPTH then Pure(Err(DepthExceeded(name))) else
    match Resolve(w, name, pkg)
    case Err(e) => Pure(Err(e))
    case Ok((target, svc)) =>
      match Load(w, target, svc)
      case Err(e) => Pure(Err(e))
      case Ok(prog) =>
        var start := Scope(args["event" := Obj(args)], None);
        var o := Exec(w, prog.stmts, start, target, depth + 1);
        var hops := [Hop(pkg, target, svc, depth + 1)] + o.hops;
        if o.res.Err? then Out(Err(o.res.error), [], hops)
        else Out(Ok(Obj(o.res.value.vars - {"event"})), o.emits, hops)
  }

  function Exec(w: World, stmts: seq<Stmt>, st: Scope, pkg: string, depth: nat): (o: Out<Scope>)
    requires depth <= MAX_DEPTH
    decreases MAX_DEPTH - depth, 1, stmts, 0
  {
    if stmts == [] then Pure(Ok(st))
    else
      var o := ExecStmt(w, stmts[0], st, pkg, depth);
      if o.res.Err? then o
      else After(o, Exec(w, stmts[1..], o.res.value, pkg, depth))
  }

  function ExecStmt(w: World, s: Stmt, st: Scope, pkg: string, depth: nat): (o: Out<Scope>)
    requires depth <= MAX_DEPTH
    decreases MAX_DEPTH - depth, 1, s, 0
  {
    match s
    case Assign(path, e) =>
      var v := Eval(w, e, st.vars, pkg, depth);
      if v.res.Err? then Failed(v)
      else Give(v, Ok(st.(vars := AssignTo(st.vars, path, v.res.value))))
    case InvokeMerge(service, given) =>
      var m := EvalEntries(w, given, st.vars, pkg, depth);
      if m.res.Err? then Failed(m) else
      var r := RunService(w, service, m.res.value, pkg, depth);
      if r.res.Err? then After(m, Failed(r))
      else
        var merged := if r.res.value.Obj? then st.vars + r.res.value.fields else st.vars;
        After(m, Give(r, Ok(st.(vars := merged))))
    case If(arms, otherwise) => ExecArms(w, s, 0, st, pkg, depth)
    case For(name, iter, body) =>
      var v := Eval(w, iter, st.vars, pkg, depth);
      if v.res.Err? then Failed(v)
      else if !v.res.value.Arr? then Give(v, Ok(st))
      else After(v, ExecFor(w, name, v.res.value.items, body, st, pkg, depth))
    case Emit(subject, payload) =>
      var v := Eval(w, subject, st.vars, pkg, depth);
      if v.res.Err? then Failed(v)
      else if !v.res.value.Str? then Give(v, Err(SubjectNotString))
      else if !ValidSubject(w.prims, v.res.value.s) then
        Give(v, Err(InvalidSubject(v.res.value.s)))
      else
        var p := Eval(w, payload, st.vars, pkg, depth);
        if p.res.Err? then After(v, Failed(p))
        else After(v, Out(Ok(st), p.emits + [Emission(v.res.value.s, p.res.value)], p.hops))
    case Respond(status, answer) =>
      var a := Eval(w, status, st.vars, pkg, depth);
      if a.res.Err? then Failed(a) else
      var b := Eval(w, answer, st.vars, pkg, depth);
      if b.res.Err? then After(a, Failed(b))
      else After(a, Give(b, Ok(st.(response := Some((a.res.value, b.res.value))))))
  }

  /** The arms of `s` from the `k`th on: the first whose guard is truthy runs. */
  function ExecArms(w: World, s: Stmt, k: nat, st: Scope, pkg: string, depth: nat): (o: Out<Scope>)
    requires depth <= MAX_DEPTH && s.If? && k <= |s.arms|
    decreases MAX_DEPTH - depth, 1, s, 0, |s.arms| - k
  {
    if k == |s.arms| then
      if s.otherwise.NoElse? then Pure(Ok(st)) else Exec(w, s.otherwise.block, st, pkg, depth)
    else
      var c := Eval(w, s.arms[k].guard, st.vars, pkg, depth);
      if c.res.Err? then Failed(c)
      else if Truthy(c.res.value) then After(c, Exec(w, s.arms[k].body, st, pkg, depth))
      else After(c, ExecArms(w, s, k + 1, st, pkg, depth))
  }

  function ExecFor(w: World, name: string, items: seq<Value>, body: seq<Stmt>, st: Scope,
                   pkg: string, depth: nat): (o: Out<Scope>)
    requires depth <= MAX_DEPTH
    decreases MAX_DEPTH - depth, 1, body, 1 + |items|
  {
    if items == [] then Pure(Ok(st))
    else
      var o := Exec(w, body, st.(vars := st.vars[name := items[0]]), pkg, depth);
      if o.res.Err? then o
      else After(o, ExecFor(w, name, items[1..], body, o.res.value, pkg, depth))
  }

  /** The variables an event starts with. */
  function Pipeline(event: Value): (vars: Vars) {
    (if event.Obj? then event.fields else map[])["event" := event]
  }

  function Run(w: World, prog: Program, event: Value, pkg: string): (o: Out<Scope>) {
    Exec(w, prog.stmts, Scope(Pipeline(event), None), pkg, 0)
  }
}
