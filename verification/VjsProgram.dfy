// Statements and whole programs of VejasScript (core/src/vjs.rs): blocks, the literals of the
// business surface, and the top level, with the tokens each surface literal spans.

module VjsProgram {
  import opened Wrappers
  import opened VjsSyntax
  import opened VjsParser

  // ---------- statements ----------

  function AtEnd(ts: Toks, i: nat): (b: bool) { i + 1 >= |ts| }

  function ParseStmt(ts: Toks, i: nat): (r: Parsed<Stmt>)
    requires i <= |ts|
    ensures r.Yes? ==> i < r.next <= |ts|
    decreases |ts| - i, 2
  {
    match Peek(ts, i)
    case TEmit =>
      (match ParsePair(ts, i + 1) case No => No case Yes((a, b), j) => Yes(Emit(a, b), j))
    case TRespond =>
      (match ParsePair(ts, i + 1) case No => No case Yes((a, b), j) => Yes(Respond(a, b), j))
    case TInvoke =>
      (match ParseInvoke(ts, i + 1) case No => No case Yes((name, args), j) => Yes(InvokeMerge(name, args), j))
    case TIf =>
      (match ParseArm(ts, i + 1) case No => No case Yes(arm, j) => ParseArms(ts, j, [arm], NoElse))
    case TFor => ParseFor(ts, i + 1)
    case TIdent(first) =>
      (match ParsePath(ts, i + 1, [first])
       case No => No
       case Yes(path, j) =>
         if Peek(ts, j) != TEq then No
         else if Peek(ts, j + 1) == TInvoke then
           (match ParseInvoke(ts, j + 2) case No => No case Yes((name, args), k) => Yes(Assign(path, Invoke(name, args)), k))
         else
           (match ParseExpr(ts, j + 1, 0) case No => No case Yes(e, k) => Yes(Assign(path, e), k)))
    case _ => No
  }

  /** `expr, expr`. */
  function ParsePair(ts: Toks, i: nat): (r: Parsed<(Expr, Expr)>)
    requires i <= |ts|
    ensures r.Yes? ==> i < r.next <= |ts|
  {
    match ParseExpr(ts, i, 0)
    case No => No
    case Yes(a, j) =>
      if Peek(ts, j) != TComma then No
      else match ParseExpr(ts, j + 1, 0)
           case No => No
           case Yes(b, k) => Yes((a, b), k)
  }

  function ParsePath(ts: Toks, i: nat, path: seq<string>): (r: Parsed<seq<string>>)
    requires i <= |ts|
    ensures r.Yes? ==> i <= r.next <= |ts|
    decreases |ts| - i
  {
    if Peek(ts, i) != TDot then Yes(path, i)
    else
      var w := WordOf(Peek(ts, i + 1));
      if w.None? then No else ParsePath(ts, i + 2, path + [w.value])
  }

  /** `expr: block`. */
  function ParseArm(ts: Toks, i: nat): (r: Parsed<Arm>)
    requires i <= |ts|
    ensures r.Yes? ==> i < r.next <= |ts|
    decreases |ts| - i, 1
  {
    match ParseExpr(ts, i, 0)
    case No => No
    case Yes(c, j) =>
      if Peek(ts, j) != TColon then No
      else match ParseBlock(ts, j + 1)
           case No => No
           case Yes(b, k) => Yes(Arm(c, b), k)
  }

  /** After an arm: more arms, an else, or the end. */
  function ParseArms(ts: Toks, i: nat, arms: seq<Arm>, otherwise: Else): (r: Parsed<Stmt>)
    requires i <= |ts|
    ensures r.Yes? ==> i < r.next <= |ts|
    decreases |ts| - i, 1
  {
    match Peek(ts, i)
    case TElif =>
      (match ParseArm(ts, i + 1) case No => No case Yes(arm, j) => ParseArms(ts, j, arms + [arm], otherwise))
    case TElse =>
      if Peek(ts, i + 1) != TColon then No
      else (match ParseBlock(ts, i + 2) case No => No case Yes(b, j) => ParseArms(ts, j, arms, Else(b)))
    case TEnd => Yes(If(arms, otherwise), i + 1)
    case _ => No
  }

  function ParseFor(ts: Toks, i: nat): (r: Parsed<Stmt>)
    requires i <= |ts|
    ensures r.Yes? ==> i < r.next <= |ts|
    decreases |ts| - i, 1
  {
    if !Peek(ts, i).TIdent? || Peek(ts, i + 1) != TIn then No
    else match ParseExpr(ts, i + 2, 0)
         case No => No
         case Yes(it, j) =>
           if Peek(ts, j) != TColon then No
           else match ParseBlock(ts, j + 1)
                case No => No
                case Yes(b, k) => if Peek(ts, k) == TEnd then Yes(For(ts[i].s, it, b), k + 1) else No
  }

  function ParseBlock(ts: Toks, i: nat): (r: Parsed<seq<Stmt>>)
    requires i <= |ts|
    ensures r.Yes? ==> i <= r.next <= |ts|
    decreases |ts| - i, 3
  {
    var k := SkipNewlines(ts, i);
    var t := Peek(ts, k);
    if t.TEnd? || t.TElif? || t.TElse? then Yes([], k)
    else if AtEnd(ts, k) then No
    else match ParseStmt(ts, k)
         case No => No
         case Yes(s, j) =>
           match ParseBlock(ts, j)
           case No => No
           case Yes(ss, m) => Yes([s] + ss, m)
  }

  // ---------- literals ----------

  /** A pure literal, or the token at which it stops being one. */
  datatype Literal<+T> = LYes(value: T, next: nat) | LNo(at: nat)

  /** An entry of a document literal, its value between the tokens `from` and `to`. */
  datatype LField = LField(key: string, value: Value, from: nat, to: nat)

  /** A later entry of the same key wins. */
  function MapOf(fs: seq<LField>): (m: Vars) {
    if fs == [] then map[] else map[fs[0].key := fs[0].value] + MapOf(fs[1..])
  }

  lemma {:induction false} MapOfExtended(fs: seq<LField>, f: LField)
    ensures MapOf(fs + [f]) == MapOf(fs)[f.key := f.value]
  {
    if fs == [] {
      assert fs + [f] == [f];
    } else {
      assert (fs + [f])[1..] == fs[1..] + [f];
      MapOfExtended(fs[1..], f);
    }
  }

  function LiteralAt(ts: Toks, i: nat): (r: Literal<Value>)
    requires i <= |ts|
    ensures r.LYes? ==> i < r.next <= |ts|
    ensures r.LNo? ==> i <= r.at <= |ts|
    decreases |ts| - i, 1
  {
    if i == |ts| then LNo(i) else
    match ts[i]
    case TStr(s) => LYes(Str(s), i + 1)
    case TNum(n) => LYes(Num(n), i + 1)
    case TTrue => LYes(Bool(true), i + 1)
    case TFalse => LYes(Bool(false), i + 1)
    case TNull => LYes(Null, i + 1)
    case TMinus => if Peek(ts, i + 1).TNum? then LYes(Num(0.0 - ts[i + 1].n), i + 2) else LNo(i + 1)
    case TLBrack =>
      (match LiteralItems(ts, SkipNewlines(ts, i + 1)) case LNo(at) => LNo(at) case LYes(vs, j) => LYes(Arr(vs), j))
    case TLBrace =>
      (match LiteralFields(ts, SkipNewlines(ts, i + 1)) case LNo(at) => LNo(at) case LYes(fs, j) => LYes(Obj(MapOf(fs)), j))
    case _ => LNo(i)
  }

  function LiteralItems(ts: Toks, i: nat): (r: Literal<seq<Value>>)
    requires i <= |ts|
    ensures r.LYes? ==> i < r.next <= |ts|
    ensures r.LNo? ==> i <= r.at <= |ts|
    decreases |ts| - i, 2
  {
    if Peek(ts, i) == TRBrack then LYes([], i + 1)
    else match LiteralAt(ts, i)
         case LNo(at) => LNo(at)
         case LYes(v, j) =>
           match LiteralItems(ts, AfterItem(ts, j))
           case LNo(at) => LNo(at)
           case LYes(vs, k) => LYes([v] + vs, k)
  }

  function LiteralFields(ts: Toks, i: nat): (r: Literal<seq<LField>>)
    requires i <= |ts|
    ensures r.LYes? ==> i < r.next <= |ts|
    ensures r.LNo? ==> i <= r.at <= |ts|
    decreases |ts| - i, 2
  {
    if Peek(ts, i) == TRBrace then LYes([], i + 1)
    else if WordOf(Peek(ts, i)).None? then LNo(i)
    else if Peek(ts, i + 1) != TColon then LNo(i + 1)
    else match LiteralAt(ts, i + 2)
         case LNo(at) => LNo(at)
         case LYes(v, j) =>
           match LiteralFields(ts, AfterItem(ts, j))
           case LNo(at) => LNo(at)
           case LYes(fs, k) => LYes([LField(WordOf(Peek(ts, i)).value, v, i + 2, j)] + fs, k)
  }

  /** The entries of a literal that starts at `from`, if it is a document. */
  function FieldsAt(ts: Toks, from: nat): (fs: seq<LField>) {
    if Peek(ts, from) != TLBrace then []
    else
      var r := LiteralFields(ts, SkipNewlines(ts, from + 1));
      if r.LYes? then r.value else []
  }

  // ---------- the top level ----------

  /** A top-level line: a directive, a surface constant with its span in tokens, or a statement. */
  datatype Item =
    | Directive(kind: Tok, text: string)
    | Const(name: string, value: Value, from: nat, to: nat)
    | Line(stmt: Stmt)

  predicate Upper(c: char) { 'A' <= c <= 'Z' }

  /** A name of the business surface: upper case, with at least one letter. */
  predicate SurfaceName(s: string) {
    && (forall i :: 0 <= i < |s| ==> Upper(s[i]) || s[i] == '_' || '0' <= s[i] <= '9')
    && (exists i :: 0 <= i < |s| && Upper(s[i]))
  }

  predicate IsDirective(t: Tok) { t.TSource? || t.TTool? || t.TDriver? || t.TApi? }

  /** Does a surface constant start here: `NAME = literal` up to the end of the line? */
  predicate StartsConst(ts: Toks, i: nat)
    requires i <= |ts|
  {
    && Peek(ts, i).TIdent? && SurfaceName(ts[i].s) && Peek(ts, i + 1) == TEq
    && LiteralAt(ts, i + 2).LYes? && Peek(ts, LiteralAt(ts, i + 2).next) == TNewline
  }

  function ParseItem(ts: Toks, i: nat): (r: Parsed<Item>)
    requires i <= |ts|
    ensures r.Yes? ==> i < r.next <= |ts|
  {
    if IsDirective(Peek(ts, i)) then
      if Peek(ts, i + 1).TStr? then Yes(Directive(ts[i], ts[i + 1].s), i + 2) else No
    else if StartsConst(ts, i) then
      var lit := LiteralAt(ts, i + 2);
      Yes(Const(ts[i].s, lit.value, i + 2, lit.next), lit.next)
    else match ParseStmt(ts, i)
         case No => No
         case Yes(s, j) => Yes(Line(s), j)
  }

  function ParseItems'(ts: Toks, i: nat): (r: Option<seq<Item>>)
    requires i <= |ts|
    decreases |ts| - i
  {
    var k := SkipNewlines(ts, i);
    if AtEnd(ts, k) then Some([])
    else match ParseItem(ts, k)
         case No => None
         case Yes(it, j) =>
           match ParseItems'(ts, j)
           case None => None
           case Some(rest) => Some([it] + rest)
  }

  /** What a line does: a constant is an assignment of its literal. */
  function StmtOf(it: Item): (ss: seq<Stmt>) {
    match it
    case Directive(_, _) => []
    case Const(name, v, _, _) => [Assign([name], Lit(v))]
    case Line(s) => [s]
  }

  function StmtsOf(items: seq<Item>): (ss: seq<Stmt>) {
    if items == [] then [] else StmtOf(items[0]) + StmtsOf(items[1..])
  }

  function EntryOf(it: Item): (es: seq<SurfaceEntry>) { if it.Const? then [SurfaceEntry(it.name, it.value)] else [] }

  function SurfaceOf(items: seq<Item>): (es: seq<SurfaceEntry>) {
    if items == [] then [] else EntryOf(items[0]) + SurfaceOf(items[1..])
  }

  function ParseProgram(ts: Toks): (r: Result<Program>) {
    match ParseItems'(ts, 0)
    case None => Err(Syntax)
    case Some(items) => Ok(Program(StmtsOf(items), SurfaceOf(items)))
  }
}
