// The VejasScript parser of core/src/vjs.rs over tokens: a Pratt parser for expressions, with
// postfix and bracket forms, and the statements around it. The functions say what is parsed
// from a position; the class runs the same loops on a moving index.

module VjsParser {
  import opened Wrappers
  import opened VjsSyntax

  /** A number as it is written: no sign. */
  type Amount = r: real | r >= 0.0

  datatype TPart = TLit(s: string) | THole(toks: seq<Tok>)

  datatype Tok =
    | TIdent(s: string) | TStr(s: string) | TFStr(parts: seq<TPart>) | TNum(n: Amount)
    | TTrue | TFalse | TNull
    | TIf | TElif | TElse | TEnd | TFor | TIn | TAnd | TOr | TNot
    | TEmit | TInvoke | TSource | TTool | TDriver | TApi | TRespond
    | TNewline | TColon | TComma | TDot | TQDot | TQQ
    | TLBrace | TRBrace | TLBrack | TRBrack | TLParen | TRParen
    | TEq | TEqEq | TNe | TLt | TLe | TGt | TGe | TPlus | TMinus | TStar | TSlash

  type Toks = seq<Tok>

  /** What was parsed, and the position after it. */
  datatype Parsed<+T> = Yes(value: T, next: nat) | No

  function Peek(ts: Toks, i: nat): (t: Tok) { if i < |ts| then ts[i] else TNewline }

  function SkipNewlines(ts: Toks, i: nat): (j: nat)
    requires i <= |ts|
    ensures i <= j <= |ts|
    decreases |ts| - i
  {
    if i < |ts| && ts[i] == TNewline then SkipNewlines(ts, i + 1) else i
  }

  /** A name in key position, where keywords are allowed. */
  function WordOf(t: Tok): (w: Option<string>) {
    match t
    case TIdent(s) => Some(s)
    case TStr(s) => Some(s)
    case TIf => Some("if") case TElif => Some("elif") case TElse => Some("else") case TEnd => Some("end")
    case TFor => Some("for") case TIn => Some("in") case TAnd => Some("and") case TOr => Some("or")
    case TNot => Some("not") case TEmit => Some("emit") case TInvoke => Some("invoke")
    case TSource => Some("source") case TTool => Some("tool") case TDriver => Some("driver")
    case TApi => Some("api") case TRespond => Some("respond")
    case TTrue => Some("true") case TFalse => Some("false") case TNull => Some("null")
    case _ => None
  }

  /** A binary operator and its binding power. */
  function OpOf(t: Tok): (r: Option<(BinOp, nat)>) {
    match t
    case TOr => Some((Or, 1))
    case TAnd => Some((And, 2))
    case TQQ => Some((Coalesce, 3))
    case TEqEq => Some((Eq, 4)) case TNe => Some((Ne, 4)) case TLt => Some((Lt, 4)) case TLe => Some((Le, 4))
    case TGt => Some((Gt, 4)) case TGe => Some((Ge, 4)) case TIn => Some((In, 4))
    case TPlus => Some((Add, 5)) case TMinus => Some((Sub, 5))
    case TStar => Some((Mul, 6)) case TSlash => Some((Div, 6))
    case _ => None
  }

  const UNARY_POWER: nat := 9

  /** What a bracket holds decides what it is: a condition makes it a filter. */
  predicate IsCondition(e: Expr) {
    match e
    case Bin(op, _, _) => op.Eq? || op.Ne? || op.Lt? || op.Le? || op.Gt? || op.Ge? || op.In? || op.And? || op.Or?
    case Unary(op, _) => op.Not?
    case _ => false
  }

  function Bracketed(base: Expr, inner: Expr): (e: Expr) {
    if IsCondition(inner) then Filter(base, inner) else Index(base, inner)
  }

  // ---------- expressions ----------

  function ParseExpr(ts: Toks, i: nat, bp: nat): (r: Parsed<Expr>)
    requires i <= |ts|
    ensures r.Yes? ==> i < r.next <= |ts|
    decreases ts, |ts| - i, 2
  {
    match ParsePrefix(ts, i)
    case No => No
    case Yes(lhs, j) =>
      match ParsePostfix(ts, j, lhs)
      case No => No
      case Yes(lhs', k) => ParseBinary(ts, k, lhs', bp)
  }

  function ParsePrefix(ts: Toks, i: nat): (r: Parsed<Expr>)
    requires i <= |ts|
    ensures r.Yes? ==> i < r.next <= |ts|
    decreases ts, |ts| - i, 1
  {
    if i == |ts| then No else
    match ts[i]
    case TNum(n) => Yes(Lit(Num(n)), i + 1)
    case TStr(s) => Yes(Lit(Str(s)), i + 1)
    case TTrue => Yes(Lit(Bool(true)), i + 1)
    case TFalse => Yes(Lit(Bool(false)), i + 1)
    case TNull => Yes(Lit(Null), i + 1)
    case TFStr(parts) =>
      (match ParseParts(parts) case None => No case Some(ps) => Yes(FString(ps), i + 1))
    case TNot =>
      (match ParseExpr(ts, i + 1, UNARY_POWER) case No => No case Yes(e, j) => Yes(Unary(Not, e), j))
    case TMinus =>
      (match ParseExpr(ts, i + 1, UNARY_POWER) case No => No case Yes(e, j) => Yes(Unary(Neg, e), j))
    case TSource => Yes(Var("source"), i + 1)
    case TTool => Yes(Var("tool"), i + 1)
    case TDriver => Yes(Var("driver"), i + 1)
    case TApi => Yes(Var("api"), i + 1)
    case TInvoke =>
      (match ParseInvoke(ts, i + 1) case No => No case Yes((name, args), j) => Yes(Invoke(name, args), j))
    case TLParen =>
      (match ParseExpr(ts, i + 1, 0)
       case No => No
       case Yes(e, j) => if Peek(ts, j) == TRParen then Yes(e, j + 1) else No)
    case TLBrack =>
      (match ParseItems(ts, SkipNewlines(ts, i + 1)) case No => No case Yes(es, j) => Yes(Array(es), j))
    case TLBrace =>
      (match ParseFields(ts, SkipNewlines(ts, i + 1)) case No => No case Yes(fs, j) => Yes(Doc(fs), j))
    case TIdent(name) =>
      if Peek(ts, i + 1) == TLParen then
        (match ParseArgs(ts, i + 2) case No => No case Yes(es, j) => Yes(Call(name, es), j))
      else Yes(Var(name), i + 1)
    case _ => No
  }

  function ParsePostfix(ts: Toks, i: nat, lhs: Expr): (r: Parsed<Expr>)
    requires i <= |ts|
    ensures r.Yes? ==> i <= r.next <= |ts|
    decreases ts, |ts| - i, 1
  {
    match Peek(ts, i)
    case TDot =>
      var w := WordOf(Peek(ts, i + 1));
      if w.None? then No else ParsePostfix(ts, i + 2, Field(lhs, w.value, false))
    case TQDot =>
      var w := WordOf(Peek(ts, i + 1));
      if w.None? then No else ParsePostfix(ts, i + 2, Field(lhs, w.value, true))
    case TLBrack =>
      if Peek(ts, i + 1) == TRBrack then ParsePostfix(ts, i + 2, Projection(lhs))
      else (match ParseExpr(ts, i + 1, 0)
            case No => No
            case Yes(inner, j) =>
              if Peek(ts, j) == TRBrack then ParsePostfix(ts, j + 1, Bracketed(lhs, inner)) else No)
    case _ => Yes(lhs, i)
  }

  function ParseBinary(ts: Toks, i: nat, lhs: Expr, bp: nat): (r: Parsed<Expr>)
    requires i <= |ts|
    ensures r.Yes? ==> i <= r.next <= |ts|
    decreases ts, |ts| - i, 1
  {
    match OpOf(Peek(ts, i))
    case None => Yes(lhs, i)
    case Some((op, power)) =>
      if power <= bp then Yes(lhs, i)
      else match ParseExpr(ts, i + 1, power)
           case No => No
           case Yes(rhs, j) => ParseBinary(ts, j, Bin(op, lhs, rhs), bp)
  }

  /** After an element of a bracketed list: newlines, and at most one comma with its newlines. */
  function AfterItem(ts: Toks, i: nat): (j: nat)
    requires i <= |ts|
    ensures i <= j <= |ts|
  {
    var k := SkipNewlines(ts, i);
    if Peek(ts, k) == TComma then SkipNewlines(ts, k + 1) else k
  }

  function AfterArg(ts: Toks, i: nat): (j: nat)
    requires i <= |ts|
    ensures i <= j <= |ts|
  {
    if Peek(ts, i) == TComma then i + 1 else i
  }

  function ParseItems(ts: Toks, i: nat): (r: Parsed<seq<Expr>>)
    requires i <= |ts|
    ensures r.Yes? ==> i < r.next <= |ts|
    decreases ts, |ts| - i, 3
  {
    if Peek(ts, i) == TRBrack then Yes([], i + 1)
    else match ParseExpr(ts, i, 0)
         case No => No
         case Yes(e, j) =>
           match ParseItems(ts, AfterItem(ts, j))
           case No => No
           case Yes(es, k) => Yes([e] + es, k)
  }

  function ParseArgs(ts: Toks, i: nat): (r: Parsed<seq<Expr>>)
    requires i <= |ts|
    ensures r.Yes? ==> i < r.next <= |ts|
    decreases ts, |ts| - i, 3
  {
    if Peek(ts, i) == TRParen then Yes([], i + 1)
    else match ParseExpr(ts, i, 0)
         case No => No
         case Yes(e, j) =>
           match ParseArgs(ts, AfterArg(ts, j))
           case No => No
           case Yes(es, k) => Yes([e] + es, k)
  }

  /** `key: expr`. */
  function ParseEntry(ts: Toks, i: nat): (r: Parsed<Entry>)
    requires i <= |ts|
    ensures r.Yes? ==> i < r.next <= |ts|
    decreases ts, |ts| - i, 3
  {
    var w := WordOf(Peek(ts, i));
    if w.None? || Peek(ts, i + 1) != TColon then No
    else match ParseExpr(ts, i + 2, 0)
         case No => No
         case Yes(e, j) => Yes(Entry(w.value, e), j)
  }

  function ParseFields(ts: Toks, i: nat): (r: Parsed<seq<Entry>>)
    requires i <= |ts|
    ensures r.Yes? ==> i < r.next <= |ts|
    decreases ts, |ts| - i, 4
  {
    if Peek(ts, i) == TRBrace then Yes([], i + 1)
    else match ParseEntry(ts, i)
         case No => No
         case Yes(f, j) =>
           match ParseFields(ts, AfterItem(ts, j))
           case No => No
           case Yes(fs, k) => Yes([f] + fs, k)
  }

  function ParseNamed(ts: Toks, i: nat): (r: Parsed<seq<Entry>>)
    requires i <= |ts|
    ensures r.Yes? ==> i < r.next <= |ts|
    decreases ts, |ts| - i, 4
  {
    if Peek(ts, i) == TRParen then Yes([], i + 1)
    else match ParseEntry(ts, i)
         case No => No
         case Yes(f, j) =>
           match ParseNamed(ts, AfterArg(ts, j))
           case No => No
           case Yes(fs, k) => Yes([f] + fs, k)
  }

  /** After `invoke`: `svc(...)` or `pkg:svc(...)`. */
  function ParseInvoke(ts: Toks, i: nat): (r: Parsed<(string, seq<Entry>)>)
    requires i <= |ts|
    ensures r.Yes? ==> i < r.next <= |ts|
    decreases ts, |ts| - i, 5
  {
    if !Peek(ts, i).TIdent? then No
    else
      var name := ts[i].s;
      var qualified := Peek(ts, i + 1) == TColon && Peek(ts, i + 2).TIdent?;
      var full := if qualified then name + ":" + ts[i + 2].s else name;
      var j := if qualified then i + 3 else i + 1;
      if Peek(ts, j) != TLParen then No
      else match ParseNamed(ts, j + 1)
           case No => No
           case Yes(args, k) => Yes((full, args), k)
  }

  function ParseParts(ps: seq<TPart>): (r: Option<seq<FPart>>)
    decreases ps, 0
  {
    if ps == [] then Some([])
    else
      var rest := ParseParts(ps[1..]);
      match ps[0]
      case TLit(s) => if rest.None? then None else Some([Text(s)] + rest.value)
      case THole(toks) =>
        assert ps[0] == THole(toks);
        match ParseExpr(toks, 0, 0)
        case No => None
        case Yes(e, _) => if rest.None? then None else Some([Hole(e)] + rest.value)
  }

  /** One turn of the postfix loop. */
  lemma {:induction false} PostfixStep(ts: Toks, i: nat, lhs: Expr)
    requires i <= |ts|
    ensures ParsePostfix(ts, i, lhs) ==
            match Peek(ts, i)
            case TDot => AppendField(ts, i, lhs, false)
            case TQDot => AppendField(ts, i, lhs, true)
            case TLBrack => AppendBracket(ts, i, lhs)
            case _ => Yes(lhs, i)
  {
    hide ParseExpr;
  }

  function AppendField(ts: Toks, i: nat, lhs: Expr, safe: bool): (r: Parsed<Expr>)
    requires i < |ts|
  {
    var w := WordOf(Peek(ts, i + 1));
    if w.None? then No else ParsePostfix(ts, i + 2, Field(lhs, w.value, safe))
  }

  function AppendBracket(ts: Toks, i: nat, lhs: Expr): (r: Parsed<Expr>)
    requires i < |ts|
  {
    if Peek(ts, i + 1) == TRBrack then ParsePostfix(ts, i + 2, Projection(lhs))
    else match ParseExpr(ts, i + 1, 0)
         case No => No
         case Yes(inner, j) =>
           if Peek(ts, j) == TRBrack then ParsePostfix(ts, j + 1, Bracketed(lhs, inner)) else No
  }
}
