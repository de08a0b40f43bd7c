// Pratt parser correctness: every expression tree the language can write is read back from its
// printed form, with only the parentheses the binding powers ask for, and the parser gives no
// other trees.

module VjsPratt {
  import opened Wrappers
  import opened VjsSyntax
  import opened VjsParser

  // ---------- the trees of the language ----------

  /** What source text can denote: a bracket is a filter exactly when it holds a condition. */
  predicate Writable(e: Expr) {
    match e
    case Lit(v) => v.Null? || v.Bool? || v.Str? || (v.Num? && v.n >= 0.0)
    case FString(parts) => forall i :: 0 <= i < |parts| ==> WritablePart(parts[i])
    case Var(_) => true
    case Doc(fields) => forall i :: 0 <= i < |fields| ==> Writable(fields[i].value)
    case Array(elems) => forall i :: 0 <= i < |elems| ==> Writable(elems[i])
    case Field(base, _, _) => Writable(base)
    case Index(base, key) => Writable(base) && Writable(key) && !IsCondition(key)
    case Projection(base) => Writable(base)
    case Filter(base, cond) => Writable(base) && Writable(cond) && IsCondition(cond)
    case Call(_, args) => forall i :: 0 <= i < |args| ==> Writable(args[i])
    case Invoke(_, given) => forall i :: 0 <= i < |given| ==> Writable(given[i].value)
    case Unary(_, arg) => Writable(arg)
    case Bin(_, l, r) => Writable(l) && Writable(r)
  }

  predicate WritablePart(p: FPart) { p.Hole? ==> Writable(p.e) }

  // ---------- printing ----------

  function OpTok(op: BinOp): (t: Tok) {
    match op
    case Or => TOr case And => TAnd case Coalesce => TQQ
    case Eq => TEqEq case Ne => TNe case Lt => TLt case Le => TLe case Gt => TGt case Ge => TGe case In => TIn
    case Add => TPlus case Sub => TMinus case Mul => TStar case Div => TSlash
  }

  function Power(op: BinOp): (n: nat)
    ensures OpOf(OpTok(op)) == Some((op, n)) && 1 <= n <= 6
  {
    match op
    case Or => 1 case And => 2 case Coalesce => 3
    case Add => 5 case Sub => 5 case Mul => 6 case Div => 6
    case _ => 4
  }

  function LitTok(v: Value): (t: Tok) {
    match v
    case Bool(b) => if b then TTrue else TFalse
    case Num(n) => if n >= 0.0 then TNum(n) else TNull
    case Str(s) => TStr(s)
    case _ => TNull
  }

  function VarTok(name: string): (t: Tok) {
    if name == "source" then TSource else if name == "tool" then TTool
    else if name == "driver" then TDriver else if name == "api" then TApi else TIdent(name)
  }

  /** An expression where operators of power `q` and below would not be read: they go in parentheses. */
  function Print(e: Expr, q: nat): (ts: Toks)
    decreases e, 2
  {
    if e.Bin? && Power(e.op) <= q then [TLParen] + Bare(e) + [TRParen] else Bare(e)
  }

  /** An expression that something may be appended to: `x.f`, `x[...]`. */
  function Primary(e: Expr): (ts: Toks)
    decreases e, 2
  {
    if e.Bin? || e.Unary? then [TLParen] + Bare(e) + [TRParen] else Bare(e)
  }

  function Bare(e: Expr): (ts: Toks)
    decreases e, 1
  {
    match e
    case Lit(v) => [LitTok(v)]
    case FString(parts) => [TFStr(PrintParts(parts))]
    case Var(name) => [VarTok(name)]
    case Doc(fields) => [TLBrace] + PrintEntries(fields) + [TRBrace]
    case Array(elems) => [TLBrack] + PrintAll(elems) + [TRBrack]
    case Field(base, name, safe) => Primary(base) + [if safe then TQDot else TDot, TStr(name)]
    case Index(base, key) => Primary(base) + [TLBrack] + Print(key, 0) + [TRBrack]
    case Projection(base) => Primary(base) + [TLBrack, TRBrack]
    case Filter(base, cond) => Primary(base) + [TLBrack] + Print(cond, 0) + [TRBrack]
    case Call(name, args) => [TIdent(name), TLParen] + PrintAll(args) + [TRParen]
    case Invoke(service, given) => [TInvoke] + ServiceToks(service) + [TLParen] + PrintEntries(given) + [TRParen]
    case Unary(op, arg) => [if op.Not? then TNot else TMinus] + Print(arg, UNARY_POWER)
    case Bin(op, l, r) => Print(l, Power(op) - 1) + [OpTok(op)] + Print(r, Power(op))
  }

  /** `svc`, or `pkg:svc` for a qualified reference. */
  function ServiceToks(service: string): (ts: Toks) {
    var k := ColonAt(service);
    if k < |service| then [TIdent(service[..k]), TColon, TIdent(service[k + 1..])] else [TIdent(service)]
  }

  function PrintAll(es: seq<Expr>): (ts: Toks)
    decreases es, 0
  {
    if es == [] then []
    else if |es| == 1 then Print(es[0], 0)
    else Print(es[0], 0) + [TComma] + PrintAll(es[1..])
  }

  function PrintEntries(fs: seq<Entry>): (ts: Toks)
    decreases fs, 0
  {
    if fs == [] then []
    else if |fs| == 1 then [TStr(fs[0].key), TColon] + Print(fs[0].value, 0)
    else [TStr(fs[0].key), TColon] + Print(fs[0].value, 0) + [TComma] + PrintEntries(fs[1..])
  }

  function PrintParts(ps: seq<FPart>): (ts: seq<TPart>)
    decreases ps, 0
  {
    if ps == [] then []
    else if ps[0].Hole? then
      assert ps[0].e < ps[0];
      [THole(Print(ps[0].e, 0))] + PrintParts(ps[1..])
    else [TLit(ps[0].s)] + PrintParts(ps[1..])
  }

  // ---------- reading back ----------

  /** The tokens `xs` stand at position `i`. */
  predicate At(ts: Toks, i: nat, xs: Toks) { i + |xs| <= |ts| && ts[i..i + |xs|] == xs }

  lemma {:induction false} AtSplit(ts: Toks, i: nat, xs: Toks, ys: Toks)
    requires At(ts, i, xs + ys)
    ensures At(ts, i, xs) && At(ts, i + |xs|, ys)
  {
    assert ts[i..i + |xs|] == ts[i..i + |xs + ys|][..|xs|];
    assert ts[i + |xs|..i + |xs| + |ys|] == ts[i..i + |xs + ys|][|xs|..];
  }

  /** `xs`, a token, `ys` and a token stand one after the other. */
  lemma {:induction false} AtFour(ts: Toks, i: nat, xs: Toks, x: Tok, ys: Toks, y: Tok)
    requires At(ts, i, xs + [x] + ys + [y])
    ensures At(ts, i, xs) && At(ts, i + |xs| + 1, ys) && At(ts, i + |xs| + 1, ys + [y])
    ensures i + |xs| + 1 + |ys| < |ts| && ts[i + |xs|] == x && ts[i + |xs| + 1 + |ys|] == y
    ensures |xs + [x] + ys + [y]| == |xs| + |ys| + 2
  {
    hide ParseExpr, ParsePrefix, ParsePostfix, ParseBinary, ParseItems, ParseArgs, ParseEntry, ParseFields, ParseNamed, ParseInvoke, ParseParts, Bare, Print, Primary, PrintAll, PrintEntries, PrintParts, At, Writable;
    var all := xs + [x] + ys + [y];
    assert all == xs + ([x] + (ys + [y]));
    AtSplit(ts, i, xs, [x] + (ys + [y]));
    AtSplit(ts, i + |xs|, [x], ys + [y]);
    AtSplit(ts, i + |xs| + 1, ys, [y]);
    AtOne(ts, i + |xs|, x);
    AtOne(ts, i + |xs| + 1 + |ys|, y);
  }

  lemma {:induction false} AtOne(ts: Toks, i: nat, x: Tok)
    requires At(ts, i, [x])
    ensures i < |ts| && ts[i] == x
  {
    assert ts[i..i + 1][0] == x;
  }

  /** A token that appends nothing to a finished operand. */
  predicate Closes(t: Tok) { !t.TDot? && !t.TQDot? && !t.TLBrack? && !t.TLParen? }

  /** A token after which no operator above power `q` has been missed. */
  predicate Stops(t: Tok, q: nat) {
    Closes(t) && (OpOf(t).Some? ==> OpOf(t).value.1 <= q)
  }

  /** Prefix and postfixes from `i`: the operand the binary loop starts with. */
  function Operand(ts: Toks, i: nat): (r: Parsed<Expr>)
    requires i <= |ts|
  {
    match ParsePrefix(ts, i)
    case No => No
    case Yes(e, j) => ParsePostfix(ts, j, e)
  }

  /** A token an operand can start with; none of them ends a list or is skipped. */
  predicate Starts(t: Tok) {
    !t.TNewline? && !t.TRBrack? && !t.TRParen? && !t.TRBrace? && !t.TComma?
  }

  lemma {:induction false} PrintStarts(e: Expr, q: nat)
    ensures |Bare(e)| > 0 && |Print(e, q)| > 0 && |Primary(e)| > 0
    ensures Starts(Bare(e)[0]) && Starts(Print(e, q)[0]) && Starts(Primary(e)[0])
    decreases e
  {
    match e
    case Field(base, _, _) => PrintStarts(base, 0);
    case Index(base, _) => PrintStarts(base, 0);
    case Projection(base) => PrintStarts(base, 0);
    case Filter(base, _) => PrintStarts(base, 0);
    case Bin(op, l, _) => PrintStarts(l, Power(op) - 1);
    case _ =>
  }

  lemma {:induction false} AtFirst(ts: Toks, i: nat, xs: Toks)
    requires At(ts, i, xs) && xs != []
    ensures Peek(ts, i) == xs[0] && i < |ts|
  {
    assert ts[i..i + |xs|][0] == xs[0];
  }

  // The lemmas below follow the grammar: an operand, a tree that is not in parentheses, a tree
  // printed for some power, a whole expression, and the lists.

  lemma {:induction false} ReadOperand(e: Expr, ts: Toks, i: nat)
    requires Writable(e) && At(ts, i, Primary(e)) && Peek(ts, i + |Primary(e)|) != TLParen
    ensures Operand(ts, i) == ParsePostfix(ts, i + |Primary(e)|, e)
    decreases e, 2
  {
    hide ParseExpr, ParsePostfix, ParseItems, ParseArgs, ParseEntry, ParseFields, ParseNamed, ParseInvoke, ParseParts, Bare, Print, PrintAll, PrintEntries, PrintParts, At, Writable;
    if e.Bin? || e.Unary? {
      AtSplit(ts, i, [TLParen] + Bare(e), [TRParen]);
      AtSplit(ts, i, [TLParen], Bare(e));
      AtOne(ts, i, TLParen);
      AtOne(ts, i + 1 + |Bare(e)|, TRParen);
      ReadBare(e, 0, ts, i + 1);
    } else {
      ReadSimple(e, ts, i);
    }
  }

  /** Operands that need no parentheses: atoms, brackets, calls, and what is appended to them. */
  lemma {:induction false} ReadSimple(e: Expr, ts: Toks, i: nat)
    requires Writable(e) && !e.Bin? && !e.Unary?
    requires At(ts, i, Bare(e)) && Peek(ts, i + |Bare(e)|) != TLParen
    ensures Operand(ts, i) == ParsePostfix(ts, i + |Bare(e)|, e)
    decreases e, 1
  {
    hide ParseExpr, ParsePrefix, ParsePostfix, ParseBinary, ParseItems, ParseArgs, ParseEntry, ParseFields, ParseNamed, ParseInvoke, ParseParts, Print, Primary, PrintAll, PrintEntries, PrintParts, At;
    match e
    case Array(_) => ReadArray(e, ts, i);
    case Doc(_) => ReadDoc(e, ts, i);
    case Call(_, _) => ReadCall(e, ts, i);
    case Invoke(_, _) => ReadInvoke(e, ts, i);
    case Field(_, _, _) => ReadField(e, ts, i);
    case Projection(_) => ReadProjection(e, ts, i);
    case Index(base, key) => ReadBracket(base, key, ts, i);
    case Filter(base, cond) => ReadBracket(base, cond, ts, i);
    case Lit(_) => ReadAtom(e, ts, i);
    case Var(_) => ReadAtom(e, ts, i);
    case FString(_) => ReadAtom(e, ts, i);
    case Unary(_, _) =>
    case Bin(_, _, _) =>
  }

  lemma {:induction false} ReadAtom(e: Expr, ts: Toks, i: nat)
    requires Writable(e) && (e.Lit? || e.Var? || e.FString?)
    requires At(ts, i, Bare(e)) && Peek(ts, i + |Bare(e)|) != TLParen
    ensures ParsePrefix(ts, i) == Yes(e, i + |Bare(e)|)
    decreases e, 0
  {
    hide ParseExpr, ParsePostfix, ParseBinary, ParseItems, ParseArgs, ParseEntry, ParseFields, ParseNamed, ParseInvoke, ParseParts, Print, Primary, PrintAll, PrintEntries, PrintParts, At;
    match e
    case Lit(v) => AtOne(ts, i, LitTok(v));
    case Var(name) => AtOne(ts, i, VarTok(name));
    case FString(parts) =>
      AtOne(ts, i, TFStr(PrintParts(parts)));
      ReadParts(parts);
  }

  lemma {:induction false} ReadField(e: Expr, ts: Toks, i: nat)
    requires Writable(e) && e.Field? && At(ts, i, Bare(e))
    ensures Operand(ts, i) == ParsePostfix(ts, i + |Bare(e)|, e)
    decreases e, 0
  {
    hide ParseExpr, ParsePrefix, ParsePostfix, ParseBinary, ParseItems, ParseArgs, ParseEntry, ParseFields, ParseNamed, ParseInvoke, ParseParts, Print, Primary, PrintAll, PrintEntries, PrintParts, At,
      Bare, Writable, Operand;
    BareField(e);
    var dot, base := if e.safe then TQDot else TDot, Primary(e.base);
    AtSplit(ts, i, base, [dot, TStr(e.name)]);
    var j := i + |base|;
    assert [dot, TStr(e.name)] == [dot] + [TStr(e.name)];
    AtSplit(ts, j, [dot], [TStr(e.name)]);
    AtOne(ts, j, dot);
    AtOne(ts, j + 1, TStr(e.name));
    ReadOperand(e.base, ts, i);
    FieldStep(ts, j, e.base, e.name, e.safe);
  }

  lemma {:induction false} BareField(e: Expr)
    requires Writable(e) && e.Field?
    ensures Writable(e.base) && Bare(e) == Primary(e.base) + [if e.safe then TQDot else TDot, TStr(e.name)]
  {
    hide Primary, Print, PrintAll, PrintEntries, PrintParts;
  }

  /** A dot and a quoted name append a field. */
  lemma {:induction false} FieldStep(ts: Toks, j: nat, base: Expr, name: string, safe: bool)
    requires j + 1 < |ts| && ts[j] == (if safe then TQDot else TDot) && ts[j + 1] == TStr(name)
    ensures ParsePostfix(ts, j, base) == ParsePostfix(ts, j + 2, Field(base, name, safe))
  {
    hide ParseExpr, ParsePostfix;
    PostfixStep(ts, j, base);
  }

  lemma {:induction false} ReadProjection(e: Expr, ts: Toks, i: nat)
    requires Writable(e) && e.Projection? && At(ts, i, Bare(e))
    ensures Operand(ts, i) == ParsePostfix(ts, i + |Bare(e)|, e)
    decreases e, 0
  {
    hide ParseExpr, ParsePrefix, ParsePostfix, ParseBinary, ParseItems, ParseArgs, ParseEntry, ParseFields, ParseNamed, ParseInvoke, ParseParts, Print, Primary, PrintAll, PrintEntries, PrintParts, At;
    var base := Primary(e.base);
    AtSplit(ts, i, base, [TLBrack, TRBrack]);
    var j := i + |base|;
    assert [TLBrack, TRBrack] == [TLBrack] + [TRBrack];
    AtSplit(ts, j, [TLBrack], [TRBrack]);
    AtOne(ts, j, TLBrack);
    AtOne(ts, j + 1, TRBrack);
    ReadOperand(e.base, ts, i);
    PostfixStep(ts, j, e.base);
  }

  lemma {:induction false} ReadBracket(base: Expr, inner: Expr, ts: Toks, i: nat)
    requires Writable(base) && Writable(inner)
    requires At(ts, i, Primary(base) + [TLBrack] + Print(inner, 0) + [TRBrack])
    ensures var n := |Primary(base) + [TLBrack] + Print(inner, 0) + [TRBrack]|;
            Operand(ts, i) == ParsePostfix(ts, i + n, Bracketed(base, inner))
    decreases Bracketed(base, inner), 0
  {
    hide ParseExpr, ParsePrefix, ParsePostfix, ParseBinary, ParseItems, ParseArgs, ParseEntry, ParseFields, ParseNamed, ParseInvoke, ParseParts, Bare, Print, Primary, PrintAll, PrintEntries, PrintParts, At, Writable;
    var b, k := Primary(base), Print(inner, 0);
    AtFour(ts, i, b, TLBrack, k, TRBrack);
    PrintStarts(inner, 0);
    AtFirst(ts, i + |b| + 1, k);
    assert base < Bracketed(base, inner) && inner < Bracketed(base, inner);
    ReadOperand(base, ts, i);
    ReadWhole(inner, 0, ts, i + |b| + 1);
    BracketStep(ts, i + |b|, base, inner, |k|);
  }

  lemma {:induction false} BracketStep(ts: Toks, j: nat, base: Expr, inner: Expr, n: nat)
    requires j + 1 + n < |ts| && ts[j] == TLBrack && Peek(ts, j + 1) != TRBrack && ts[j + 1 + n] == TRBrack
    requires ParseExpr(ts, j + 1, 0) == Yes(inner, j + 1 + n)
    ensures ParsePostfix(ts, j, base) == ParsePostfix(ts, j + n + 2, Bracketed(base, inner))
  {
    hide ParseExpr, ParsePostfix, Bracketed;
    PostfixStep(ts, j, base);
  }

  /** A tree without parentheses of its own, read at a lower power. */
  lemma {:induction false} ReadBare(e: Expr, bp: nat, ts: Toks, i: nat)
    requires Writable(e) && (e.Bin? || e.Unary?) && At(ts, i, Bare(e))
    requires e.Bin? ==> bp < Power(e.op) && Stops(Peek(ts, i + |Bare(e)|), Power(e.op))
    requires e.Unary? ==> Closes(Peek(ts, i + |Bare(e)|))
    ensures ParseExpr(ts, i, bp) == ParseBinary(ts, i + |Bare(e)|, e, bp)
    decreases e, 1
  {
    hide ParseExpr, ParsePrefix, ParsePostfix, ParseBinary, ParseItems, ParseArgs, ParseEntry, ParseFields, ParseNamed, ParseInvoke, ParseParts, Bare, Print, Primary, PrintAll, PrintEntries, PrintParts, At, Writable;
    if e.Bin? { ReadInfix(e, bp, ts, i); } else { ReadUnary(e, bp, ts, i); }
  }

  lemma {:induction false} ReadUnary(e: Expr, bp: nat, ts: Toks, i: nat)
    requires Writable(e) && e.Unary? && At(ts, i, Bare(e)) && Closes(Peek(ts, i + |Bare(e)|))
    ensures ParseExpr(ts, i, bp) == ParseBinary(ts, i + |Bare(e)|, e, bp)
    decreases e, 0
  {
    hide ParseExpr, ParsePrefix, ParsePostfix, ParseBinary, ParseItems, ParseArgs, ParseEntry, ParseFields, ParseNamed, ParseInvoke, ParseParts, Print, Primary, PrintAll, PrintEntries, PrintParts, At,
      Bare, Writable;
    BareUnary(e);
    var t := if e.uop.Not? then TNot else TMinus;
    var arg := Print(e.arg, UNARY_POWER);
    AtSplit(ts, i, [t], arg);
    AtOne(ts, i, t);
    OpsStop(Peek(ts, i + |Bare(e)|));
    ReadWhole(e.arg, UNARY_POWER, ts, i + 1);
    PostfixStep(ts, i + |Bare(e)|, e);
    UnaryStep(ts, i, bp, e);
  }

  lemma {:induction false} BareUnary(e: Expr)
    requires Writable(e) && e.Unary?
    ensures Writable(e.arg) && Bare(e) == [if e.uop.Not? then TNot else TMinus] + Print(e.arg, UNARY_POWER)
  {
    hide Primary, Print, PrintAll, PrintEntries, PrintParts;
  }

  /** No operator is above a sign. */
  lemma {:induction false} OpsStop(t: Tok)
    requires Closes(t)
    ensures Stops(t, UNARY_POWER)
  {
  }

  lemma {:induction false} UnaryStep(ts: Toks, i: nat, bp: nat, e: Expr)
    requires i < |ts| && e.Unary? && ts[i] == (if e.uop.Not? then TNot else TMinus)
    requires ParseExpr(ts, i + 1, UNARY_POWER).Yes? && ParseExpr(ts, i + 1, UNARY_POWER).value == e.arg
    requires var n := ParseExpr(ts, i + 1, UNARY_POWER).next; ParsePostfix(ts, n, e) == Yes(e, n)
    ensures ParseExpr(ts, i, bp) == ParseBinary(ts, ParseExpr(ts, i + 1, UNARY_POWER).next, e, bp)
  {
    assert ParsePrefix(ts, i) == Yes(e, ParseExpr(ts, i + 1, UNARY_POWER).next) by { hide ParseExpr; }
    hide ParsePrefix, ParsePostfix, ParseBinary;
  }

  lemma {:induction false} ReadInfix(e: Expr, bp: nat, ts: Toks, i: nat)
    requires Writable(e) && e.Bin? && At(ts, i, Bare(e))
    requires bp < Power(e.op) && Stops(Peek(ts, i + |Bare(e)|), Power(e.op))
    ensures ParseExpr(ts, i, bp) == ParseBinary(ts, i + |Bare(e)|, e, bp)
    decreases e, 0
  {
    hide ParseExpr, ParsePrefix, ParsePostfix, ParseItems, ParseArgs, ParseEntry, ParseFields, ParseNamed, ParseInvoke, ParseParts, Print, Primary, PrintAll, PrintEntries, PrintParts, At;
    var p, t := Power(e.op), OpTok(e.op);
    var left, right := Print(e.l, p - 1), Print(e.r, p);
    AtSplit(ts, i, left + [t], right);
    AtSplit(ts, i, left, [t]);
    var j := i + |left|;
    AtOne(ts, j, t);
    ReadPrinted(e.l, p - 1, bp, ts, i);
    ReadWhole(e.r, p, ts, j + 1);
  }

  /** A tree printed for power `q`, read at the same power or below. */
  lemma {:induction false} ReadPrinted(e: Expr, q: nat, bp: nat, ts: Toks, i: nat)
    requires Writable(e) && bp <= q && At(ts, i, Print(e, q)) && Stops(Peek(ts, i + |Print(e, q)|), q + 1)
    ensures ParseExpr(ts, i, bp) == ParseBinary(ts, i + |Print(e, q)|, e, bp)
    decreases e, 3
  {
    hide ParsePrefix, ParsePostfix, ParseBinary, ParseItems, ParseArgs, ParseEntry, ParseFields, ParseNamed, ParseInvoke, ParseParts, Bare, PrintAll, PrintEntries, PrintParts, Writable;
    if (e.Bin? && Power(e.op) > q) || e.Unary? {
      ReadBare(e, bp, ts, i);
    } else {
      assert Print(e, q) == Primary(e);
      ReadOperand(e, ts, i);
      PostfixStep(ts, i + |Primary(e)|, e);
    }
  }

  lemma {:induction false} ReadWhole(e: Expr, q: nat, ts: Toks, i: nat)
    requires Writable(e) && At(ts, i, Print(e, q)) && Stops(Peek(ts, i + |Print(e, q)|), q)
    ensures ParseExpr(ts, i, q) == Yes(e, i + |Print(e, q)|)
    decreases e, 4
  {
    hide ParseExpr, ParsePrefix, ParsePostfix, ParseItems, ParseArgs, ParseEntry, ParseFields, ParseNamed, ParseInvoke, ParseParts, Bare, Print, Primary, PrintAll, PrintEntries, PrintParts, At, Writable;
    ReadPrinted(e, q, q, ts, i);
  }

  // ---------- lists ----------

  lemma {:induction false} PrintAllShape(es: seq<Expr>)
    ensures es == [] ==> PrintAll(es) == []
    ensures |es| == 1 ==> PrintAll(es) == Print(es[0], 0)
    ensures |es| > 1 ==> PrintAll(es) == Print(es[0], 0) + [TComma] + PrintAll(es[1..])
  {
  }

  lemma {:induction false} PrintEntriesShape(fs: seq<Entry>)
    ensures fs == [] ==> PrintEntries(fs) == []
    ensures |fs| == 1 ==> PrintEntries(fs) == [TStr(fs[0].key), TColon] + Print(fs[0].value, 0)
    ensures |fs| > 1 ==> PrintEntries(fs) == [TStr(fs[0].key), TColon] + Print(fs[0].value, 0) + [TComma] + PrintEntries(fs[1..])
  {
  }

  lemma {:induction false} ItemEnds(ts: Toks, j: nat)
    requires j < |ts| && ts[j] != TNewline
    ensures ts[j] != TComma ==> AfterItem(ts, j) == j
    ensures ts[j] == TComma && Peek(ts, j + 1) != TNewline ==> AfterItem(ts, j) == j + 1
  {
  }

  lemma {:induction false} ArgEnds(ts: Toks, j: nat)
    requires j < |ts|
    ensures AfterArg(ts, j) == if ts[j] == TComma then j + 1 else j
  {
  }

  /** One turn of the loop over the elements of `ParseItems`. */
  lemma {:induction false} ItemsTurn(ts: Toks, i: nat)
    requires i <= |ts|
    ensures Peek(ts, i) == TRBrack ==> ParseItems(ts, i) == Yes([], i + 1)
    ensures Peek(ts, i) != TRBrack && ParseExpr(ts, i, 0).Yes? ==>
              var r := ParseItems(ts, AfterItem(ts, ParseExpr(ts, i, 0).next));
              ParseItems(ts, i) == if r.No? then No else Yes([ParseExpr(ts, i, 0).value] + r.value, r.next)
  {
    hide ParseExpr, ParseEntry, AfterItem;
  }

  /** One turn of the loop over the elements of `ParseFields`. */
  lemma {:induction false} FieldsTurn(ts: Toks, i: nat)
    requires i <= |ts|
    ensures Peek(ts, i) == TRBrace ==> ParseFields(ts, i) == Yes([], i + 1)
    ensures Peek(ts, i) != TRBrace && ParseEntry(ts, i).Yes? ==>
              var r := ParseFields(ts, AfterItem(ts, ParseEntry(ts, i).next));
              ParseFields(ts, i) == if r.No? then No else Yes([ParseEntry(ts, i).value] + r.value, r.next)
  {
    hide ParseExpr, ParseEntry, AfterItem;
  }

  lemma {:induction false} ReadItems(es: seq<Expr>, ts: Toks, i: nat)
    requires (forall k :: 0 <= k < |es| ==> Writable(es[k])) && At(ts, i, PrintAll(es) + [TRBrack])
    ensures ParseItems(ts, i) == Yes(es, i + |PrintAll(es)| + 1)
    ensures Peek(ts, i) != TNewline
    decreases es, 5
  {
    hide ParseItems, ParseExpr, ParsePrefix, ParsePostfix, ParseBinary, ParseArgs, ParseEntry, ParseFields, ParseNamed, ParseInvoke, ParseParts, Bare, Print, Primary, PrintAll, PrintEntries, PrintParts, At, Writable, AfterItem, AfterArg, SkipNewlines;
    var all := PrintAll(es);
    AtSplit(ts, i, all, [TRBrack]);
    AtOne(ts, i + |all|, TRBrack);
    PrintAllShape(es);
    ItemsTurn(ts, i);
    ItemsTurn(ts, i + |all|);
    if es != [] {
      var first := Print(es[0], 0);
      PrintStarts(es[0], 0);
      if |es| == 1 {
        AtFirst(ts, i, first);
        ReadWhole(es[0], 0, ts, i);
        ItemEnds(ts, i + |first|);
        assert [es[0]] + [] == es;
      } else {
        var rest := PrintAll(es[1..]);
        AtFour(ts, i, first, TComma, rest, TRBrack);
        AtFirst(ts, i, first);
        ReadWhole(es[0], 0, ts, i);
        ReadItems(es[1..], ts, i + |first| + 1);
        ItemEnds(ts, i + |first|);
        assert [es[0]] + es[1..] == es;
      }
    }
  }

  lemma {:induction false} ReadArgs(es: seq<Expr>, ts: Toks, i: nat)
    requires (forall k :: 0 <= k < |es| ==> Writable(es[k])) && At(ts, i, PrintAll(es) + [TRParen])
    ensures ParseArgs(ts, i) == Yes(es, i + |PrintAll(es)| + 1)
    decreases es, 5
  {
    hide ParseExpr, ParsePrefix, ParsePostfix, ParseBinary, ParseItems, ParseEntry, ParseFields, ParseNamed, ParseInvoke, ParseParts, Bare, Print, Primary, PrintAll, PrintEntries, PrintParts, At, Writable, AfterItem, AfterArg, SkipNewlines;
    var all := PrintAll(es);
    AtSplit(ts, i, all, [TRParen]);
    AtOne(ts, i + |all|, TRParen);
    PrintAllShape(es);
    if es != [] {
      var first := Print(es[0], 0);
      PrintStarts(es[0], 0);
      if |es| == 1 {
        AtFirst(ts, i, first);
        ReadWhole(es[0], 0, ts, i);
        ArgEnds(ts, i + |first|);
        assert [es[0]] + [] == es;
      } else {
        var rest := PrintAll(es[1..]);
        AtFour(ts, i, first, TComma, rest, TRParen);
        AtFirst(ts, i, first);
        ReadWhole(es[0], 0, ts, i);
        ReadArgs(es[1..], ts, i + |first| + 1);
        ArgEnds(ts, i + |first|);
        assert [es[0]] + es[1..] == es;
      }
    }
  }

  lemma {:induction false} ReadEntry(f: Entry, ts: Toks, i: nat)
    requires Writable(f.value) && At(ts, i, [TStr(f.key), TColon] + Print(f.value, 0))
    requires Stops(Peek(ts, i + 2 + |Print(f.value, 0)|), 0)
    ensures ParseEntry(ts, i) == Yes(f, i + 2 + |Print(f.value, 0)|)
    decreases f, 5
  {
    hide ParseExpr, ParsePrefix, ParsePostfix, ParseBinary, ParseItems, ParseArgs, ParseFields, ParseNamed, ParseInvoke, ParseParts, Bare, Print, Primary, PrintAll, PrintEntries, PrintParts, At, Writable;
    AtSplit(ts, i, [TStr(f.key), TColon], Print(f.value, 0));
    AtSplit(ts, i, [TStr(f.key)], [TColon]);
    AtOne(ts, i, TStr(f.key));
    AtOne(ts, i + 1, TColon);
    ReadWhole(f.value, 0, ts, i + 2);
  }

  lemma {:induction false} ReadFields(fs: seq<Entry>, ts: Toks, i: nat)
    requires (forall k :: 0 <= k < |fs| ==> Writable(fs[k].value)) && At(ts, i, PrintEntries(fs) + [TRBrace])
    ensures ParseFields(ts, i) == Yes(fs, i + |PrintEntries(fs)| + 1)
    ensures Peek(ts, i) != TNewline
    decreases fs, 6
  {
    hide ParseFields, ParseExpr, ParseEntry, Print, PrintEntries, At, Writable, AfterItem;
    PrintEntriesShape(fs);
    if fs == [] {
      assert [] + [TRBrace] == [TRBrace];
      AtOne(ts, i, TRBrace);
      FieldsTurn(ts, i);
    } else if |fs| == 1 {
      ReadLastField(fs[0], ts, i);
      assert [fs[0]] == fs;
    } else {
      var first := [TStr(fs[0].key), TColon] + Print(fs[0].value, 0);
      AtFour(ts, i, first, TComma, PrintEntries(fs[1..]), TRBrace);
      ReadFields(fs[1..], ts, i + |first| + 1);
      ReadFieldBefore(fs[0], fs[1..], ts, i);
      assert [fs[0]] + fs[1..] == fs;
    }
  }

  lemma {:induction false} ReadLastField(f: Entry, ts: Toks, i: nat)
    requires Writable(f.value) && At(ts, i, [TStr(f.key), TColon] + Print(f.value, 0) + [TRBrace])
    ensures ParseFields(ts, i) == Yes([f], i + 3 + |Print(f.value, 0)|) && Peek(ts, i) != TNewline
    decreases f, 6
  {
    hide ParseFields, ParseExpr, ParseEntry, Print, PrintEntries, At, Writable, AfterItem;
    var first := [TStr(f.key), TColon] + Print(f.value, 0);
    var n := i + |first|;
    AtSplit(ts, i, first, [TRBrace]);
    AtOne(ts, n, TRBrace);
    AtFirst(ts, i, first);
    ReadEntry(f, ts, i);
    LastField(f, ts, i, n);
  }

  /** An entry with the closing brace behind it is the last one. */
  lemma {:induction false} LastField(f: Entry, ts: Toks, i: nat, n: nat)
    requires i <= n < |ts| && ts[n] == TRBrace && Peek(ts, i) != TRBrace && ParseEntry(ts, i) == Yes(f, n)
    ensures ParseFields(ts, i) == Yes([f], n + 1)
  {
    hide ParseFields, ParseEntry, AfterItem;
    ItemEnds(ts, n);
    FieldsTurn(ts, n);
    FieldsTurn(ts, i);
    assert [f] + [] == [f];
  }

  lemma {:induction false} ReadFieldBefore(f: Entry, rest: seq<Entry>, ts: Toks, i: nat)
    requires Writable(f.value) && At(ts, i, [TStr(f.key), TColon] + Print(f.value, 0))
    requires var n := i + 2 + |Print(f.value, 0)|;
             n + 1 <= |ts| && Peek(ts, n) == TComma && Peek(ts, n + 1) != TNewline && ParseFields(ts, n + 1).Yes? && ParseFields(ts, n + 1).value == rest
    ensures ParseFields(ts, i) == Yes([f] + rest, ParseFields(ts, i + 3 + |Print(f.value, 0)|).next) && Peek(ts, i) != TNewline
    decreases f, 6
  {
    hide ParseFields, ParseExpr, ParseEntry, Print, PrintEntries, At, Writable, AfterItem;
    var first := [TStr(f.key), TColon] + Print(f.value, 0);
    AtFirst(ts, i, first);
    ReadEntry(f, ts, i);
    ItemEnds(ts, i + |first|);
    FieldsTurn(ts, i);
  }

  lemma {:induction false} ReadNamed(fs: seq<Entry>, ts: Toks, i: nat)
    requires (forall k :: 0 <= k < |fs| ==> Writable(fs[k].value)) && At(ts, i, PrintEntries(fs) + [TRParen])
    ensures ParseNamed(ts, i) == Yes(fs, i + |PrintEntries(fs)| + 1)
    decreases fs, 6
  {
    hide ParseExpr, ParsePrefix, ParsePostfix, ParseBinary, ParseItems, ParseArgs, ParseEntry, ParseFields, ParseInvoke, ParseParts, Bare, Print, Primary, PrintAll, PrintEntries, PrintParts, At, Writable, AfterItem, AfterArg, SkipNewlines;
    var all := PrintEntries(fs);
    AtSplit(ts, i, all, [TRParen]);
    AtOne(ts, i + |all|, TRParen);
    PrintEntriesShape(fs);
    if fs != [] {
      var first := [TStr(fs[0].key), TColon] + Print(fs[0].value, 0);
      if |fs| == 1 {
        AtFirst(ts, i, first);
        ReadEntry(fs[0], ts, i);
        ArgEnds(ts, i + |first|);
        assert [fs[0]] + [] == fs;
      } else {
        var rest := PrintEntries(fs[1..]);
        AtFour(ts, i, first, TComma, rest, TRParen);
        AtFirst(ts, i, first);
        ReadEntry(fs[0], ts, i);
        ReadNamed(fs[1..], ts, i + |first| + 1);
        ArgEnds(ts, i + |first|);
        assert [fs[0]] + fs[1..] == fs;
      }
    }
  }

  lemma {:induction false} ReadArray(e: Expr, ts: Toks, i: nat)
    requires Writable(e) && e.Array? && At(ts, i, Bare(e))
    ensures ParsePrefix(ts, i) == Yes(e, i + |Bare(e)|)
    decreases e, 0
  {
    hide ParseExpr, ParsePostfix, ParseBinary, ParseItems, ParseArgs, ParseEntry, ParseFields, ParseNamed, ParseInvoke, ParseParts, Print, Primary, PrintAll, PrintEntries, PrintParts, At;
    assert Bare(e) == [TLBrack] + (PrintAll(e.elems) + [TRBrack]);
    AtSplit(ts, i, [TLBrack], PrintAll(e.elems) + [TRBrack]);
    AtOne(ts, i, TLBrack);
    ReadItems(e.elems, ts, i + 1);
  }

  lemma {:induction false} ReadDoc(e: Expr, ts: Toks, i: nat)
    requires Writable(e) && e.Doc? && At(ts, i, Bare(e))
    ensures ParsePrefix(ts, i) == Yes(e, i + |Bare(e)|)
    decreases e, 0
  {
    hide ParseExpr, ParsePostfix, ParseBinary, ParseItems, ParseArgs, ParseEntry, ParseFields, ParseNamed, ParseInvoke, ParseParts, Print, Primary, PrintAll, PrintEntries, PrintParts, At;
    assert Bare(e) == [TLBrace] + (PrintEntries(e.fields) + [TRBrace]);
    AtSplit(ts, i, [TLBrace], PrintEntries(e.fields) + [TRBrace]);
    AtOne(ts, i, TLBrace);
    ReadFields(e.fields, ts, i + 1);
  }

  lemma {:induction false} ReadCall(e: Expr, ts: Toks, i: nat)
    requires Writable(e) && e.Call? && At(ts, i, Bare(e))
    ensures ParsePrefix(ts, i) == Yes(e, i + |Bare(e)|)
    decreases e, 0
  {
    hide ParseExpr, ParsePostfix, ParseBinary, ParseItems, ParseArgs, ParseEntry, ParseFields, ParseNamed, ParseInvoke, ParseParts, Print, Primary, PrintAll, PrintEntries, PrintParts, At;
    assert Bare(e) == [TIdent(e.name)] + ([TLParen] + (PrintAll(e.args) + [TRParen]));
    AtSplit(ts, i, [TIdent(e.name)], [TLParen] + (PrintAll(e.args) + [TRParen]));
    AtSplit(ts, i + 1, [TLParen], PrintAll(e.args) + [TRParen]);
    AtOne(ts, i, TIdent(e.name));
    AtOne(ts, i + 1, TLParen);
    ReadArgs(e.args, ts, i + 2);
  }

  lemma {:induction false} ReadService(service: string, ts: Toks, i: nat)
    requires At(ts, i, ServiceToks(service) + [TLParen])
    ensures ParseInvoke(ts, i) ==
            match ParseNamed(ts, i + |ServiceToks(service)| + 1)
            case No => No
            case Yes(args, k) => Yes((service, args), k)
  {
    hide ParseExpr, ParsePrefix, ParsePostfix, ParseBinary, ParseItems, ParseArgs, ParseEntry, ParseFields, ParseNamed, ParseParts, Bare, Print, Primary, PrintAll, PrintEntries, PrintParts, Writable;
    var name := ServiceToks(service);
    var n := |name|;
    AtSplit(ts, i, name, [TLParen]);
    AtOne(ts, i + n, TLParen);
    AtFirst(ts, i, name);
    if n == 3 {
      var k := ColonAt(service);
      assert ts[i..i + 3] == name;
      assert ts[i..i + 3][1] == TColon && ts[i..i + 3][2] == name[2];
      assert service == service[..k] + ":" + service[k + 1..];
    }
  }

  lemma {:induction false} ReadInvoke(e: Expr, ts: Toks, i: nat)
    requires Writable(e) && e.Invoke? && At(ts, i, Bare(e))
    ensures ParsePrefix(ts, i) == Yes(e, i + |Bare(e)|)
    decreases e, 0
  {
    hide ParseExpr, ParsePostfix, ParseBinary, ParseItems, ParseArgs, ParseEntry, ParseFields, ParseNamed, ParseInvoke, ParseParts, Print, Primary, PrintAll, PrintEntries, PrintParts, At;
    var name := ServiceToks(e.service);
    var args := PrintEntries(e.given);
    assert Bare(e) == [TInvoke] + (name + [TLParen] + args + [TRParen]);
    AtSplit(ts, i, [TInvoke], name + [TLParen] + args + [TRParen]);
    AtOne(ts, i, TInvoke);
    AtFour(ts, i + 1, name, TLParen, args, TRParen);
    AtJoin(ts, i + 1, name, TLParen);
    ReadService(e.service, ts, i + 1);
    ReadNamed(e.given, ts, i + 2 + |name|);
  }

  lemma {:induction false} AtJoin(ts: Toks, i: nat, xs: Toks, y: Tok)
    requires At(ts, i, xs) && i + |xs| < |ts| && ts[i + |xs|] == y
    ensures At(ts, i, xs + [y])
  {
    assert ts[i..i + |xs| + 1] == ts[i..i + |xs|] + [ts[i + |xs|]];
  }

  lemma {:induction false} AtWhole(ts: Toks)
    ensures At(ts, 0, ts) && Peek(ts, |ts|) == TNewline
  {
    assert ts[0..0 + |ts|] == ts;
  }

  lemma {:induction false} PrintPartsShape(ps: seq<FPart>)
    requires ps != []
    ensures PrintParts(ps) == [if ps[0].Hole? then THole(Print(ps[0].e, 0)) else TLit(ps[0].s)] + PrintParts(ps[1..])
    ensures PrintParts(ps)[1..] == PrintParts(ps[1..])
  {
  }

  lemma {:induction false} ReadParts(ps: seq<FPart>)
    requires forall k :: 0 <= k < |ps| ==> WritablePart(ps[k])
    ensures ParseParts(PrintParts(ps)) == Some(ps)
    decreases ps, 5
  {
    hide ParseExpr, ParsePrefix, ParsePostfix, ParseBinary, ParseItems, ParseArgs, ParseEntry, ParseFields, ParseNamed, ParseInvoke, Bare, Print, Primary, PrintAll, PrintEntries, PrintParts, At, Writable;
    if ps != [] {
      ReadParts(ps[1..]);
      PrintPartsShape(ps);
      if ps[0].Hole? {
        assert ps[0].e < ps[0];
        var toks := Print(ps[0].e, 0);
        AtWhole(toks);
        ReadWhole(ps[0].e, 0, toks, 0);
        assert [Hole(ps[0].e)] + ps[1..] == ps;
      } else {
        assert [Text(ps[0].s)] + ps[1..] == ps;
      }
    } else {
      assert PrintParts(ps) == [] by { PartsNone(); }
    }
  }

  lemma {:induction false} PartsNone()
    ensures PrintParts([]) == []
  {
  }

  /**
   * Printing a tree and parsing it gives the tree back, in any context: whatever stands before it,
   * and whatever token follows that does not carry the expression on, exactly its tokens are read.
   */
  lemma {:induction false} PrattRoundTrip(before: Toks, e: Expr, q: nat, after: Toks)
    requires Writable(e) && Stops(Peek(after, 0), q)
    ensures ParseExpr(before + Print(e, q) + after, |before|, q) == Yes(e, |before| + |Print(e, q)|)
  {
    hide ParseExpr, ParsePrefix, ParsePostfix, ParseBinary, ParseItems, ParseArgs, ParseEntry, ParseFields, ParseNamed, ParseInvoke, ParseParts, Bare, Print, Primary, PrintAll, PrintEntries, PrintParts, Writable;
    var ts := before + Print(e, q) + after;
    assert ts[|before|..|before| + |Print(e, q)|] == Print(e, q);
    assert Peek(ts, |before| + |Print(e, q)|) == Peek(after, 0);
    ReadWhole(e, q, ts, |before|);
  }

  // ---------- the parser gives no other trees ----------

  lemma {:induction false} ExprWritable(ts: Toks, i: nat, bp: nat)
    requires i <= |ts| && ParseExpr(ts, i, bp).Yes?
    ensures Writable(ParseExpr(ts, i, bp).value)
    decreases ts, |ts| - i, 2
  {
    hide ParsePrefix, ParsePostfix, ParseBinary;
    PrefixWritable(ts, i);
    var a := ParsePrefix(ts, i);
    PostfixWritable(ts, a.next, a.value);
    var b := ParsePostfix(ts, a.next, a.value);
    BinaryWritable(ts, b.next, b.value, bp);
  }

  lemma {:induction false} PrefixWritable(ts: Toks, i: nat)
    requires i <= |ts| && ParsePrefix(ts, i).Yes?
    ensures Writable(ParsePrefix(ts, i).value)
    decreases ts, |ts| - i, 1
  {
    hide ParseExpr, ParseItems, ParseFields, ParseArgs, ParseInvoke, ParseParts;
    match ts[i]
    case TFStr(parts) => PartsWritable(parts);
    case TNot => ExprWritable(ts, i + 1, UNARY_POWER);
    case TMinus => ExprWritable(ts, i + 1, UNARY_POWER);
    case TInvoke => InvokeWritable(ts, i + 1);
    case TLParen => ExprWritable(ts, i + 1, 0);
    case TLBrack => ItemsWritable(ts, SkipNewlines(ts, i + 1));
    case TLBrace => FieldsWritable(ts, SkipNewlines(ts, i + 1));
    case TIdent(_) => if Peek(ts, i + 1) == TLParen { ArgsWritable(ts, i + 2); }
    case _ =>
  }

  lemma {:induction false} PostfixWritable(ts: Toks, i: nat, lhs: Expr)
    requires i <= |ts| && Writable(lhs) && ParsePostfix(ts, i, lhs).Yes?
    ensures Writable(ParsePostfix(ts, i, lhs).value)
    decreases ts, |ts| - i, 1
  {
    hide ParsePostfix, ParseExpr, Writable, AppendField, AppendBracket;
    PostfixStep(ts, i, lhs);
    match Peek(ts, i)
    case TDot => FieldWritable(ts, i, lhs, false);
    case TQDot => FieldWritable(ts, i, lhs, true);
    case TLBrack => BracketWritable(ts, i, lhs);
    case _ =>
  }

  lemma {:induction false} FieldWritable(ts: Toks, i: nat, lhs: Expr, safe: bool)
    requires i < |ts| && Writable(lhs) && AppendField(ts, i, lhs, safe).Yes?
    ensures Writable(AppendField(ts, i, lhs, safe).value)
    decreases ts, |ts| - i, 0
  {
    hide ParsePostfix;
    PostfixWritable(ts, i + 2, Field(lhs, WordOf(Peek(ts, i + 1)).value, safe));
  }

  lemma {:induction false} BracketWritable(ts: Toks, i: nat, lhs: Expr)
    requires i < |ts| && Writable(lhs) && AppendBracket(ts, i, lhs).Yes?
    ensures Writable(AppendBracket(ts, i, lhs).value)
    decreases ts, |ts| - i, 0
  {
    hide ParsePostfix, ParseExpr;
    if Peek(ts, i + 1) == TRBrack {
      PostfixWritable(ts, i + 2, Projection(lhs));
    } else {
      ExprWritable(ts, i + 1, 0);
      var inner := ParseExpr(ts, i + 1, 0);
      PostfixWritable(ts, inner.next + 1, Bracketed(lhs, inner.value));
    }
  }

  lemma {:induction false} BinaryWritable(ts: Toks, i: nat, lhs: Expr, bp: nat)
    requires i <= |ts| && Writable(lhs) && ParseBinary(ts, i, lhs, bp).Yes?
    ensures Writable(ParseBinary(ts, i, lhs, bp).value)
    decreases ts, |ts| - i, 1
  {
    hide ParseExpr, Writable, OpOf, ParseBinary;
    OperatorStep(ts, i, lhs, bp);
    var found := OpOf(Peek(ts, i));
    if found.Some? && found.value.1 > bp {
      ExprWritable(ts, i + 1, found.value.1);
      var rhs := ParseExpr(ts, i + 1, found.value.1);
      BothWritable(found.value.0, lhs, rhs.value);
      BinaryWritable(ts, rhs.next, Bin(found.value.0, lhs, rhs.value), bp);
    }
  }

  /** One turn of the operator loop. */
  lemma {:induction false} OperatorStep(ts: Toks, i: nat, lhs: Expr, bp: nat)
    requires i <= |ts|
    ensures var found := OpOf(Peek(ts, i));
            ParseBinary(ts, i, lhs, bp) ==
            if found.None? || found.value.1 <= bp then Yes(lhs, i)
            else
              match ParseExpr(ts, i + 1, found.value.1)
              case No => No
              case Yes(rhs, j) => ParseBinary(ts, j, Bin(found.value.0, lhs, rhs), bp)
  {
    hide ParseExpr;
  }

  lemma {:induction false} BothWritable(op: BinOp, l: Expr, r: Expr)
    requires Writable(l) && Writable(r)
    ensures Writable(Bin(op, l, r))
  {
  }

  lemma {:induction false} ItemsWritable(ts: Toks, i: nat)
    requires i <= |ts| && ParseItems(ts, i).Yes?
    ensures forall k :: 0 <= k < |ParseItems(ts, i).value| ==> Writable(ParseItems(ts, i).value[k])
    decreases ts, |ts| - i, 3
  {
    hide ParseExpr;
    if Peek(ts, i) != TRBrack {
      ExprWritable(ts, i, 0);
      ItemsWritable(ts, AfterItem(ts, ParseExpr(ts, i, 0).next));
    }
  }

  lemma {:induction false} ArgsWritable(ts: Toks, i: nat)
    requires i <= |ts| && ParseArgs(ts, i).Yes?
    ensures forall k :: 0 <= k < |ParseArgs(ts, i).value| ==> Writable(ParseArgs(ts, i).value[k])
    decreases ts, |ts| - i, 3
  {
    hide ParseExpr;
    if Peek(ts, i) != TRParen {
      ExprWritable(ts, i, 0);
      ArgsWritable(ts, AfterArg(ts, ParseExpr(ts, i, 0).next));
    }
  }

  lemma {:induction false} FieldsWritable(ts: Toks, i: nat)
    requires i <= |ts| && ParseFields(ts, i).Yes?
    ensures forall k :: 0 <= k < |ParseFields(ts, i).value| ==> Writable(ParseFields(ts, i).value[k].value)
    decreases ts, |ts| - i, 4
  {
    hide ParseExpr;
    if Peek(ts, i) != TRBrace {
      ExprWritable(ts, i + 2, 0);
      FieldsWritable(ts, AfterItem(ts, ParseEntry(ts, i).next));
    }
  }

  lemma {:induction false} NamedWritable(ts: Toks, i: nat)
    requires i <= |ts| && ParseNamed(ts, i).Yes?
    ensures forall k :: 0 <= k < |ParseNamed(ts, i).value| ==> Writable(ParseNamed(ts, i).value[k].value)
    decreases ts, |ts| - i, 4
  {
    hide ParseExpr;
    if Peek(ts, i) != TRParen {
      ExprWritable(ts, i + 2, 0);
      NamedWritable(ts, AfterArg(ts, ParseEntry(ts, i).next));
    }
  }

  lemma {:induction false} InvokeWritable(ts: Toks, i: nat)
    requires i <= |ts| && ParseInvoke(ts, i).Yes?
    ensures forall k :: 0 <= k < |ParseInvoke(ts, i).value.1| ==> Writable(ParseInvoke(ts, i).value.1[k].value)
    decreases ts, |ts| - i, 5
  {
    hide ParseNamed;
    var qualified := Peek(ts, i + 1) == TColon && Peek(ts, i + 2).TIdent?;
    NamedWritable(ts, if qualified then i + 4 else i + 2);
  }

  lemma {:induction false} PartsWritable(ps: seq<TPart>)
    requires ParseParts(ps).Some?
    ensures forall k :: 0 <= k < |ParseParts(ps).value| ==> WritablePart(ParseParts(ps).value[k])
    decreases ps, 0
  {
    hide ParseExpr;
    if ps != [] {
      PartsWritable(ps[1..]);
      match ps[0]
      case TLit(_) =>
      case THole(toks) =>
        assert ps[0] == THole(toks);
        ExprWritable(toks, 0, 0);
    }
  }

  /**
   * The writable trees are exactly what the parser can give: whatever tokens an expression was
   * parsed from, it is writable, and its own printed form parses to it again.
   */
  lemma {:induction false} ParsedIsWritable(ts: Toks, i: nat, bp: nat)
    requires i <= |ts| && ParseExpr(ts, i, bp).Yes?
    ensures var e := ParseExpr(ts, i, bp).value;
            Writable(e) && ParseExpr(Print(e, 0), 0, 0) == Yes(e, |Print(e, 0)|)
  {
    ExprWritable(ts, i, bp);
    var e := ParseExpr(ts, i, bp).value;
    AtWhole(Print(e, 0));
    hide ParseExpr, Print;
    ReadWhole(e, 0, Print(e, 0), 0);
  }
}
