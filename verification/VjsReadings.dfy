// One text, two readings (core/src/vjs.rs): a surface constant is read as a literal, the same
// tokens elsewhere as an expression. Commas are optional in lists, and an element may go on with
// `-` or `[`: as a literal `[5 - 3]` has two elements, as an expression one. Where both
// readings succeed, this is the only way in which they part.

module VjsReadings {
  import opened Wrappers
  import opened VjsSyntax
  import opened VjsParser
  import opened VjsPratt
  import opened VjsProgram
  import opened VjsLocal
  import opened VjsBrackets
  import opened VjsSplice
  import opened VjsEditProof
  import opened VjsGlued
  import P = VjsPure

  // ---------- where an element goes on ----------

  /** After an element, a token that an expression goes on with and a literal starts its next element with. */
  predicate Joins(t: Tok) { t.TMinus? || t.TLBrack? }

  /** In the literal at `i`, some element of a list that counts is directly followed by `-` or `[`. */
  predicate JoinedAt(ts: Toks, i: nat)
    requires i <= |ts|
    decreases |ts| - i, 1
  {
    i < |ts| &&
    match ts[i]
    case TLBrack => JoinedItems(ts, SkipNewlines(ts, i + 1))
    case TLBrace => JoinedFields(ts, SkipNewlines(ts, i + 1))
    case _ => false
  }

  predicate JoinedItems(ts: Toks, i: nat)
    requires i <= |ts|
    decreases |ts| - i, 2
  {
    Peek(ts, i) != TRBrack && LiteralAt(ts, i).LYes? &&
    var j := LiteralAt(ts, i).next;
    JoinedAt(ts, i) || Joins(Peek(ts, j)) || JoinedItems(ts, AfterItem(ts, j))
  }

  /** A value that a later entry of its key hides does not count. */
  predicate JoinedFields(ts: Toks, i: nat)
    requires i <= |ts|
    decreases |ts| - i, 2
  {
    i + 2 <= |ts| && Peek(ts, i) != TRBrace && WordOf(Peek(ts, i)).Some? && LiteralAt(ts, i + 2).LYes? &&
    var k := AfterItem(ts, LiteralAt(ts, i + 2).next);
    || (JoinedAt(ts, i + 2) && LiteralFields(ts, k).LYes? && WordOf(Peek(ts, i)).value !in MapOf(LiteralFields(ts, k).value))
    || JoinedFields(ts, k)
  }

  // ---------- the expressions that literals can read as ----------

  predicate Tame(e: Expr) {
    match e
    case Lit(_) => true
    case Unary(op, x) => op.Neg? && Tame(x)
    case Bin(op, l, r) => op.Sub? && Tame(l) && Tame(r)
    case Index(b, k) => Tame(b) && Tame(k)
    case Projection(b) => Tame(b)
    case Array(es) => forall k :: 0 <= k < |es| ==> Tame(es[k])
    case Doc(fs) => forall k :: 0 <= k < |fs| ==> (assert fs[k].value < fs[k]; Tame(fs[k].value))
    case _ => false
  }

  /** What a tame expression is worth, whatever it runs in. */
  function Worth(e: Expr): (v: Value) {
    match e
    case Lit(v) => v
    case Unary(_, x) => P.UnaryValue(Neg, Worth(x))
    case Bin(_, l, r) => if Worth(l).Num? && Worth(r).Num? then Num(Worth(l).n - Worth(r).n) else Null
    case Index(b, k) => P.ReadIndex(Worth(b), Worth(k))
    case Projection(b) => Worth(b)
    case Array(es) => Arr(WorthAll(es))
    case Doc(fs) => Obj(WorthEntries(fs))
    case _ => Null
  }

  function WorthAll(es: seq<Expr>): (vs: seq<Value>)
    ensures |vs| == |es|
  {
    if es == [] then [] else [Worth(es[0])] + WorthAll(es[1..])
  }

  function WorthEntries(fs: seq<Entry>): (m: Vars) {
    if fs == [] then map[]
    else
      assert fs[0].value < fs[0];
      map[fs[0].key := Worth(fs[0].value)] + WorthEntries(fs[1..])
  }

  lemma {:induction false} EvalWorth(w: World, e: Expr, vars: Vars, pkg: string, depth: nat)
    requires Tame(e) && depth <= P.MAX_DEPTH
    ensures P.Eval(w, e, vars, pkg, depth) == P.Pure(Ok(Worth(e)))
    decreases e, 1
  {
    hide P.EvalAll, P.EvalEntries, P.EvalFilter, P.EvalParts, P.RunService;
    match e
    case Lit(_) =>
    case Unary(_, x) => EvalWorth(w, x, vars, pkg, depth);
    case Bin(_, l, r) =>
      EvalWorth(w, l, vars, pkg, depth);
      EvalWorth(w, r, vars, pkg, depth);
    case Index(b, k) =>
      EvalWorth(w, b, vars, pkg, depth);
      EvalWorth(w, k, vars, pkg, depth);
    case Projection(b) => EvalWorth(w, b, vars, pkg, depth);
    case Array(es) => AllWorth(w, es, vars, pkg, depth);
    case Doc(fs) => EntriesWorth(w, fs, vars, pkg, depth);
  }

  lemma {:induction false} AllWorth(w: World, es: seq<Expr>, vars: Vars, pkg: string, depth: nat)
    requires (forall k :: 0 <= k < |es| ==> Tame(es[k])) && depth <= P.MAX_DEPTH
    ensures P.EvalAll(w, es, vars, pkg, depth) == P.Pure(Ok(WorthAll(es)))
    decreases es, 0
  {
    hide P.Eval, Tame, Worth;
    if es != [] {
      EvalWorth(w, es[0], vars, pkg, depth);
      AllWorth(w, es[1..], vars, pkg, depth);
    }
  }

  lemma {:induction false} EntriesWorth(w: World, fs: seq<Entry>, vars: Vars, pkg: string, depth: nat)
    requires (forall k :: 0 <= k < |fs| ==> Tame(fs[k].value)) && depth <= P.MAX_DEPTH
    ensures P.EvalEntries(w, fs, vars, pkg, depth) == P.Pure(Ok(WorthEntries(fs)))
    decreases fs, 0
  {
    hide P.Eval, Tame, Worth;
    if fs != [] {
      assert fs[0].value < fs[0];
      EvalWorth(w, fs[0].value, vars, pkg, depth);
      EntriesWorth(w, fs[1..], vars, pkg, depth);
    }
  }

  // ---------- a list, read both ways ----------

  /** From `i` on stand the elements of a list that ends at `k`. */
  ghost predicate List(ts: Toks, i: nat, k: nat) {
    i <= |ts| && LiteralItems(ts, i).LYes? && LiteralItems(ts, i).next == k
  }

  /** An element has just ended at `n`. */
  ghost predicate Behind(ts: Toks, n: nat, k: nat) {
    n <= |ts| && List(ts, AfterItem(ts, n), k)
  }

  /** How many elements the literal still has behind `n`. */
  ghost function Left(ts: Toks, n: nat): (m: nat)
    requires n <= |ts|
  {
    var r := LiteralItems(ts, AfterItem(ts, n));
    if r.LYes? then |r.value| else 0
  }

  lemma {:induction false} ListStep(ts: Toks, i: nat, k: nat)
    requires List(ts, i, k) && Peek(ts, i) != TRBrack
    ensures i < |ts| && LiteralAt(ts, i).LYes? && Behind(ts, LiteralAt(ts, i).next, k)
    ensures |LiteralItems(ts, i).value| == 1 + Left(ts, LiteralAt(ts, i).next)
    ensures LiteralItems(ts, i).value == [LiteralAt(ts, i).value] + LiteralItems(ts, AfterItem(ts, LiteralAt(ts, i).next)).value
  {
    hide LiteralAt, AfterItem;
    LiteralEndsLater(ts, i);
  }

  lemma {:induction false} LiteralEndsLater(ts: Toks, i: nat)
    requires i <= |ts|
    ensures LiteralAt(ts, i).LYes? ==> i < LiteralAt(ts, i).next <= |ts|
  {
    hide LiteralAt;
  }

  lemma {:induction false} ListEnds(ts: Toks, i: nat, k: nat)
    requires List(ts, i, k) && Peek(ts, i) == TRBrack
    ensures k == i + 1 && LiteralItems(ts, i).value == []
  {
    hide LiteralAt, AfterItem;
  }

  /** What may stand directly behind an element. */
  predicate MayFollow(t: Tok) {
    t.TNewline? || t.TComma? || t.TRBrack? || t.TStr? || t.TNum? || t.TTrue? || t.TFalse? || t.TNull? || t.TMinus? || t.TLBrack? || t.TLBrace?
  }

  lemma {:induction false} BehindToken(ts: Toks, n: nat, k: nat)
    requires Behind(ts, n, k)
    ensures MayFollow(Peek(ts, n))
    ensures !Peek(ts, n).TNewline? && !Peek(ts, n).TComma? ==> AfterItem(ts, n) == n && List(ts, n, k)
  {
    AfterItemFirst(ts, n);
    if !Peek(ts, n).TNewline? && !Peek(ts, n).TComma? { ListToken(ts, n, k); }
  }

  lemma {:induction false} ListToken(ts: Toks, n: nat, k: nat)
    requires List(ts, n, k)
    ensures MayFollow(Peek(ts, n))
  {
    hide AfterItem;
    if Peek(ts, n) != TRBrack { StartToken(ts, n); }
  }

  lemma {:induction false} StartToken(ts: Toks, n: nat)
    requires n <= |ts| && LiteralAt(ts, n).LYes?
    ensures n < |ts| && MayFollow(ts[n])
  {
    hide LiteralItems, LiteralFields, SkipNewlines;
  }

  /** The number after a sign is an element of its own in the same list. */
  lemma {:induction false} SignedStep(ts: Toks, i: nat, k: nat)
    requires List(ts, i, k) && Peek(ts, i) == TMinus
    ensures i + 1 < |ts| && ts[i + 1].TNum? && LiteralAt(ts, i) == LYes(Num(0.0 - ts[i + 1].n), i + 2)
    ensures LiteralAt(ts, i + 1) == LYes(Num(ts[i + 1].n), i + 2) && List(ts, i + 1, k)
    ensures |LiteralItems(ts, i + 1).value| == |LiteralItems(ts, i).value|
  {
    ListStep(ts, i, k);
    hide LiteralItems, LiteralFields, SkipNewlines, AfterItem;
    assert LiteralAt(ts, i + 1) == LYes(Num(ts[i + 1].n), i + 2);
    ItemsUnroll(ts, i + 1);
    ItemsUnroll(ts, i);
  }

  lemma {:induction false} ItemsUnroll(ts: Toks, i: nat)
    requires i <= |ts| && Peek(ts, i) != TRBrack && LiteralAt(ts, i).LYes?
    ensures var r := LiteralItems(ts, AfterItem(ts, LiteralAt(ts, i).next));
            LiteralItems(ts, i) == if r.LNo? then r else LYes([LiteralAt(ts, i).value] + r.value, r.next)
  {
    hide LiteralAt, AfterItem;
  }

  /** At power `bp` an expression goes on with this token. */
  predicate JoinsAt(t: Tok, bp: nat) { t.TLBrack? || (t.TMinus? && bp < 5) }

  lemma {:induction false} ExprInList(ts: Toks, i: nat, bp: nat, k: nat)
    requires List(ts, i, k) && Peek(ts, i) != TRBrack && ParseExpr(ts, i, bp).Yes?
    ensures var r := ParseExpr(ts, i, bp); Tame(r.value) && Behind(ts, r.next, k)
    ensures LiteralAt(ts, i).LYes?
    ensures var r := ParseExpr(ts, i, bp); var j := LiteralAt(ts, i).next;
            if JoinsAt(Peek(ts, j), bp) then Left(ts, r.next) < Left(ts, j) else r.next == j
    decreases |ts| - i, 2
  {
    hide ParsePrefix, ParsePostfix, ParseBinary, LiteralAt, LiteralItems, AfterItem, Tame, Left, Behind, List;
    ListStep(ts, i, k);
    var j := LiteralAt(ts, i).next;
    var p := ParsePrefix(ts, i);
    PrefixInList(ts, i, k);
    var q := ParsePostfix(ts, p.next, p.value);
    PostfixInList(ts, p.next, p.value, k);
    BinaryInList(ts, q.next, q.value, bp, k);
    BehindToken(ts, j, k);
  }

  lemma {:induction false} PrefixInList(ts: Toks, i: nat, k: nat)
    requires List(ts, i, k) && Peek(ts, i) != TRBrack && ParsePrefix(ts, i).Yes?
    ensures LiteralAt(ts, i).LYes?
    ensures var r := ParsePrefix(ts, i); Tame(r.value) && Behind(ts, r.next, k)
    ensures var r := ParsePrefix(ts, i); var j := LiteralAt(ts, i).next;
            r.next == j || (Peek(ts, j).TLBrack? && Left(ts, r.next) < Left(ts, j))
    decreases |ts| - i, 1
  {
    ListStep(ts, i, k);
    if ts[i] == TMinus {
      hide LiteralAt, LiteralItems, AfterItem, Left, Behind, List, ParseExpr;
      SignedStep(ts, i, k);
      MinusPrefix(ts, i);
      ExprInList(ts, i + 1, UNARY_POWER, k);
    } else if ts[i] == TLBrack || ts[i] == TLBrace {
      hide *;
      EnclosedTame(ts, i);
    } else {
      hide LiteralItems, LiteralFields, ParseExpr, ParseItems, ParseFields, ParseArgs, ParseInvoke, ParseParts, AfterItem, List, Left;
      AtomTame(ts, i);
    }
  }

  lemma {:induction false} MinusPrefix(ts: Toks, i: nat)
    requires i < |ts| && ts[i] == TMinus
    ensures ParsePrefix(ts, i) == match ParseExpr(ts, i + 1, UNARY_POWER) case No => No case Yes(e, j) => Yes(Unary(Neg, e), j)
  {
    hide ParseExpr;
  }

  lemma {:induction false} AtomTame(ts: Toks, i: nat)
    requires i < |ts| && LiteralAt(ts, i).LYes? && ts[i] != TMinus && ts[i] != TLBrack && ts[i] != TLBrace
    ensures ParsePrefix(ts, i) == Yes(Lit(LiteralAt(ts, i).value), i + 1) && LiteralAt(ts, i).next == i + 1
  {
    hide LiteralItems, LiteralFields, ParseExpr, ParseItems, ParseFields, ParseArgs, ParseInvoke, ParseParts;
  }

  /** A list or a document inside a literal is tame as an expression, and ends where the literal does. */
  lemma {:induction false} EnclosedTame(ts: Toks, i: nat)
    requires i < |ts| && (ts[i] == TLBrack || ts[i] == TLBrace) && LiteralAt(ts, i).LYes? && ParsePrefix(ts, i).Yes?
    ensures Tame(ParsePrefix(ts, i).value) && ParsePrefix(ts, i).next == LiteralAt(ts, i).next
    decreases |ts| - i, 0
  {
    hide LiteralItems, LiteralFields, ParseExpr, ParseItems, ParseFields, ParseArgs, ParseInvoke, ParseParts, SkipNewlines, MapOf;
    var k := SkipNewlines(ts, i + 1);
    if ts[i] == TLBrack {
      ItemsInList(ts, k, LiteralItems(ts, k).next);
    } else {
      FieldsInDoc(ts, k);
    }
  }

  lemma {:induction false} PostfixInList(ts: Toks, n: nat, lhs: Expr, k: nat)
    requires Behind(ts, n, k) && Tame(lhs) && ParsePostfix(ts, n, lhs).Yes?
    ensures var r := ParsePostfix(ts, n, lhs); Tame(r.value) && Behind(ts, r.next, k)
    ensures var r := ParsePostfix(ts, n, lhs); if Peek(ts, n).TLBrack? then Left(ts, r.next) < Left(ts, n) else r.next == n
    decreases |ts| - n, 1
  {
    hide ParsePostfix, ParseExpr, LiteralAt, LiteralItems, AfterItem, Left, Behind, List, Tame;
    BehindToken(ts, n, k);
    PostfixStep(ts, n, lhs);
    if Peek(ts, n) == TLBrack { BracketInList(ts, n, lhs, k); }
  }

  lemma {:induction false} BracketInList(ts: Toks, n: nat, lhs: Expr, k: nat)
    requires n < |ts| && Behind(ts, n, k) && List(ts, n, k) && Tame(lhs) && ts[n] == TLBrack && AppendBracket(ts, n, lhs).Yes?
    ensures var r := AppendBracket(ts, n, lhs); Tame(r.value) && Behind(ts, r.next, k) && Left(ts, r.next) < Left(ts, n)
    decreases |ts| - n, 0
  {
    hide ParsePostfix, ParseExpr, LiteralAt, LiteralItems, AfterItem, Left, Behind, List, Tame;
    ListStep(ts, n, k);
    var j := LiteralAt(ts, n).next;
    LeftHere(ts, n, k);
    if Peek(ts, n + 1) == TRBrack {
      EmptyList(ts, n);
      TameProjection(lhs);
      PostfixInList(ts, n + 2, Projection(lhs), k);
    } else {
      var e := ParseExpr(ts, n + 1, 0);
      ExprStart(ts, n + 1, 0);
      OpenList(ts, n);
      ExprInList(ts, n + 1, 0, j);
      BehindToken(ts, e.next, j);
      ListEnds(ts, e.next, j);
      TameIndex(lhs, e.value);
      PostfixInList(ts, e.next + 1, Bracketed(lhs, e.value), k);
    }
  }

  lemma {:induction false} LeftHere(ts: Toks, n: nat, k: nat)
    requires n <= |ts| && List(ts, n, k) && Peek(ts, n) == TLBrack
    ensures LiteralAt(ts, n).LYes? && Left(ts, n) == 1 + Left(ts, LiteralAt(ts, n).next)
  {
    ListStep(ts, n, k);
    hide LiteralAt, LiteralItems;
    AfterItemFirst(ts, n);
  }

  lemma {:induction false} TameProjection(lhs: Expr)
    requires Tame(lhs)
    ensures Tame(Projection(lhs))
  {
  }

  lemma {:induction false} TameIndex(lhs: Expr, inner: Expr)
    requires Tame(lhs) && Tame(inner)
    ensures Tame(Bracketed(lhs, inner))
  {
  }

  lemma {:induction false} EmptyList(ts: Toks, n: nat)
    requires n + 1 < |ts| && ts[n] == TLBrack && ts[n + 1] == TRBrack && LiteralAt(ts, n).LYes?
    ensures LiteralAt(ts, n).next == n + 2
  {
    hide LiteralFields;
  }

  /** An expression does not start with a newline. */
  lemma {:induction false} ExprStart(ts: Toks, i: nat, bp: nat)
    requires i <= |ts| && ParseExpr(ts, i, bp).Yes?
    ensures i < |ts| && ts[i] != TNewline
  {
    assert ParsePrefix(ts, i).Yes?;
    hide ParseExpr, ParseItems, ParseFields, ParseArgs, ParseInvoke, ParseParts;
  }

  lemma {:induction false} OpenList(ts: Toks, n: nat)
    requires n + 1 < |ts| && ts[n] == TLBrack && ts[n + 1] != TNewline && LiteralAt(ts, n).LYes?
    ensures List(ts, n + 1, LiteralAt(ts, n).next)
  {
    hide LiteralItems, LiteralFields, AfterItem;
    SkipTo(ts, n + 1, n + 1);
  }

  lemma {:induction false} BinaryInList(ts: Toks, n: nat, lhs: Expr, bp: nat, k: nat)
    requires Behind(ts, n, k) && Tame(lhs) && ParseBinary(ts, n, lhs, bp).Yes?
    ensures var r := ParseBinary(ts, n, lhs, bp); Tame(r.value) && Behind(ts, r.next, k)
    ensures var r := ParseBinary(ts, n, lhs, bp); if Peek(ts, n).TMinus? && bp < 5 then Left(ts, r.next) < Left(ts, n) else r.next == n
    decreases |ts| - n, 1
  {
    hide ParseExpr, LiteralAt, LiteralItems, AfterItem, Left, Behind, List, Tame;
    BehindToken(ts, n, k);
    if Peek(ts, n).TMinus? && bp < 5 {
      var e := ParseExpr(ts, n + 1, 5);
      SignedStep(ts, n, k);
      ExprInList(ts, n + 1, 5, k);
      LeftSigned(ts, n, k);
      TameMinus(lhs, e.value);
      BinaryInList(ts, e.next, Bin(Sub, lhs, e.value), bp, k);
    }
  }

  lemma {:induction false} LeftSigned(ts: Toks, n: nat, k: nat)
    requires n <= |ts| && List(ts, n, k) && Peek(ts, n) == TMinus
    ensures n + 2 <= |ts| && Left(ts, n) == 1 + Left(ts, n + 2)
  {
    SignedStep(ts, n, k);
    ListStep(ts, n, k);
    hide LiteralAt, LiteralItems;
    AfterItemFirst(ts, n);
  }

  lemma {:induction false} TameMinus(l: Expr, r: Expr)
    requires Tame(l) && Tame(r)
    ensures Tame(Bin(Sub, l, r))
  {
  }

  lemma {:induction false} ItemsInList(ts: Toks, i: nat, k: nat)
    requires List(ts, i, k) && ParseItems(ts, i).Yes?
    ensures var r := ParseItems(ts, i); r.next == k && |r.value| <= |LiteralItems(ts, i).value| && Tame(Array(r.value))
    decreases |ts| - i, 3
  {
    ParseItemsStep(ts, i);
    if Peek(ts, i) == TRBrack {
      ListEnds(ts, i, k);
    } else {
      hide ParseExpr, ParseItems, LiteralAt, LiteralItems, AfterItem, Left, List, Tame;
      ListStep(ts, i, k);
      var e := ParseExpr(ts, i, 0);
      var n := AfterItem(ts, e.next);
      ExprInList(ts, i, 0, k);
      ItemsInList(ts, n, k);
      LeftIs(ts, e.next);
      TameCons(e.value, ParseItems(ts, n).value);
    }
  }

  lemma {:induction false} LeftIs(ts: Toks, n: nat)
    requires n <= |ts| && LiteralItems(ts, AfterItem(ts, n)).LYes?
    ensures Left(ts, n) == |LiteralItems(ts, AfterItem(ts, n)).value|
  {
  }

  lemma {:induction false} TameCons(e: Expr, es: seq<Expr>)
    requires Tame(e) && Tame(Array(es))
    ensures Tame(Array([e] + es))
  {
  }

  lemma {:induction false} ParseItemsStep(ts: Toks, i: nat)
    requires i <= |ts|
    ensures ParseItems(ts, i) ==
            if Peek(ts, i) == TRBrack then Yes([], i + 1)
            else if ParseExpr(ts, i, 0).No? then No
            else var r := ParseItems(ts, AfterItem(ts, ParseExpr(ts, i, 0).next));
                 if r.No? then No else Yes([ParseExpr(ts, i, 0).value] + r.value, r.next)
  {
    hide ParseExpr, AfterItem;
  }

  // ---------- a document, read both ways ----------

  /** Behind an entry's value stands what may follow it, and a key has its colon. */
  lemma {:induction false} EntryFollowed(ts: Toks, i: nat)
    requires i <= |ts| && LiteralFields(ts, i).LYes? && LiteralFields(ts, i).value != []
    ensures i + 2 <= |ts| && EntryHead(ts, i)
    ensures var j := LiteralAt(ts, i + 2).next;
            && Follower(Peek(ts, j)) && (WordOf(Peek(ts, j)).Some? ==> Peek(ts, j + 1) == TColon)
  {
    hide LiteralAt, LiteralFields, AfterItem;
    FirstEntry(ts, i);
    FieldsFollow(ts, i, 0);
    var j := LiteralAt(ts, i + 2).next;
    AfterItemFirst(ts, j);
    if WordOf(Peek(ts, j)).Some? {
      assert AfterItem(ts, j) == j;
      if LiteralFields(ts, j).value == [] { NoFields(ts, j); } else { FieldsShape(ts, j); }
    }
  }

  lemma {:induction false} ValueTame(ts: Toks, i: nat)
    requires i <= |ts| && LiteralAt(ts, i).LYes? && ParseExpr(ts, i, 0).Yes?
    requires var j := LiteralAt(ts, i).next; Follower(Peek(ts, j)) && (WordOf(Peek(ts, j)).Some? ==> Peek(ts, j + 1) == TColon)
    ensures ParseExpr(ts, i, 0) == ParsePrefix(ts, i) && Tame(ParsePrefix(ts, i).value)
    ensures ParsePrefix(ts, i).next == LiteralAt(ts, i).next
    decreases |ts| - i, 1
  {
    ExprIsPrefix(ts, i);
    LiteralEndsLater(ts, i);
    if i < |ts| && ts[i] == TMinus {
      hide ParsePostfix, ParseBinary, Follower, LiteralItems, LiteralFields, ParseExpr;
      MinusPrefix(ts, i);
      NumberAlone(ts, i + 1);
    } else if i < |ts| && (ts[i] == TLBrack || ts[i] == TLBrace) {
      hide *;
      EnclosedTame(ts, i);
    } else {
      hide LiteralItems, LiteralFields, ParseExpr, ParseItems, ParseFields, ParseArgs, ParseInvoke, ParseParts;
      AtomTame(ts, i);
    }
  }

  lemma {:induction false} ExprIsPrefix(ts: Toks, i: nat)
    requires i <= |ts| && LiteralAt(ts, i).LYes? && ParseExpr(ts, i, 0).Yes?
    requires var j := LiteralAt(ts, i).next; Follower(Peek(ts, j)) && (WordOf(Peek(ts, j)).Some? ==> Peek(ts, j + 1) == TColon)
    ensures ParseExpr(ts, i, 0) == ParsePrefix(ts, i) && ParsePrefix(ts, i).next == LiteralAt(ts, i).next
  {
    hide LiteralAt, ParsePrefix, ParsePostfix, ParseBinary;
    var j := LiteralAt(ts, i).next;
    var lhs := ParsePrefix(ts, i).value;
    PrefixEndsAtLiteral(ts, i);
    FollowerStops(ts, j, lhs, 0);
    if OpOf(Peek(ts, j)).Some? { OperatorThenColon(ts, j, lhs); }
  }

  lemma {:induction false} NumberAlone(ts: Toks, i: nat)
    requires i < |ts| && ts[i].TNum? && Follower(Peek(ts, i + 1)) && ParseExpr(ts, i, UNARY_POWER).Yes?
    ensures ParseExpr(ts, i, UNARY_POWER) == Yes(Lit(Num(ts[i].n)), i + 1)
  {
    hide ParseItems, ParseFields, ParseArgs, ParseInvoke, ParseParts;
    var lhs := Lit(Num(ts[i].n));
    assert ParsePrefix(ts, i) == Yes(lhs, i + 1);
    FollowerStops(ts, i + 1, lhs, UNARY_POWER);
  }

  lemma {:induction false} FieldsInDoc(ts: Toks, i: nat)
    requires i <= |ts| && LiteralFields(ts, i).LYes? && ParseFields(ts, i).Yes?
    ensures var r := ParseFields(ts, i); r.next == LiteralFields(ts, i).next && Tame(Doc(r.value))
    decreases |ts| - i, 4
  {
    hide ParseExpr, ParseEntry, ParseFields, ParsePrefix, LiteralAt, LiteralFields, AfterItem, Tame, Follower, WordOf;
    ParseFieldsStep(ts, i);
    if LiteralFields(ts, i).value == [] {
      NoFields(ts, i);
      TameNothing();
    } else {
      FirstEntry(ts, i);
      EntryFollowed(ts, i);
      EntryIs(ts, i);
      ValueTame(ts, i + 2);
      var k := AfterItem(ts, LiteralAt(ts, i + 2).next);
      FieldsInDoc(ts, k);
      TameEntry(ParseEntry(ts, i).value, ParseFields(ts, k).value);
    }
  }

  lemma {:induction false} TameNothing()
    ensures Tame(Doc([]))
  {
  }

  lemma {:induction false} TameEntry(f: Entry, fs: seq<Entry>)
    requires Tame(f.value) && Tame(Doc(fs))
    ensures Tame(Doc([f] + fs))
  {
  }

  lemma {:induction false} EntryIs(ts: Toks, i: nat)
    requires i <= |ts| && EntryHead(ts, i) && ParseEntry(ts, i).Yes?
    ensures i + 2 <= |ts| && ParseExpr(ts, i + 2, 0).Yes?
    ensures ParseEntry(ts, i) == Yes(Entry(WordOf(Peek(ts, i)).value, ParseExpr(ts, i + 2, 0).value), ParseExpr(ts, i + 2, 0).next)
  {
    hide ParseExpr, LiteralAt, WordOf;
  }

  lemma {:induction false} ParseFieldsStep(ts: Toks, i: nat)
    requires i <= |ts|
    ensures ParseFields(ts, i) ==
            if Peek(ts, i) == TRBrace then Yes([], i + 1)
            else if ParseEntry(ts, i).No? then No
            else var r := ParseFields(ts, AfterItem(ts, ParseEntry(ts, i).next));
                 if r.No? then No else Yes([ParseEntry(ts, i).value] + r.value, r.next)
  {
    hide ParseEntry, AfterItem;
  }

  // ---------- the two readings ----------

  /** An element read both ways, where nothing goes on behind it. */
  lemma {:induction false} PrefixAlike(ts: Toks, i: nat)
    requires i < |ts| && LiteralAt(ts, i).LYes? && ParsePrefix(ts, i).Yes?
    requires ts[i] == TMinus ==> ParsePrefix(ts, i) == Yes(Unary(Neg, Lit(Num(Peek(ts, i + 1).n))), i + 2) && Peek(ts, i + 1).TNum?
    ensures Worth(ParsePrefix(ts, i).value) == LiteralAt(ts, i).value <==> !JoinedAt(ts, i)
    decreases |ts| - i, 1
  {
    hide LiteralItems, LiteralFields, ParseExpr, ParseItems, ParseFields, ParseArgs, ParseInvoke, ParseParts, SkipNewlines, MapOf,
      JoinedItems, JoinedFields, WorthAll, WorthEntries;
    if ts[i] == TLBrack {
      ItemsAlike(ts, SkipNewlines(ts, i + 1));
    } else if ts[i] == TLBrace {
      FieldsAlike(ts, SkipNewlines(ts, i + 1));
    } else if ts[i] != TMinus {
      AtomTame(ts, i);
    }
  }

  lemma {:induction false} ItemsAlike(ts: Toks, i: nat)
    requires i <= |ts| && LiteralItems(ts, i).LYes? && ParseItems(ts, i).Yes?
    ensures WorthAll(ParseItems(ts, i).value) == LiteralItems(ts, i).value <==> !JoinedItems(ts, i)
    decreases |ts| - i, 3
  {
    var k := LiteralItems(ts, i).next;
    ParseItemsStep(ts, i);
    if Peek(ts, i) == TRBrack {
      ListEnds(ts, i, k);
    } else {
      hide ParseExpr, ParseItems, LiteralAt, LiteralItems, AfterItem, Left, Tame, Worth, JoinedAt, Behind;
      assert List(ts, i, k);
      ListStep(ts, i, k);
      ExprInList(ts, i, 0, k);
      var e := ParseExpr(ts, i, 0);
      var j := LiteralAt(ts, i).next;
      if Joins(Peek(ts, j)) {
        FewerItems(ts, i, k);
      } else {
        BehindList(ts, j, k);
        ItemsAlike(ts, AfterItem(ts, j));
        ElementAlike(ts, i, k);
        ConsAlike(e.value, ParseItems(ts, AfterItem(ts, j)).value, LiteralAt(ts, i).value, LiteralItems(ts, AfterItem(ts, j)).value);
      }
    }
  }

  lemma {:induction false} BehindList(ts: Toks, n: nat, k: nat)
    requires Behind(ts, n, k)
    ensures LiteralItems(ts, AfterItem(ts, n)).LYes?
  {
    hide LiteralItems, AfterItem;
  }

  /** Where an element goes on, the expression has fewer elements than the literal. */
  lemma {:induction false} FewerItems(ts: Toks, i: nat, k: nat)
    requires List(ts, i, k) && Peek(ts, i) != TRBrack && ParseItems(ts, i).Yes? && LiteralAt(ts, i).LYes?
    requires Joins(Peek(ts, LiteralAt(ts, i).next))
    ensures |ParseItems(ts, i).value| < |LiteralItems(ts, i).value|
  {
    hide ParseExpr, ParseItems, LiteralAt, LiteralItems, AfterItem, Tame, List;
    ParseItemsStep(ts, i);
    ListStep(ts, i, k);
    ExprInList(ts, i, 0, k);
    var n := ParseExpr(ts, i, 0).next;
    BehindList(ts, n, k);
    LeftIs(ts, n);
    ItemsInList(ts, AfterItem(ts, n), k);
  }

  lemma {:induction false} ConsAlike(e: Expr, es: seq<Expr>, v: Value, vs: seq<Value>)
    ensures WorthAll([e] + es) == [v] + vs <==> Worth(e) == v && WorthAll(es) == vs
  {
    hide Worth;
    assert ([e] + es)[1..] == es;
    var x, y := [Worth(e)] + WorthAll(es), [v] + vs;
    assert x[0] == Worth(e) && x[1..] == WorthAll(es) && y[0] == v && y[1..] == vs;
  }

  lemma {:induction false} ElementAlike(ts: Toks, i: nat, k: nat)
    requires List(ts, i, k) && Peek(ts, i) != TRBrack && ParseExpr(ts, i, 0).Yes? && LiteralAt(ts, i).LYes?
    requires !Joins(Peek(ts, LiteralAt(ts, i).next))
    ensures Worth(ParseExpr(ts, i, 0).value) == LiteralAt(ts, i).value <==> !JoinedAt(ts, i)
    decreases |ts| - i, 2
  {
    hide LiteralAt, LiteralItems, AfterItem, ParsePrefix, ParseExpr, Worth, JoinedAt, Tame, List, Behind, Left, WordOf;
    ListStep(ts, i, k);
    var j := LiteralAt(ts, i).next;
    BehindToken(ts, j, k);
    ElementIsPrefix(ts, i, k);
    if ts[i] == TMinus {
      SignedStep(ts, i, k);
      MinusPrefix(ts, i);
      NumberBefore(ts, i + 1);
    }
    PrefixAlike(ts, i);
  }

  lemma {:induction false} NumberBefore(ts: Toks, i: nat)
    requires i < |ts| && ts[i].TNum? && MayFollow(Peek(ts, i + 1)) && !Joins(Peek(ts, i + 1)) && ParseExpr(ts, i, UNARY_POWER).Yes?
    ensures ParseExpr(ts, i, UNARY_POWER) == Yes(Lit(Num(ts[i].n)), i + 1)
  {
    hide ParseItems, ParseFields, ParseArgs, ParseInvoke, ParseParts;
    assert ParsePrefix(ts, i) == Yes(Lit(Num(ts[i].n)), i + 1);
    NothingFollows(ts, i + 1, Lit(Num(ts[i].n)), UNARY_POWER);
  }

  lemma {:induction false} NothingFollows(ts: Toks, i: nat, lhs: Expr, bp: nat)
    requires i <= |ts| && MayFollow(Peek(ts, i)) && !Joins(Peek(ts, i))
    ensures ParsePostfix(ts, i, lhs) == Yes(lhs, i) && ParseBinary(ts, i, lhs, bp) == Yes(lhs, i)
  {
    hide ParseExpr;
  }

  lemma {:induction false} ElementIsPrefix(ts: Toks, i: nat, k: nat)
    requires List(ts, i, k) && Peek(ts, i) != TRBrack && ParseExpr(ts, i, 0).Yes? && LiteralAt(ts, i).LYes?
    requires MayFollow(Peek(ts, LiteralAt(ts, i).next)) && !Joins(Peek(ts, LiteralAt(ts, i).next))
    ensures ParseExpr(ts, i, 0) == ParsePrefix(ts, i)
  {
    hide LiteralAt, LiteralItems, AfterItem, ParsePrefix, ParsePostfix, ParseBinary, Tame, List, Behind, Left;
    PrefixInList(ts, i, k);
    NothingFollows(ts, LiteralAt(ts, i).next, ParsePrefix(ts, i).value, 0);
  }

  lemma {:induction false} FieldsAlike(ts: Toks, i: nat)
    requires i <= |ts| && LiteralFields(ts, i).LYes? && ParseFields(ts, i).Yes?
    ensures WorthEntries(ParseFields(ts, i).value).Keys == MapOf(LiteralFields(ts, i).value).Keys
    ensures WorthEntries(ParseFields(ts, i).value) == MapOf(LiteralFields(ts, i).value) <==> !JoinedFields(ts, i)
    decreases |ts| - i, 4
  {
    hide ParseExpr, ParseEntry, ParseFields, ParsePrefix, LiteralAt, LiteralFields, AfterItem, Tame, Follower, WordOf, Worth, WorthEntries,
      MapOf, JoinedAt, JoinedFields;
    ParseFieldsStep(ts, i);
    if LiteralFields(ts, i).value == [] {
      NoFields(ts, i);
      NothingAlike(ts, i);
    } else {
      FirstEntry(ts, i);
      EntryFollowed(ts, i);
      EntryIs(ts, i);
      ValueAlike(ts, i + 2);
      var k := AfterItem(ts, LiteralAt(ts, i + 2).next);
      FieldsAlike(ts, k);
      JoinedStep(ts, i);
      EntryAlike(ParseEntry(ts, i).value, ParseFields(ts, k).value, LiteralFields(ts, i).value[0], LiteralFields(ts, k).value);
    }
  }

  lemma {:induction false} NothingAlike(ts: Toks, i: nat)
    requires i <= |ts| && Peek(ts, i) == TRBrace
    ensures WorthEntries([]) == MapOf([]) && !JoinedFields(ts, i)
  {
  }

  lemma {:induction false} JoinedStep(ts: Toks, i: nat)
    requires i + 2 <= |ts| && EntryHead(ts, i) && LiteralFields(ts, AfterItem(ts, LiteralAt(ts, i + 2).next)).LYes?
    ensures var k := AfterItem(ts, LiteralAt(ts, i + 2).next);
            JoinedFields(ts, i) <==>
            || (JoinedAt(ts, i + 2) && WordOf(Peek(ts, i)).value !in MapOf(LiteralFields(ts, k).value))
            || JoinedFields(ts, k)
  {
    hide LiteralAt, LiteralFields, AfterItem, WordOf, MapOf, JoinedAt;
  }

  /** Maps with the same keys, each with one entry laid under it. */
  lemma {:induction false} EntryAlike(e: Entry, es: seq<Entry>, f: LField, fs: seq<LField>)
    requires e.key == f.key && WorthEntries(es).Keys == MapOf(fs).Keys
    ensures WorthEntries([e] + es).Keys == MapOf([f] + fs).Keys
    ensures WorthEntries([e] + es) == MapOf([f] + fs) <==>
            WorthEntries(es) == MapOf(fs) && (f.key in MapOf(fs) || Worth(e.value) == f.value)
  {
    hide Worth;
    assert ([e] + es)[1..] == es && ([f] + fs)[1..] == fs;
    var m, n := WorthEntries(es), MapOf(fs);
    var x, y := map[e.key := Worth(e.value)] + m, map[f.key := f.value] + n;
    assert WorthEntries([e] + es) == x && MapOf([f] + fs) == y;
    if x == y {
      forall k | k in m ensures m[k] == n[k] { assert m[k] == x[k] && n[k] == y[k]; }
      if f.key !in n { assert x[f.key] == Worth(e.value) && y[f.key] == f.value; }
    }
  }

  lemma {:induction false} ValueAlike(ts: Toks, i: nat)
    requires i <= |ts| && LiteralAt(ts, i).LYes? && ParseExpr(ts, i, 0).Yes?
    requires var j := LiteralAt(ts, i).next; Follower(Peek(ts, j)) && (WordOf(Peek(ts, j)).Some? ==> Peek(ts, j + 1) == TColon)
    ensures ParseExpr(ts, i, 0).next == LiteralAt(ts, i).next && Tame(ParseExpr(ts, i, 0).value)
    ensures Worth(ParseExpr(ts, i, 0).value) == LiteralAt(ts, i).value <==> !JoinedAt(ts, i)
    decreases |ts| - i, 2
  {
    ValueTame(ts, i);
    LiteralEndsLater(ts, i);
    if ts[i] == TMinus {
      hide ParsePostfix, ParseBinary, Follower, LiteralItems, LiteralFields, ParseExpr, JoinedAt, Worth, Tame;
      MinusPrefix(ts, i);
      NumberAlone(ts, i + 1);
    }
    hide *;
    PrefixAlike(ts, i);
  }

  /**
   * The two readings of one literal. Where the tokens of a surface constant's literal also parse
   * as an expression, they do so up to the same token, and the expression evaluates to the
   * literal, in any world and pipeline, exactly when no element of a list that counts is directly
   * followed by `-` or `[`.
   */
  lemma {:induction false} ReadingsAgree(ts: Toks, i: nat, w: World, vars: Vars, pkg: string, depth: nat)
    requires i <= |ts| && LiteralAt(ts, i).LYes? && Peek(ts, LiteralAt(ts, i).next) == TNewline && ParseExpr(ts, i, 0).Yes?
    requires depth <= P.MAX_DEPTH
    ensures ParseExpr(ts, i, 0).next == LiteralAt(ts, i).next
    ensures P.Eval(w, ParseExpr(ts, i, 0).value, vars, pkg, depth).res == Ok(LiteralAt(ts, i).value) <==> !JoinedAt(ts, i)
  {
    assert Follower(TNewline) && WordOf(TNewline).None?;
    hide LiteralAt, ParseExpr, JoinedAt, Worth, Tame, P.Eval;
    ValueAlike(ts, i);
    EvalWorth(w, ParseExpr(ts, i, 0).value, vars, pkg, depth);
  }

  /** `[5 - 3]`: two elements as a literal, the one element 2 as an expression. */
  lemma {:induction false} MinusInList(w: World, vars: Vars, pkg: string, depth: nat)
    requires depth <= P.MAX_DEPTH
    ensures var ts := [TLBrack, TNum(5.0), TMinus, TNum(3.0), TRBrack, TNewline];
            && LiteralAt(ts, 0) == LYes(Arr([Num(5.0), Num(-3.0)]), 5) && JoinedAt(ts, 0)
            && ParseExpr(ts, 0, 0) == Yes(Array([Bin(Sub, Lit(Num(5.0)), Lit(Num(3.0)))]), 5)
            && P.Eval(w, ParseExpr(ts, 0, 0).value, vars, pkg, depth).res == Ok(Arr([Num(2.0)]))
  {
    hide LiteralAt, ParseExpr, P.Eval, JoinedAt, Worth, Tame;
    var ts := [TLBrack, TNum(5.0), TMinus, TNum(3.0), TRBrack, TNewline];
    FiveThreeLiteral(ts);
    FiveThreeExpr(ts);
    FiveThreeWorth();
    EvalWorth(w, Array([Bin(Sub, Lit(Num(5.0)), Lit(Num(3.0)))]), vars, pkg, depth);
  }

  lemma {:induction false} FiveThreeWorth()
    ensures var e := Array([Bin(Sub, Lit(Num(5.0)), Lit(Num(3.0)))]); Tame(e) && Worth(e) == Arr([Num(2.0)])
  {
    var d := Bin(Sub, Lit(Num(5.0)), Lit(Num(3.0)));
    assert Worth(d) == Num(2.0) && Tame(d);
    assert [d][1..] == [];
    assert WorthAll([d]) == [Num(2.0)] + WorthAll([]);
  }

  lemma {:induction false} FiveThreeLiteral(ts: Toks)
    requires ts == [TLBrack, TNum(5.0), TMinus, TNum(3.0), TRBrack, TNewline]
    ensures LiteralAt(ts, 0) == LYes(Arr([Num(5.0), Num(-3.0)]), 5) && JoinedAt(ts, 0)
  {
    SkipTo(ts, 1, 1);
    SkipTo(ts, 2, 2);
    SkipTo(ts, 4, 4);
    hide LiteralFields, SkipNewlines;
    assert LiteralAt(ts, 1) == LYes(Num(5.0), 2);
    assert LiteralAt(ts, 2) == LYes(Num(-3.0), 4);
    hide LiteralAt;
    ItemsUnroll(ts, 1);
    ItemsUnroll(ts, 2);
    assert LiteralItems(ts, 4) == LYes([], 5);
    assert [Num(5.0)] + ([Num(-3.0)] + []) == [Num(5.0), Num(-3.0)];
    FiveThreeTop(ts);
  }

  lemma {:induction false} FiveThreeTop(ts: Toks)
    requires |ts| == 6 && ts[0] == TLBrack && ts[2] == TMinus && SkipNewlines(ts, 1) == 1 && ts[1].TNum?
    requires LiteralItems(ts, 1) == LYes([Num(5.0), Num(-3.0)], 5)
    ensures LiteralAt(ts, 0) == LYes(Arr([Num(5.0), Num(-3.0)]), 5) && JoinedAt(ts, 0)
  {
    hide LiteralItems, LiteralFields, SkipNewlines;
    assert LiteralAt(ts, 1).LYes? && LiteralAt(ts, 1).next == 2;
  }

  lemma {:induction false} FiveThreeExpr(ts: Toks)
    requires ts == [TLBrack, TNum(5.0), TMinus, TNum(3.0), TRBrack, TNewline]
    ensures ParseExpr(ts, 0, 0) == Yes(Array([Bin(Sub, Lit(Num(5.0)), Lit(Num(3.0)))]), 5)
  {
    hide ParseExpr, ParseItems, SkipNewlines;
    SkipTo(ts, 1, 1);
    SkipTo(ts, 4, 4);
    var e := Bin(Sub, Lit(Num(5.0)), Lit(Num(3.0)));
    DifferenceReads(ts);
    ParseItemsStep(ts, 1);
    ParseItemsStep(ts, 4);
    assert [e] + [] == [e];
    ListReads(ts, [e]);
  }

  lemma {:induction false} PlainNumber(ts: Toks, i: nat, bp: nat)
    requires i < |ts| && ts[i].TNum? && MayFollow(Peek(ts, i + 1)) && !Joins(Peek(ts, i + 1))
    ensures ParseExpr(ts, i, bp) == Yes(Lit(Num(ts[i].n)), i + 1)
  {
    hide ParseItems, ParseFields, ParseArgs, ParseInvoke, ParseParts;
    assert ParsePrefix(ts, i) == Yes(Lit(Num(ts[i].n)), i + 1);
    NothingFollows(ts, i + 1, Lit(Num(ts[i].n)), bp);
  }

  lemma {:induction false} DifferenceReads(ts: Toks)
    requires ts == [TLBrack, TNum(5.0), TMinus, TNum(3.0), TRBrack, TNewline]
    ensures ParseExpr(ts, 1, 0) == Yes(Bin(Sub, Lit(Num(5.0)), Lit(Num(3.0))), 4)
  {
    var five, three := Lit(Num(5.0)), Lit(Num(3.0));
    PlainNumber(ts, 3, 5);
    NothingFollows(ts, 4, Bin(Sub, five, three), 0);
    hide ParseItems, ParseFields, ParseArgs, ParseInvoke, ParseParts;
    assert ParsePrefix(ts, 1) == Yes(five, 2);
    assert ParsePostfix(ts, 2, five) == Yes(five, 2);
    assert ParseBinary(ts, 2, five, 0) == Yes(Bin(Sub, five, three), 4);
  }

  lemma {:induction false} ListReads(ts: Toks, es: seq<Expr>)
    requires |ts| == 6 && ts[0] == TLBrack && ts[5] == TNewline && SkipNewlines(ts, 1) == 1 && ParseItems(ts, 1) == Yes(es, 5)
    ensures ParseExpr(ts, 0, 0) == Yes(Array(es), 5)
  {
    NothingFollows(ts, 5, Array(es), 0);
    hide ParseItems, ParseFields, ParseArgs, ParseInvoke, ParseParts, SkipNewlines, ParsePostfix, ParseBinary;
    assert ParsePrefix(ts, 0) == Yes(Array(es), 5);
  }
}
