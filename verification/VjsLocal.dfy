// What the VejasScript parser looks at (core/src/vjs.rs): a parse that succeeds depends only on
// the tokens it consumes and the one after them, wherever in the file they stand. This is what
// makes editing one literal safe for every other line.

module VjsLocal {
  import opened Wrappers
  import opened VjsSyntax
  import opened VjsParser
  import opened VjsProgram

  /** From token `i` up to `n`, `us` holds the tokens of `ts` moved by `d`; both go on there, or both end alike. */
  ghost predicate Same(ts: Toks, us: Toks, i: nat, n: nat, d: int) {
    && 0 <= i + d
    && ((n <= |ts| && n + d <= |us|) || |us| == |ts| + d)
    && forall k: nat :: i <= k < n ==> Peek(us, k + d) == Peek(ts, k)
  }

  lemma {:induction false} SameFrom(ts: Toks, us: Toks, i: nat, j: nat, n: nat, d: int)
    requires Same(ts, us, i, n, d) && i <= j
    ensures Same(ts, us, j, n, d)
  {
  }

  lemma {:induction false} SamePeek(ts: Toks, us: Toks, i: nat, n: nat, d: int, k: nat)
    requires Same(ts, us, i, n, d) && i <= k < n
    ensures 0 <= k + d && Peek(us, k + d) == Peek(ts, k) && (k <= |ts| ==> k + d <= |us|)
  {
  }

  /** The same thing was parsed, `d` tokens away. */
  ghost predicate Moved<T>(r: Parsed<T>, r': Parsed<T>, d: int) {
    r.Yes? && r'.Yes? && r'.value == r.value && r'.next == r.next + d
  }

  lemma {:induction false} SkipSame(ts: Toks, us: Toks, i: nat, n: nat, d: int)
    requires i <= |ts| && Same(ts, us, i, n, d) && SkipNewlines(ts, i) < n
    ensures i + d <= |us| && SkipNewlines(us, i + d) == SkipNewlines(ts, i) + d
    decreases |ts| - i
  {
    assert Peek(us, i + d) == Peek(ts, i);
    if i < |ts| && ts[i] == TNewline {
      SkipSame(ts, us, i + 1, n, d);
    }
  }

  lemma {:induction false} AfterItemSame(ts: Toks, us: Toks, i: nat, n: nat, d: int)
    requires i <= |ts| && Same(ts, us, i, n, d) && AfterItem(ts, i) < n
    ensures i + d <= |us| && AfterItem(us, i + d) == AfterItem(ts, i) + d
  {
    hide SkipNewlines;
    var k := SkipNewlines(ts, i);
    SkipSame(ts, us, i, n, d);
    assert Peek(us, k + d) == Peek(ts, k);
    if Peek(ts, k) == TComma { SkipSame(ts, us, k + 1, n, d); }
  }

  // ---------- expressions ----------

  lemma {:induction false} ExprSame(ts: Toks, us: Toks, i: nat, bp: nat, n: nat, d: int)
    requires i <= |ts| && Same(ts, us, i, n, d)
    requires ParseExpr(ts, i, bp).Yes? && ParseExpr(ts, i, bp).next < n
    ensures i + d <= |us| && Moved(ParseExpr(ts, i, bp), ParseExpr(us, i + d, bp), d)
    decreases |ts| - i, 2
  {
    hide ParsePrefix, ParsePostfix, ParseBinary;
    var p := ParsePrefix(ts, i);
    var q := ParsePostfix(ts, p.next, p.value);
    BinaryAdvances(ts, q.next, q.value, bp);
    PrefixSame(ts, us, i, n, d);
    PostfixSame(ts, us, p.next, p.value, n, d);
    BinarySame(ts, us, q.next, q.value, bp, n, d);
  }

  lemma {:induction false} BinaryAdvances(ts: Toks, i: nat, lhs: Expr, bp: nat)
    requires i <= |ts|
    ensures ParseBinary(ts, i, lhs, bp).Yes? ==> i <= ParseBinary(ts, i, lhs, bp).next
  {
  }

  lemma {:induction false} PrefixSame(ts: Toks, us: Toks, i: nat, n: nat, d: int)
    requires i <= |ts| && Same(ts, us, i, n, d)
    requires ParsePrefix(ts, i).Yes? && ParsePrefix(ts, i).next < n
    ensures i + d <= |us| && Moved(ParsePrefix(ts, i), ParsePrefix(us, i + d), d)
    decreases |ts| - i, 1
  {
    assert Peek(us, i + d) == Peek(ts, i);
    if i < |ts| && Opening(ts[i]) {
      hide *;
      EnclosedSame(ts, us, i, n, d);
    } else {
      hide ParseExpr, ParseItems, ParseFields, ParseArgs, ParseInvoke, SkipNewlines, ParseParts;
      PlainPrefixSame(ts, us, i, n, d);
    }
  }

  predicate Opening(t: Tok) { t.TLParen? || t.TLBrack? || t.TLBrace? }

  lemma {:induction false} EnclosedSame(ts: Toks, us: Toks, i: nat, n: nat, d: int)
    requires i < |ts| && Same(ts, us, i, n, d) && Opening(ts[i])
    requires ParsePrefix(ts, i).Yes? && ParsePrefix(ts, i).next < n
    ensures i + d <= |us| && Moved(ParsePrefix(ts, i), ParsePrefix(us, i + d), d)
    decreases |ts| - i, 0
  {
    hide ParseExpr, ParseItems, ParseFields, ParseArgs, ParseInvoke, SkipNewlines, ParseParts;
    assert Peek(us, i + d) == Peek(ts, i);
    var k := SkipNewlines(ts, i + 1);
    match ts[i]
    case TLParen =>
      var e := ParseExpr(ts, i + 1, 0);
      ExprSame(ts, us, i + 1, 0, n, d);
      assert Peek(us, e.next + d) == Peek(ts, e.next);
    case TLBrack =>
      SkipSame(ts, us, i + 1, n, d);
      ItemsSame(ts, us, k, n, d);
    case TLBrace =>
      SkipSame(ts, us, i + 1, n, d);
      FieldsSame(ts, us, k, n, d);
  }

  lemma {:induction false} PlainPrefixSame(ts: Toks, us: Toks, i: nat, n: nat, d: int)
    requires i < |ts| && Same(ts, us, i, n, d) && !Opening(ts[i])
    requires ParsePrefix(ts, i).Yes? && ParsePrefix(ts, i).next < n
    ensures i + d <= |us| && Moved(ParsePrefix(ts, i), ParsePrefix(us, i + d), d)
    decreases |ts| - i, 0
  {
    hide ParseExpr, ParseItems, ParseFields, ParseArgs, ParseInvoke, SkipNewlines, ParseParts;
    assert Peek(us, i + d) == Peek(ts, i);
    assert Peek(us, i + 1 + d) == Peek(ts, i + 1);
    match ts[i]
    case TNot => ExprSame(ts, us, i + 1, UNARY_POWER, n, d);
    case TMinus => ExprSame(ts, us, i + 1, UNARY_POWER, n, d);
    case TInvoke => InvokeSame(ts, us, i + 1, n, d);
    case TIdent(name) =>
      if Peek(ts, i + 1) == TLParen { ArgsSame(ts, us, i + 2, n, d); }
    case _ =>
  }

  lemma {:induction false} PostfixSame(ts: Toks, us: Toks, i: nat, lhs: Expr, n: nat, d: int)
    requires i <= |ts| && Same(ts, us, i, n, d)
    requires ParsePostfix(ts, i, lhs).Yes? && ParsePostfix(ts, i, lhs).next < n
    ensures i + d <= |us| && Moved(ParsePostfix(ts, i, lhs), ParsePostfix(us, i + d, lhs), d)
    decreases |ts| - i, 1
  {
    hide ParsePostfix, ParseExpr;
    PostfixStep(ts, i, lhs);
    assert Peek(us, i + d) == Peek(ts, i);
    PostfixStep(us, i + d, lhs);
    match Peek(ts, i)
    case TDot => AppendFieldSame(ts, us, i, lhs, false, n, d);
    case TQDot => AppendFieldSame(ts, us, i, lhs, true, n, d);
    case TLBrack => AppendBracketSame(ts, us, i, lhs, n, d);
    case _ =>
  }

  lemma {:induction false} AppendFieldSame(ts: Toks, us: Toks, i: nat, lhs: Expr, safe: bool, n: nat, d: int)
    requires i < |ts| && Same(ts, us, i, n, d)
    requires AppendField(ts, i, lhs, safe).Yes? && AppendField(ts, i, lhs, safe).next < n
    ensures i + d < |us| && Moved(AppendField(ts, i, lhs, safe), AppendField(us, i + d, lhs, safe), d)
    decreases |ts| - i, 0
  {
    hide ParsePostfix, ParseExpr;
    var w := WordOf(Peek(ts, i + 1));
    assert Peek(us, i + 1 + d) == Peek(ts, i + 1);
    PostfixSame(ts, us, i + 2, Field(lhs, w.value, safe), n, d);
  }

  lemma {:induction false} AppendBracketSame(ts: Toks, us: Toks, i: nat, lhs: Expr, n: nat, d: int)
    requires i < |ts| && Same(ts, us, i, n, d)
    requires AppendBracket(ts, i, lhs).Yes? && AppendBracket(ts, i, lhs).next < n
    ensures i + d < |us| && Moved(AppendBracket(ts, i, lhs), AppendBracket(us, i + d, lhs), d)
    decreases |ts| - i, 0
  {
    hide ParsePostfix, ParseExpr;
    assert Peek(us, i + 1 + d) == Peek(ts, i + 1);
    if Peek(ts, i + 1) == TRBrack {
      PostfixSame(ts, us, i + 2, Projection(lhs), n, d);
    } else {
      var e := ParseExpr(ts, i + 1, 0);
      ExprSame(ts, us, i + 1, 0, n, d);
      assert Peek(us, e.next + d) == Peek(ts, e.next);
      PostfixSame(ts, us, e.next + 1, Bracketed(lhs, e.value), n, d);
    }
  }

  lemma {:induction false} BinarySame(ts: Toks, us: Toks, i: nat, lhs: Expr, bp: nat, n: nat, d: int)
    requires i <= |ts| && Same(ts, us, i, n, d)
    requires ParseBinary(ts, i, lhs, bp).Yes? && ParseBinary(ts, i, lhs, bp).next < n
    ensures i + d <= |us| && Moved(ParseBinary(ts, i, lhs, bp), ParseBinary(us, i + d, lhs, bp), d)
    decreases |ts| - i, 1
  {
    hide ParseExpr, OpOf;
    assert Peek(us, i + d) == Peek(ts, i);
    if OpOf(Peek(ts, i)).Some? && OpOf(Peek(ts, i)).value.1 > bp {
      var (op, power) := OpOf(Peek(ts, i)).value;
      var e := ParseExpr(ts, i + 1, power);
      BinaryAdvances(ts, e.next, Bin(op, lhs, e.value), bp);
      ExprSame(ts, us, i + 1, power, n, d);
      BinarySame(ts, us, e.next, Bin(op, lhs, e.value), bp, n, d);
    }
  }

  lemma {:induction false} ItemsSame(ts: Toks, us: Toks, i: nat, n: nat, d: int)
    requires i <= |ts| && Same(ts, us, i, n, d)
    requires ParseItems(ts, i).Yes? && ParseItems(ts, i).next < n
    ensures i + d <= |us| && Moved(ParseItems(ts, i), ParseItems(us, i + d), d)
    decreases |ts| - i, 3
  {
    hide ParseExpr, AfterItem;
    assert Peek(us, i + d) == Peek(ts, i);
    if Peek(ts, i) != TRBrack {
      var e := ParseExpr(ts, i, 0);
      var k := AfterItem(ts, e.next);
      ExprSame(ts, us, i, 0, n, d);
      AfterItemSame(ts, us, e.next, n, d);
      ItemsSame(ts, us, k, n, d);
    }
  }

  lemma {:induction false} ArgsSame(ts: Toks, us: Toks, i: nat, n: nat, d: int)
    requires i <= |ts| && Same(ts, us, i, n, d)
    requires ParseArgs(ts, i).Yes? && ParseArgs(ts, i).next < n
    ensures i + d <= |us| && Moved(ParseArgs(ts, i), ParseArgs(us, i + d), d)
    decreases |ts| - i, 3
  {
    hide ParseExpr;
    assert Peek(us, i + d) == Peek(ts, i);
    if Peek(ts, i) != TRParen {
      var e := ParseExpr(ts, i, 0);
      var k := AfterArg(ts, e.next);
      ExprSame(ts, us, i, 0, n, d);
      assert Peek(us, e.next + d) == Peek(ts, e.next);
      ArgsSame(ts, us, k, n, d);
    }
  }

  lemma {:induction false} EntrySame(ts: Toks, us: Toks, i: nat, n: nat, d: int)
    requires i <= |ts| && Same(ts, us, i, n, d)
    requires ParseEntry(ts, i).Yes? && ParseEntry(ts, i).next < n
    ensures i + d <= |us| && Moved(ParseEntry(ts, i), ParseEntry(us, i + d), d)
    decreases |ts| - i, 3
  {
    hide ParseExpr;
    assert Peek(us, i + d) == Peek(ts, i);
    assert Peek(us, i + 1 + d) == Peek(ts, i + 1);
    ExprSame(ts, us, i + 2, 0, n, d);
  }

  lemma {:induction false} FieldsSame(ts: Toks, us: Toks, i: nat, n: nat, d: int)
    requires i <= |ts| && Same(ts, us, i, n, d)
    requires ParseFields(ts, i).Yes? && ParseFields(ts, i).next < n
    ensures i + d <= |us| && Moved(ParseFields(ts, i), ParseFields(us, i + d), d)
    decreases |ts| - i, 4
  {
    hide ParseEntry, AfterItem;
    assert Peek(us, i + d) == Peek(ts, i);
    if Peek(ts, i) != TRBrace {
      var e := ParseEntry(ts, i);
      var k := AfterItem(ts, e.next);
      EntrySame(ts, us, i, n, d);
      AfterItemSame(ts, us, e.next, n, d);
      FieldsSame(ts, us, k, n, d);
    }
  }

  lemma {:induction false} NamedSame(ts: Toks, us: Toks, i: nat, n: nat, d: int)
    requires i <= |ts| && Same(ts, us, i, n, d)
    requires ParseNamed(ts, i).Yes? && ParseNamed(ts, i).next < n
    ensures i + d <= |us| && Moved(ParseNamed(ts, i), ParseNamed(us, i + d), d)
    decreases |ts| - i, 4
  {
    hide ParseEntry, Same;
    SamePeek(ts, us, i, n, d, i);
    if Peek(ts, i) != TRParen {
      var e := ParseEntry(ts, i);
      var k := AfterArg(ts, e.next);
      EntrySame(ts, us, i, n, d);
      SamePeek(ts, us, i, n, d, e.next);
      SameFrom(ts, us, i, k, n, d);
      NamedSame(ts, us, k, n, d);
    }
  }

  lemma {:induction false} InvokeSame(ts: Toks, us: Toks, i: nat, n: nat, d: int)
    requires i <= |ts| && Same(ts, us, i, n, d)
    requires ParseInvoke(ts, i).Yes? && ParseInvoke(ts, i).next < n
    ensures i + d <= |us| && Moved(ParseInvoke(ts, i), ParseInvoke(us, i + d), d)
    decreases |ts| - i, 5
  {
    hide ParseNamed;
    assert Peek(us, i + d) == Peek(ts, i);
    assert Peek(us, i + 1 + d) == Peek(ts, i + 1);
    assert i + 2 < n ==> Peek(us, i + 2 + d) == Peek(ts, i + 2);
    assert i + 3 < n ==> Peek(us, i + 3 + d) == Peek(ts, i + 3);
    var j := if Peek(ts, i + 1) == TColon && Peek(ts, i + 2).TIdent? then i + 3 else i + 1;
    NamedSame(ts, us, j + 1, n, d);
  }

  // ---------- statements ----------

  lemma {:induction false} PairSame(ts: Toks, us: Toks, i: nat, n: nat, d: int)
    requires i <= |ts| && Same(ts, us, i, n, d)
    requires ParsePair(ts, i).Yes? && ParsePair(ts, i).next < n
    ensures i + d <= |us| && Moved(ParsePair(ts, i), ParsePair(us, i + d), d)
  {
    hide ParseExpr;
    var a := ParseExpr(ts, i, 0);
    ExprSame(ts, us, i, 0, n, d);
    assert Peek(us, a.next + d) == Peek(ts, a.next);
    ExprSame(ts, us, a.next + 1, 0, n, d);
  }

  lemma {:induction false} PathSame(ts: Toks, us: Toks, i: nat, path: seq<string>, n: nat, d: int)
    requires i <= |ts| && Same(ts, us, i, n, d)
    requires ParsePath(ts, i, path).Yes? && ParsePath(ts, i, path).next < n
    ensures i + d <= |us| && Moved(ParsePath(ts, i, path), ParsePath(us, i + d, path), d)
    decreases |ts| - i
  {
    hide Same, WordOf;
    SamePeek(ts, us, i, n, d, i);
    if Peek(ts, i) == TDot {
      var w := WordOf(Peek(ts, i + 1));
      assert i + 2 <= ParsePath(ts, i + 2, path + [w.value]).next;
      SamePeek(ts, us, i, n, d, i + 1);
      SameFrom(ts, us, i, i + 2, n, d);
      PathSame(ts, us, i + 2, path + [w.value], n, d);
    }
  }

  lemma {:induction false} ArmSame(ts: Toks, us: Toks, i: nat, n: nat, d: int)
    requires i <= |ts| && Same(ts, us, i, n, d)
    requires ParseArm(ts, i).Yes? && ParseArm(ts, i).next < n
    ensures i + d <= |us| && Moved(ParseArm(ts, i), ParseArm(us, i + d), d)
    decreases |ts| - i, 1
  {
    hide ParseExpr, ParseBlock;
    var c := ParseExpr(ts, i, 0);
    ExprSame(ts, us, i, 0, n, d);
    assert Peek(us, c.next + d) == Peek(ts, c.next);
    BlockSame(ts, us, c.next + 1, n, d);
  }

  lemma {:induction false} ArmsSame(ts: Toks, us: Toks, i: nat, arms: seq<Arm>, otherwise: Else, n: nat, d: int)
    requires i <= |ts| && Same(ts, us, i, n, d)
    requires ParseArms(ts, i, arms, otherwise).Yes? && ParseArms(ts, i, arms, otherwise).next < n
    ensures i + d <= |us| && Moved(ParseArms(ts, i, arms, otherwise), ParseArms(us, i + d, arms, otherwise), d)
    decreases |ts| - i, 1
  {
    hide ParseArm, ParseBlock, ParseArms, Same;
    ArmsStep(ts, i, arms, otherwise);
    SamePeek(ts, us, i, n, d, i);
    ArmsStep(us, i + d, arms, otherwise);
    match Peek(ts, i)
    case TElif =>
      var a := ParseArm(ts, i + 1);
      SameFrom(ts, us, i, i + 1, n, d);
      ArmSame(ts, us, i + 1, n, d);
      SameFrom(ts, us, i, a.next, n, d);
      ArmsSame(ts, us, a.next, arms + [a.value], otherwise, n, d);
    case TElse =>
      SamePeek(ts, us, i, n, d, i + 1);
      var b := ParseBlock(ts, i + 2);
      SameFrom(ts, us, i, i + 2, n, d);
      BlockSame(ts, us, i + 2, n, d);
      SameFrom(ts, us, i, b.next, n, d);
      ArmsSame(ts, us, b.next, arms, Else(b.value), n, d);
    case _ =>
  }

  /** One turn of the loop over the arms of an `if`. */
  lemma {:induction false} ArmsStep(ts: Toks, i: nat, arms: seq<Arm>, otherwise: Else)
    requires i <= |ts|
    ensures ParseArms(ts, i, arms, otherwise) ==
            match Peek(ts, i)
            case TElif =>
              (match ParseArm(ts, i + 1) case No => No case Yes(arm, j) => ParseArms(ts, j, arms + [arm], otherwise))
            case TElse =>
              if Peek(ts, i + 1) != TColon then No
              else (match ParseBlock(ts, i + 2) case No => No case Yes(b, j) => ParseArms(ts, j, arms, Else(b)))
            case TEnd => Yes(If(arms, otherwise), i + 1)
            case _ => No
  {
    hide ParseArm, ParseBlock;
  }

  lemma {:induction false} ForSame(ts: Toks, us: Toks, i: nat, n: nat, d: int)
    requires i <= |ts| && Same(ts, us, i, n, d)
    requires ParseFor(ts, i).Yes? && ParseFor(ts, i).next < n
    ensures i + d <= |us| && Moved(ParseFor(ts, i), ParseFor(us, i + d), d)
    decreases |ts| - i, 1
  {
    hide ParseExpr, ParseBlock;
    assert Peek(us, i + d) == Peek(ts, i);
    assert Peek(us, i + 1 + d) == Peek(ts, i + 1);
    var e := ParseExpr(ts, i + 2, 0);
    var b := ParseBlock(ts, e.next + 1);
    ExprSame(ts, us, i + 2, 0, n, d);
    assert Peek(us, e.next + d) == Peek(ts, e.next);
    BlockSame(ts, us, e.next + 1, n, d);
    assert Peek(us, b.next + d) == Peek(ts, b.next);
  }

  lemma {:induction false} BlockSame(ts: Toks, us: Toks, i: nat, n: nat, d: int)
    requires i <= |ts| && Same(ts, us, i, n, d)
    requires ParseBlock(ts, i).Yes? && ParseBlock(ts, i).next < n
    ensures i + d <= |us| && Moved(ParseBlock(ts, i), ParseBlock(us, i + d), d)
    decreases |ts| - i, 3
  {
    hide ParseStmt, SkipNewlines;
    var k := SkipNewlines(ts, i);
    SkipSame(ts, us, i, n, d);
    assert Peek(us, k + d) == Peek(ts, k);
    var t := Peek(ts, k);
    if !(t.TEnd? || t.TElif? || t.TElse?) {
      var s := ParseStmt(ts, k);
      StmtSame(ts, us, k, n, d);
      BlockSame(ts, us, s.next, n, d);
    }
  }

  lemma {:induction false} AssignSame(ts: Toks, us: Toks, i: nat, n: nat, d: int)
    requires i < |ts| && Same(ts, us, i, n, d) && ts[i].TIdent?
    requires ParseStmt(ts, i).Yes? && ParseStmt(ts, i).next < n
    ensures i + d <= |us| && Moved(ParseStmt(ts, i), ParseStmt(us, i + d), d)
    decreases |ts| - i, 1
  {
    hide ParseExpr, ParseInvoke, ParsePath;
    assert Peek(us, i + d) == Peek(ts, i);
    var p := ParsePath(ts, i + 1, [ts[i].s]);
    var j := p.next;
    PathSame(ts, us, i + 1, [ts[i].s], n, d);
    assert Peek(us, j + d) == Peek(ts, j);
    assert Peek(us, j + 1 + d) == Peek(ts, j + 1);
    if Peek(ts, j + 1) == TInvoke {
      InvokeSame(ts, us, j + 2, n, d);
    } else {
      ExprSame(ts, us, j + 1, 0, n, d);
    }
  }

  /** A statement means the same wherever its tokens stand. */
  lemma {:induction false} StmtSame(ts: Toks, us: Toks, i: nat, n: nat, d: int)
    requires i <= |ts| && Same(ts, us, i, n, d)
    requires ParseStmt(ts, i).Yes? && ParseStmt(ts, i).next < n
    ensures i + d <= |us| && Moved(ParseStmt(ts, i), ParseStmt(us, i + d), d)
    decreases |ts| - i, 2
  {
    hide ParsePair, ParseInvoke, ParseArm, ParseArms, ParseFor, ParsePath, ParseExpr;
    assert Peek(us, i + d) == Peek(ts, i);
    match Peek(ts, i)
    case TEmit => PairSame(ts, us, i + 1, n, d);
    case TRespond => PairSame(ts, us, i + 1, n, d);
    case TInvoke => InvokeSame(ts, us, i + 1, n, d);
    case TIf =>
      var a := ParseArm(ts, i + 1);
      ArmSame(ts, us, i + 1, n, d);
      ArmsSame(ts, us, a.next, [a.value], NoElse, n, d);
    case TFor => ForSame(ts, us, i + 1, n, d);
    case TIdent(_) => AssignSame(ts, us, i, n, d);
    case _ =>
  }

  // ---------- literals ----------

  /** The last token a literal, or the failure to read one, looks at. */
  function Reach<T>(r: Literal<T>): (k: nat) { if r.LYes? then r.next else r.at }

  /** Reading the literal, or failing to, looks at no token from `n` on. */
  ghost predicate Within<T>(r: Literal<T>, n: nat) { if r.LYes? then r.next <= n else r.at < n }

  /** The same entries, `d` tokens away. */
  ghost predicate FieldsMoved(fs: seq<LField>, gs: seq<LField>, d: int) {
    && |gs| == |fs|
    && forall m :: 0 <= m < |fs| ==> gs[m].key == fs[m].key && gs[m].value == fs[m].value
                                     && gs[m].from == fs[m].from + d && gs[m].to == fs[m].to + d
  }

  lemma {:induction false} MapOfMoved(fs: seq<LField>, gs: seq<LField>, d: int)
    requires FieldsMoved(fs, gs, d)
    ensures MapOf(gs) == MapOf(fs)
    decreases |fs|
  {
    if fs != [] { MapOfMoved(fs[1..], gs[1..], d); }
  }

  ghost predicate LMoved<T>(r: Literal<T>, r': Literal<T>, d: int) {
    match r
    case LYes(v, j) => r'.LYes? && r'.value == v && r'.next == j + d
    case LNo(at) => r'.LNo? && r'.at == at + d
  }

  ghost predicate LFieldsMoved(r: Literal<seq<LField>>, r': Literal<seq<LField>>, d: int) {
    match r
    case LYes(fs, j) => r'.LYes? && FieldsMoved(fs, r'.value, d) && r'.next == j + d
    case LNo(at) => r'.LNo? && r'.at == at + d
  }

  lemma {:induction false} LiteralSame(ts: Toks, us: Toks, i: nat, n: nat, d: int)
    requires i <= |ts| && Same(ts, us, i, n, d) && Within(LiteralAt(ts, i), n)
    ensures i + d <= |us| && LMoved(LiteralAt(ts, i), LiteralAt(us, i + d), d)
    decreases |ts| - i, 1
  {
    hide LiteralItems, LiteralFields, SkipNewlines, MapOf, Same;
    SamePeek(ts, us, i, n, d, i);
    if i < |ts| {
      SameFrom(ts, us, i, i + 1, n, d);
      match ts[i]
      case TMinus => SamePeek(ts, us, i, n, d, i + 1);
      case TLBrack => ListSame(ts, us, i, n, d);
      case TLBrace => DocSame(ts, us, i, n, d);
      case _ =>
    }
  }

  lemma {:induction false} ListSame(ts: Toks, us: Toks, i: nat, n: nat, d: int)
    requires i < |ts| && ts[i] == TLBrack && Same(ts, us, i, n, d) && Within(LiteralAt(ts, i), n)
    ensures i + d <= |us| && LMoved(LiteralAt(ts, i), LiteralAt(us, i + d), d)
    decreases |ts| - i, 0
  {
    hide LiteralItems, SkipNewlines, Same;
    var k := SkipNewlines(ts, i + 1);
    SamePeek(ts, us, i, n, d, i);
    SameFrom(ts, us, i, i + 1, n, d);
    SkipSame(ts, us, i + 1, n, d);
    SameFrom(ts, us, i, k, n, d);
    LiteralItemsSame(ts, us, k, n, d);
  }

  lemma {:induction false} DocSame(ts: Toks, us: Toks, i: nat, n: nat, d: int)
    requires i < |ts| && ts[i] == TLBrace && Same(ts, us, i, n, d) && Within(LiteralAt(ts, i), n)
    ensures i + d <= |us| && LMoved(LiteralAt(ts, i), LiteralAt(us, i + d), d)
    decreases |ts| - i, 0
  {
    hide LiteralFields, SkipNewlines, MapOf, Same, FieldsMoved;
    var k := SkipNewlines(ts, i + 1);
    SamePeek(ts, us, i, n, d, i);
    SameFrom(ts, us, i, i + 1, n, d);
    SkipSame(ts, us, i + 1, n, d);
    SameFrom(ts, us, i, k, n, d);
    LiteralFieldsSame(ts, us, k, n, d);
    if LiteralFields(ts, k).LYes? {
      MapOfMoved(LiteralFields(ts, k).value, LiteralFields(us, k + d).value, d);
    }
  }

  lemma {:induction false} LiteralItemsSame(ts: Toks, us: Toks, i: nat, n: nat, d: int)
    requires i <= |ts| && Same(ts, us, i, n, d) && Within(LiteralItems(ts, i), n)
    ensures i + d <= |us| && LMoved(LiteralItems(ts, i), LiteralItems(us, i + d), d)
    decreases |ts| - i, 2
  {
    hide LiteralAt, AfterItem;
    assert Peek(us, i + d) == Peek(ts, i);
    if Peek(ts, i) != TRBrack {
      var v := LiteralAt(ts, i);
      LiteralSame(ts, us, i, n, d);
      if v.LYes? {
        AfterItemSame(ts, us, v.next, n, d);
        LiteralItemsSame(ts, us, AfterItem(ts, v.next), n, d);
      }
    }
  }

  /** An entry `word : literal` stands here. */
  ghost predicate EntryHead(ts: Toks, i: nat) {
    && Peek(ts, i) != TRBrace && WordOf(Peek(ts, i)).Some? && Peek(ts, i + 1) == TColon
    && LiteralAt(ts, i + 2).LYes?
  }

  /** One turn of the entry loop. */
  lemma {:induction false} FieldsStep(ts: Toks, i: nat)
    requires i <= |ts| && EntryHead(ts, i)
    ensures var a := LiteralAt(ts, i + 2);
            var r := LiteralFields(ts, AfterItem(ts, a.next));
            LiteralFields(ts, i) ==
            if r.LNo? then r else LYes([LField(WordOf(Peek(ts, i)).value, a.value, i + 2, a.next)] + r.value, r.next)
  {
    hide LiteralAt, AfterItem, WordOf;
  }

  lemma {:induction false} LiteralFieldsSame(ts: Toks, us: Toks, i: nat, n: nat, d: int)
    requires i <= |ts| && Same(ts, us, i, n, d) && Within(LiteralFields(ts, i), n)
    ensures i + d <= |us| && LFieldsMoved(LiteralFields(ts, i), LiteralFields(us, i + d), d)
    decreases |ts| - i, 2
  {
    hide *;
    if EntryHead(ts, i) { EntriesSame(ts, us, i, n, d); } else { NoEntrySame(ts, us, i, n, d); }
  }

  lemma {:induction false} EntriesSame(ts: Toks, us: Toks, i: nat, n: nat, d: int)
    requires i <= |ts| && Same(ts, us, i, n, d) && Within(LiteralFields(ts, i), n) && EntryHead(ts, i)
    ensures i + d <= |us| && LFieldsMoved(LiteralFields(ts, i), LiteralFields(us, i + d), d)
    decreases |ts| - i, 1
  {
    hide LiteralAt, AfterItem, WordOf, LiteralFields, FieldsMoved, Same;
    FieldsStep(ts, i);
    SamePeek(ts, us, i, n, d, i);
    SamePeek(ts, us, i, n, d, i + 1);
    var v := LiteralAt(ts, i + 2);
    SameFrom(ts, us, i, i + 2, n, d);
    LiteralSame(ts, us, i + 2, n, d);
    var k := AfterItem(ts, v.next);
    SameFrom(ts, us, i, v.next, n, d);
    AfterItemSame(ts, us, v.next, n, d);
    SameFrom(ts, us, i, k, n, d);
    LiteralFieldsSame(ts, us, k, n, d);
    FieldsStep(us, i + d);
    EntryAndRest(WordOf(Peek(ts, i)).value, v.value, i + 2, v.next, LiteralFields(ts, k), LiteralFields(us, k + d), d);
  }

  /** An entry in front of the rest, here and `d` tokens away. */
  lemma {:induction false} EntryAndRest(key: string, v: Value, from: nat, to: nat, r: Literal<seq<LField>>, r': Literal<seq<LField>>, d: int)
    requires LFieldsMoved(r, r', d) && 0 <= from + d && 0 <= to + d
    ensures LFieldsMoved(if r.LNo? then r else LYes([LField(key, v, from, to)] + r.value, r.next),
                         if r'.LNo? then r' else LYes([LField(key, v, from + d, to + d)] + r'.value, r'.next), d)
  {
    hide FieldsMoved;
    if r.LYes? { PrependMoved(LField(key, v, from, to), LField(key, v, from + d, to + d), r.value, r'.value, d); }
  }

  lemma {:induction false} PrependMoved(f: LField, g: LField, fs: seq<LField>, gs: seq<LField>, d: int)
    requires g.key == f.key && g.value == f.value && g.from == f.from + d && g.to == f.to + d && FieldsMoved(fs, gs, d)
    ensures FieldsMoved([f] + fs, [g] + gs, d)
  {
  }

  lemma {:induction false} NoEntrySame(ts: Toks, us: Toks, i: nat, n: nat, d: int)
    requires i <= |ts| && Same(ts, us, i, n, d) && Within(LiteralFields(ts, i), n) && !EntryHead(ts, i)
    ensures i + d <= |us| && LFieldsMoved(LiteralFields(ts, i), LiteralFields(us, i + d), d)
    decreases |ts| - i, 1
  {
    hide LiteralAt, AfterItem, WordOf;
    assert Peek(us, i + d) == Peek(ts, i);
    if Peek(ts, i) != TRBrace && WordOf(Peek(ts, i)).Some? {
      assert Peek(us, i + 1 + d) == Peek(ts, i + 1);
      if Peek(ts, i + 1) == TColon { LiteralSame(ts, us, i + 2, n, d); }
    }
  }
}
