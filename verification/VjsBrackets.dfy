// Brackets in VejasScript (core/src/vjs.rs): every expression that parses closes what it opens,
// and reading a literal never leaves the bracket it started in. So looking for a literal and
// giving up looks at no token beyond the statement that is then parsed instead.

module VjsBrackets {
  import opened Wrappers
  import opened VjsSyntax
  import opened VjsParser
  import opened VjsProgram
  import opened VjsLocal

  function Weight(t: Tok): (w: int) {
    match t
    case TLParen => 1 case TLBrack => 1 case TLBrace => 1
    case TRParen => -1 case TRBrack => -1 case TRBrace => -1
    case _ => 0
  }

  /** How many brackets are open before token `k`. */
  function Depth(ts: Toks, k: nat): (b: int) {
    if k == 0 then 0 else Depth(ts, k - 1) + Weight(Peek(ts, k - 1))
  }

  lemma {:induction false} DepthStep(ts: Toks, k: nat)
    ensures Depth(ts, k + 1) == Depth(ts, k) + Weight(Peek(ts, k))
  {
  }

  /** No bracket open before `i` is closed between `i` and `j`. */
  ghost predicate Inside(ts: Toks, i: nat, j: nat) {
    forall k: nat :: i <= k <= j ==> Depth(ts, k) >= Depth(ts, i)
  }

  /** Between `i` and `j` every bracket that is opened is closed, and no other. */
  ghost predicate Level(ts: Toks, i: nat, j: nat) {
    i <= j && Inside(ts, i, j) && Depth(ts, j) == Depth(ts, i)
  }

  /** The same, but for the closing bracket just before `j`. */
  ghost predicate Shut(ts: Toks, i: nat, j: nat) {
    i < j && Inside(ts, i, j - 1) && Depth(ts, j) == Depth(ts, i) - 1
  }

  lemma {:induction false} LevelStep(ts: Toks, i: nat)
    ensures Level(ts, i, i)
    ensures Weight(Peek(ts, i)) == 0 ==> Level(ts, i, i + 1)
    ensures Weight(Peek(ts, i)) == -1 ==> Shut(ts, i, i + 1)
  {
    DepthStep(ts, i);
  }

  lemma {:induction false} LevelThen(ts: Toks, i: nat, j: nat, k: nat)
    requires Level(ts, i, j)
    ensures Level(ts, j, k) ==> Level(ts, i, k)
    ensures Shut(ts, j, k) ==> Shut(ts, i, k)
  {
    hide Depth;
  }

  /** A bracket and what closes it. */
  lemma {:induction false} LevelBracket(ts: Toks, i: nat, j: nat)
    requires Weight(Peek(ts, i)) == 1 && Shut(ts, i + 1, j)
    ensures Level(ts, i, j) && forall k: nat :: i < k < j ==> Depth(ts, k) > Depth(ts, i)
  {
    hide Depth;
    DepthStep(ts, i);
  }

  lemma {:induction false} SkipLevel(ts: Toks, i: nat)
    requires i <= |ts|
    ensures Level(ts, i, SkipNewlines(ts, i))
    decreases |ts| - i
  {
    hide Level;
    LevelStep(ts, i);
    if i < |ts| && ts[i] == TNewline {
      SkipLevel(ts, i + 1);
      LevelThen(ts, i, i + 1, SkipNewlines(ts, i));
    }
  }

  lemma {:induction false} AfterItemLevel(ts: Toks, i: nat)
    requires i <= |ts|
    ensures Level(ts, i, AfterItem(ts, i))
  {
    hide Level, SkipNewlines;
    var j := SkipNewlines(ts, i);
    SkipLevel(ts, i);
    LevelStep(ts, j);
    if Peek(ts, j) == TComma {
      SkipLevel(ts, j + 1);
      LevelThen(ts, i, j, j + 1);
      LevelThen(ts, i, j + 1, AfterItem(ts, i));
    }
  }

  // ---------- expressions ----------

  lemma {:induction false} ExprBalanced(ts: Toks, i: nat, bp: nat)
    requires i <= |ts| && ParseExpr(ts, i, bp).Yes?
    ensures Level(ts, i, ParseExpr(ts, i, bp).next)
    decreases |ts| - i, 2
  {
    hide ParsePrefix, ParsePostfix, ParseBinary, Level;
    var p := ParsePrefix(ts, i);
    var q := ParsePostfix(ts, p.next, p.value);
    PrefixBalanced(ts, i);
    PostfixBalanced(ts, p.next, p.value);
    BinaryBalanced(ts, q.next, q.value, bp);
    LevelThen(ts, i, p.next, q.next);
    LevelThen(ts, i, q.next, ParseExpr(ts, i, bp).next);
  }

  lemma {:induction false} PrefixBalanced(ts: Toks, i: nat)
    requires i <= |ts| && ParsePrefix(ts, i).Yes?
    ensures Level(ts, i, ParsePrefix(ts, i).next)
    decreases |ts| - i, 1
  {
    hide ParseExpr, ParseItems, ParseFields, ParseArgs, ParseInvoke, SkipNewlines, ParseParts, Level;
    var j := ParsePrefix(ts, i).next;
    LevelStep(ts, i);
    if Opening(ts[i]) {
      EnclosedBalanced(ts, i);
    } else {
      match ts[i]
      case TNot =>
        ExprBalanced(ts, i + 1, UNARY_POWER);
        LevelThen(ts, i, i + 1, j);
      case TMinus =>
        ExprBalanced(ts, i + 1, UNARY_POWER);
        LevelThen(ts, i, i + 1, j);
      case TInvoke =>
        InvokeBalanced(ts, i + 1);
        LevelThen(ts, i, i + 1, j);
      case TIdent(name) =>
        if Peek(ts, i + 1) == TLParen {
          ArgsBalanced(ts, i + 2);
          LevelBracket(ts, i + 1, j);
          LevelThen(ts, i, i + 1, j);
        }
      case _ =>
    }
  }

  /** A parenthesis, a list or a document stays inside its bracket until it is closed. */
  lemma {:induction false} EnclosedBalanced(ts: Toks, i: nat)
    requires i < |ts| && Opening(ts[i]) && ParsePrefix(ts, i).Yes?
    ensures Level(ts, i, ParsePrefix(ts, i).next)
    ensures forall k: nat :: i < k < ParsePrefix(ts, i).next ==> Depth(ts, k) > Depth(ts, i)
    decreases |ts| - i, 0
  {
    hide ParseExpr, ParseItems, ParseFields, ParseArgs, ParseInvoke, SkipNewlines, ParseParts, Level, Shut, Depth;
    var j := ParsePrefix(ts, i).next;
    var k := SkipNewlines(ts, i + 1);
    match ts[i]
    case TLParen =>
      var e := ParseExpr(ts, i + 1, 0);
      ExprBalanced(ts, i + 1, 0);
      LevelStep(ts, e.next);
      LevelThen(ts, i + 1, e.next, j);
      LevelBracket(ts, i, j);
    case TLBrack =>
      SkipLevel(ts, i + 1);
      ItemsBalanced(ts, k);
      LevelThen(ts, i + 1, k, j);
      LevelBracket(ts, i, j);
    case TLBrace =>
      SkipLevel(ts, i + 1);
      FieldsBalanced(ts, k);
      LevelThen(ts, i + 1, k, j);
      LevelBracket(ts, i, j);
  }

  lemma {:induction false} PostfixBalanced(ts: Toks, i: nat, lhs: Expr)
    requires i <= |ts| && ParsePostfix(ts, i, lhs).Yes?
    ensures Level(ts, i, ParsePostfix(ts, i, lhs).next)
    decreases |ts| - i, 1
  {
    hide ParsePostfix, ParseExpr, Level;
    PostfixStep(ts, i, lhs);
    match Peek(ts, i)
    case TDot => AppendFieldBalanced(ts, i, lhs, false);
    case TQDot => AppendFieldBalanced(ts, i, lhs, true);
    case TLBrack => AppendBracketBalanced(ts, i, lhs);
    case _ => LevelStep(ts, i);
  }

  lemma {:induction false} AppendFieldBalanced(ts: Toks, i: nat, lhs: Expr, safe: bool)
    requires i < |ts| && AppendField(ts, i, lhs, safe).Yes? && (ts[i].TDot? || ts[i].TQDot?)
    ensures Level(ts, i, AppendField(ts, i, lhs, safe).next)
    decreases |ts| - i, 0
  {
    hide ParsePostfix, ParseExpr, Level;
    var j := AppendField(ts, i, lhs, safe).next;
    LevelStep(ts, i);
    LevelStep(ts, i + 1);
    PostfixBalanced(ts, i + 2, Field(lhs, WordOf(Peek(ts, i + 1)).value, safe));
    LevelThen(ts, i + 1, i + 2, j);
    LevelThen(ts, i, i + 1, j);
  }

  lemma {:induction false} AppendBracketBalanced(ts: Toks, i: nat, lhs: Expr)
    requires i < |ts| && AppendBracket(ts, i, lhs).Yes? && ts[i].TLBrack?
    ensures Level(ts, i, AppendBracket(ts, i, lhs).next)
    decreases |ts| - i, 0
  {
    hide ParsePostfix, ParseExpr, Level, Shut;
    var j := AppendBracket(ts, i, lhs).next;
    if Peek(ts, i + 1) == TRBrack {
      LevelStep(ts, i + 1);
      LevelBracket(ts, i, i + 2);
      PostfixBalanced(ts, i + 2, Projection(lhs));
      LevelThen(ts, i, i + 2, j);
    } else {
      var e := ParseExpr(ts, i + 1, 0);
      ExprBalanced(ts, i + 1, 0);
      LevelStep(ts, e.next);
      LevelThen(ts, i + 1, e.next, e.next + 1);
      LevelBracket(ts, i, e.next + 1);
      PostfixBalanced(ts, e.next + 1, Bracketed(lhs, e.value));
      LevelThen(ts, i, e.next + 1, j);
    }
  }

  lemma {:induction false} BinaryBalanced(ts: Toks, i: nat, lhs: Expr, bp: nat)
    requires i <= |ts| && ParseBinary(ts, i, lhs, bp).Yes?
    ensures Level(ts, i, ParseBinary(ts, i, lhs, bp).next)
    decreases |ts| - i, 1
  {
    hide ParseExpr, Level;
    LevelStep(ts, i);
    if OpOf(Peek(ts, i)).Some? && OpOf(Peek(ts, i)).value.1 > bp {
      var (op, power) := OpOf(Peek(ts, i)).value;
      var e := ParseExpr(ts, i + 1, power);
      ExprBalanced(ts, i + 1, power);
      LevelThen(ts, i, i + 1, e.next);
      BinaryBalanced(ts, e.next, Bin(op, lhs, e.value), bp);
      LevelThen(ts, i, e.next, ParseBinary(ts, i, lhs, bp).next);
    }
  }

  lemma {:induction false} ItemsBalanced(ts: Toks, i: nat)
    requires i <= |ts| && ParseItems(ts, i).Yes?
    ensures Shut(ts, i, ParseItems(ts, i).next)
    decreases |ts| - i, 3
  {
    hide ParseExpr, AfterItem, Level, Shut;
    if Peek(ts, i) == TRBrack {
      LevelStep(ts, i);
    } else {
      var e := ParseExpr(ts, i, 0);
      var k := AfterItem(ts, e.next);
      ExprBalanced(ts, i, 0);
      AfterItemLevel(ts, e.next);
      LevelThen(ts, i, e.next, k);
      ItemsBalanced(ts, k);
      LevelThen(ts, i, k, ParseItems(ts, i).next);
    }
  }

  lemma {:induction false} ArgsBalanced(ts: Toks, i: nat)
    requires i <= |ts| && ParseArgs(ts, i).Yes?
    ensures Shut(ts, i, ParseArgs(ts, i).next)
    decreases |ts| - i, 3
  {
    hide ParseExpr, Level, Shut;
    if Peek(ts, i) == TRParen {
      LevelStep(ts, i);
    } else {
      var e := ParseExpr(ts, i, 0);
      var k := AfterArg(ts, e.next);
      ExprBalanced(ts, i, 0);
      LevelStep(ts, e.next);
      LevelThen(ts, i, e.next, k);
      ArgsBalanced(ts, k);
      LevelThen(ts, i, k, ParseArgs(ts, i).next);
    }
  }

  lemma {:induction false} EntryBalanced(ts: Toks, i: nat)
    requires i <= |ts| && ParseEntry(ts, i).Yes?
    ensures Level(ts, i, ParseEntry(ts, i).next)
    decreases |ts| - i, 3
  {
    hide ParseExpr, Level;
    var j := ParseEntry(ts, i).next;
    LevelStep(ts, i);
    LevelStep(ts, i + 1);
    ExprBalanced(ts, i + 2, 0);
    LevelThen(ts, i + 1, i + 2, j);
    LevelThen(ts, i, i + 1, j);
  }

  lemma {:induction false} FieldsBalanced(ts: Toks, i: nat)
    requires i <= |ts| && ParseFields(ts, i).Yes?
    ensures Shut(ts, i, ParseFields(ts, i).next)
    decreases |ts| - i, 4
  {
    hide ParseEntry, AfterItem, Level, Shut;
    if Peek(ts, i) == TRBrace {
      LevelStep(ts, i);
    } else {
      var e := ParseEntry(ts, i);
      var k := AfterItem(ts, e.next);
      EntryBalanced(ts, i);
      AfterItemLevel(ts, e.next);
      LevelThen(ts, i, e.next, k);
      FieldsBalanced(ts, k);
      LevelThen(ts, i, k, ParseFields(ts, i).next);
    }
  }

  lemma {:induction false} NamedBalanced(ts: Toks, i: nat)
    requires i <= |ts| && ParseNamed(ts, i).Yes?
    ensures Shut(ts, i, ParseNamed(ts, i).next)
    decreases |ts| - i, 4
  {
    hide ParseEntry, Level, Shut;
    if Peek(ts, i) == TRParen {
      LevelStep(ts, i);
    } else {
      var e := ParseEntry(ts, i);
      var k := AfterArg(ts, e.next);
      EntryBalanced(ts, i);
      LevelStep(ts, e.next);
      LevelThen(ts, i, e.next, k);
      NamedBalanced(ts, k);
      LevelThen(ts, i, k, ParseNamed(ts, i).next);
    }
  }

  lemma {:induction false} InvokeBalanced(ts: Toks, i: nat)
    requires i <= |ts| && ParseInvoke(ts, i).Yes?
    ensures Level(ts, i, ParseInvoke(ts, i).next)
    decreases |ts| - i, 5
  {
    hide ParseNamed, Level, Shut;
    var e := ParseInvoke(ts, i).next;
    var j := if Peek(ts, i + 1) == TColon && Peek(ts, i + 2).TIdent? then i + 3 else i + 1;
    LevelStep(ts, i);
    LevelStep(ts, i + 1);
    LevelStep(ts, i + 2);
    if j == i + 3 {
      LevelThen(ts, i, i + 1, i + 2);
      LevelThen(ts, i, i + 2, i + 3);
    }
    NamedBalanced(ts, j + 1);
    LevelBracket(ts, j, e);
    LevelThen(ts, i, j, e);
  }

  // ---------- literals ----------

  lemma {:induction false} LiteralInside(ts: Toks, i: nat)
    requires i <= |ts|
    ensures Inside(ts, i, Reach(LiteralAt(ts, i)))
    ensures LiteralAt(ts, i).LYes? ==> Depth(ts, LiteralAt(ts, i).next) == Depth(ts, i)
    ensures i < |ts| && Opening(ts[i]) && !ts[i].TLParen? ==>
              forall k: nat :: i < k < Reach(LiteralAt(ts, i)) || (i < k && k == Reach(LiteralAt(ts, i)) && LiteralAt(ts, i).LNo?)
                ==> Depth(ts, k) > Depth(ts, i)
    decreases |ts| - i, 1
  {
    hide LiteralItems, LiteralFields, SkipNewlines, MapOf, Depth;
    if i < |ts| {
      var k := SkipNewlines(ts, i + 1);
      DepthStep(ts, i);
      match ts[i]
      case TMinus => DepthStep(ts, i + 1);
      case TLBrack =>
        SkipLevel(ts, i + 1);
        LiteralItemsInside(ts, k);
      case TLBrace =>
        SkipLevel(ts, i + 1);
        LiteralFieldsInside(ts, k);
      case _ =>
    }
  }

  /** Up to its closing bracket, or to where it fails, a list stays inside its own bracket. */
  ghost predicate Closed<T>(ts: Toks, i: nat, r: Literal<T>) {
    match r
    case LYes(_, j) => 0 < j && Inside(ts, i, j - 1) && Depth(ts, j) == Depth(ts, i) - 1
    case LNo(at) => Inside(ts, i, at)
  }

  lemma {:induction false} LiteralItemsInside(ts: Toks, i: nat)
    requires i <= |ts|
    ensures Closed(ts, i, LiteralItems(ts, i))
    decreases |ts| - i, 2
  {
    hide LiteralAt, AfterItem, Depth;
    if Peek(ts, i) == TRBrack {
      DepthStep(ts, i);
    } else {
      var v := LiteralAt(ts, i);
      LiteralInside(ts, i);
      if v.LYes? {
        AfterItemLevel(ts, v.next);
        LiteralItemsInside(ts, AfterItem(ts, v.next));
      }
    }
  }

  /** What is closed behind something level is closed with it. */
  lemma {:induction false} ClosedThen<T>(ts: Toks, i: nat, k: nat, r: Literal<T>)
    requires Level(ts, i, k) && Closed(ts, k, r) && k <= Reach(r) && (r.LYes? ==> k < r.next)
    ensures Closed(ts, i, r)
  {
    hide Depth;
  }

  lemma {:induction false} WordColon(ts: Toks, i: nat)
    requires WordOf(Peek(ts, i)).Some? && Peek(ts, i + 1) == TColon
    ensures Level(ts, i, i + 2)
  {
    hide Level;
    LevelStep(ts, i);
    LevelStep(ts, i + 1);
    LevelThen(ts, i, i + 1, i + 2);
  }

  lemma {:induction false} LiteralFieldsInside(ts: Toks, i: nat)
    requires i <= |ts|
    ensures Closed(ts, i, LiteralFields(ts, i))
    decreases |ts| - i, 2
  {
    hide LiteralAt, AfterItem, Depth;
    if EntryHead(ts, i) {
      var v := LiteralAt(ts, i + 2);
      var k := AfterItem(ts, v.next);
      LiteralInside(ts, i + 2);
      AfterItemLevel(ts, v.next);
      LiteralFieldsInside(ts, k);
      FieldsStep(ts, i);
      WordColon(ts, i);
      hide LiteralFields, Level, Closed, Inside;
      LevelThen(ts, i + 2, v.next, k);
      LevelThen(ts, i, i + 2, k);
      ClosedThen(ts, i, k, LiteralFields(ts, k));
    } else {
      NoEntryInside(ts, i);
    }
  }

  lemma {:induction false} NoEntryInside(ts: Toks, i: nat)
    requires i <= |ts| && !EntryHead(ts, i)
    ensures Closed(ts, i, LiteralFields(ts, i))
    decreases |ts| - i, 1
  {
    hide LiteralAt, AfterItem, Depth;
    DepthStep(ts, i);
    if Peek(ts, i) != TRBrace && WordOf(Peek(ts, i)).Some? && Peek(ts, i + 1) == TColon {
      LiteralInside(ts, i + 2);
      WordColon(ts, i);
    }
  }

  /** Where an expression parses, looking for a literal looks no further than the expression. */
  lemma {:induction false} LiteralWithinExpr(ts: Toks, i: nat, bp: nat)
    requires i <= |ts| && ParseExpr(ts, i, bp).Yes?
    ensures Reach(LiteralAt(ts, i)) <= ParseExpr(ts, i, bp).next
  {
    var p := ParsePrefix(ts, i);
    assert p.Yes? && p.next <= ParseExpr(ts, i, bp).next by {
      hide ParsePrefix, ParsePostfix, ParseBinary;
      var q := ParsePostfix(ts, p.next, p.value);
      BinaryAdvances(ts, q.next, q.value, bp);
    }
    if ts[i].TLBrack? || ts[i].TLBrace? {
      hide LiteralAt, ParsePrefix, Depth;
      LiteralInside(ts, i);
      PrefixBalanced(ts, i);
    } else {
      MinusReach(ts, i);
    }
  }

  lemma {:induction false} MinusReach(ts: Toks, i: nat)
    requires i < |ts| && !ts[i].TLBrack? && !ts[i].TLBrace? && ParsePrefix(ts, i).Yes?
    ensures Reach(LiteralAt(ts, i)) <= ParsePrefix(ts, i).next
  {
    hide ParseExpr, ParseItems, ParseFields, ParseArgs, ParseInvoke, SkipNewlines, ParseParts, LiteralItems, LiteralFields;
  }
}
