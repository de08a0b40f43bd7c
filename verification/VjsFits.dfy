// When the tokens of a surface literal are an expression at all (core/src/vjs.rs). A `[` directly
// behind an element opens an index there, which holds one expression and no comma or newline, and
// `and`, `or` and `in` directly behind a value are operators there and keys in a literal.

module VjsFits {
  import opened Wrappers
  import opened VjsSyntax
  import opened VjsParser
  import opened VjsProgram
  import opened VjsLocal
  import opened VjsBrackets
  import opened VjsSplice
  import opened VjsEditProof
  import opened VjsGlued
  import opened VjsReadings
  import P = VjsPure

  // ---------- the condition ----------

  /** The literal at `i` can be read as an expression. */
  predicate FitsAt(ts: Toks, i: nat)
    requires i <= |ts|
    decreases |ts| - i, 1
  {
    i < |ts| ==>
      match ts[i]
      case TLBrack => FitsItems(ts, SkipNewlines(ts, i + 1))
      case TLBrace => FitsFields(ts, SkipNewlines(ts, i + 1))
      case _ => true
  }

  /** So can the elements from `i` on: a list directly behind an element is an index of it. */
  predicate FitsItems(ts: Toks, i: nat)
    requires i <= |ts|
    decreases |ts| - i, 2
  {
    Peek(ts, i) == TRBrack ||
    (LiteralAt(ts, i).LYes? && FitsAt(ts, i) &&
     var j := LiteralAt(ts, i).next;
     (Peek(ts, j) == TLBrack ==> IndexLike(ts, j)) && FitsItems(ts, AfterItem(ts, j)))
  }

  /** So can the entries from `i` on: no operator directly behind a value. */
  predicate FitsFields(ts: Toks, i: nat)
    requires i <= |ts|
    decreases |ts| - i, 2
  {
    Peek(ts, i) == TRBrace ||
    (i + 2 <= |ts| && LiteralAt(ts, i + 2).LYes? && FitsAt(ts, i + 2) &&
     var j := LiteralAt(ts, i + 2).next;
     OpOf(Peek(ts, j)).None? && FitsFields(ts, AfterItem(ts, j)))
  }

  /** The list that opens at `j` is empty, or its elements follow each other with nothing between. */
  predicate IndexLike(ts: Toks, j: nat)
    requires j < |ts|
  {
    Peek(ts, j + 1) == TRBrack || Unbroken(ts, j + 1)
  }

  predicate Unbroken(ts: Toks, i: nat)
    requires i <= |ts|
    decreases |ts| - i
  {
    LiteralAt(ts, i).LYes? &&
    var j := LiteralAt(ts, i).next;
    Peek(ts, j) == TRBrack || (Joins(Peek(ts, j)) && Unbroken(ts, j))
  }

  /** The same, just behind an element. */
  ghost predicate FitsBehind(ts: Toks, n: nat)
    requires n <= |ts|
  {
    FitsItems(ts, AfterItem(ts, n)) && (Peek(ts, n) == TLBrack ==> IndexLike(ts, n))
  }

  ghost predicate UnbrokenBehind(ts: Toks, n: nat)
    requires n <= |ts|
  {
    Peek(ts, n) == TRBrack || (Joins(Peek(ts, n)) && Unbroken(ts, n))
  }

  lemma {:induction false} FitsStep(ts: Toks, i: nat, k: nat)
    requires i <= |ts| && List(ts, i, k) && Peek(ts, i) != TRBrack
    ensures LiteralAt(ts, i).LYes? && Behind(ts, LiteralAt(ts, i).next, k)
    ensures FitsItems(ts, i) <==> FitsAt(ts, i) && FitsBehind(ts, LiteralAt(ts, i).next)
    ensures Unbroken(ts, i) <==> UnbrokenBehind(ts, LiteralAt(ts, i).next)
  {
    ListStep(ts, i, k);
    hide LiteralAt, AfterItem, FitsAt, IndexLike, List, Behind, Left, LiteralItems;
  }

  /** Behind an element, at a token that goes on with it. */
  lemma {:induction false} BehindFits(ts: Toks, n: nat, k: nat)
    requires Behind(ts, n, k) && Joins(Peek(ts, n))
    ensures n < |ts| && List(ts, n, k) && LiteralAt(ts, n).LYes? && Behind(ts, LiteralAt(ts, n).next, k)
    ensures FitsBehind(ts, n) <==> (Peek(ts, n) == TLBrack ==> IndexLike(ts, n)) && FitsAt(ts, n) && FitsBehind(ts, LiteralAt(ts, n).next)
    ensures UnbrokenBehind(ts, n) <==> UnbrokenBehind(ts, LiteralAt(ts, n).next)
  {
    BehindToken(ts, n, k);
    FitsStep(ts, n, k);
    hide LiteralAt, AfterItem, FitsAt, IndexLike, List, Behind, FitsItems, Unbroken;
  }

  lemma {:induction false} PlainFits(ts: Toks, i: nat)
    requires i < |ts| && ts[i] != TLBrack && ts[i] != TLBrace
    ensures FitsAt(ts, i)
  {
  }

  // ---------- elements ----------

  /** What is parsed from `i` on ends at `n`: the rest fits exactly when the whole does, and so for unbroken. */
  ghost predicate SameFit(ts: Toks, i: nat, n: nat)
    requires i <= |ts| && n <= |ts|
  {
    (FitsItems(ts, i) <==> FitsBehind(ts, n)) && (Unbroken(ts, i) <==> UnbrokenBehind(ts, n))
  }

  ghost predicate SameFitBehind(ts: Toks, m: nat, n: nat)
    requires m <= |ts| && n <= |ts|
  {
    (FitsBehind(ts, m) <==> FitsBehind(ts, n)) && (UnbrokenBehind(ts, m) <==> UnbrokenBehind(ts, n))
  }

  lemma {:induction false} ExprFits(ts: Toks, i: nat, bp: nat, k: nat)
    requires i <= |ts| && List(ts, i, k) && Peek(ts, i) != TRBrack
    ensures FitsItems(ts, i) ==> ParseExpr(ts, i, bp).Yes?
    ensures ParseExpr(ts, i, bp).Yes? ==>
              SameFit(ts, i, ParseExpr(ts, i, bp).next) && !JoinsAt(Peek(ts, ParseExpr(ts, i, bp).next), bp)
    decreases |ts| - i, 3
  {
    hide ParsePrefix, ParsePostfix, ParseBinary, FitsItems, FitsBehind, Unbroken, UnbrokenBehind, List, Behind, Tame, LiteralAt, Left;
    PrefixFits(ts, i, k);
    var p := ParsePrefix(ts, i);
    if p.Yes? {
      PrefixInList(ts, i, k);
      PostfixFits(ts, p.next, p.value, k);
      var q := ParsePostfix(ts, p.next, p.value);
      if q.Yes? {
        PostfixInList(ts, p.next, p.value, k);
        BinaryFits(ts, q.next, q.value, bp, k);
      }
    }
  }

  lemma {:induction false} PrefixFits(ts: Toks, i: nat, k: nat)
    requires i <= |ts| && List(ts, i, k) && Peek(ts, i) != TRBrack
    ensures FitsItems(ts, i) ==> ParsePrefix(ts, i).Yes?
    ensures ParsePrefix(ts, i).Yes? ==> SameFit(ts, i, ParsePrefix(ts, i).next)
    decreases |ts| - i, 2
  {
    hide ParsePrefix, ParseExpr, FitsAt, FitsItems, FitsBehind, Unbroken, UnbrokenBehind, List, Behind, LiteralAt;
    FitsStep(ts, i, k);
    LiteralEndsLater(ts, i);
    if ts[i] == TMinus {
      SignedStep(ts, i, k);
      MinusPrefix(ts, i);
      PlainFits(ts, i);
      PlainFits(ts, i + 1);
      FitsStep(ts, i + 1, k);
      ExprFits(ts, i + 1, UNARY_POWER, k);
    } else if ts[i] == TLBrack || ts[i] == TLBrace {
      EnclosedFits(ts, i);
      if ParsePrefix(ts, i).Yes? { EnclosedTame(ts, i); }
    } else {
      PlainFits(ts, i);
      AtomTame(ts, i);
    }
  }

  /** A list or a document is an expression exactly when it fits. */
  lemma {:induction false} EnclosedFits(ts: Toks, i: nat)
    requires i < |ts| && (ts[i] == TLBrack || ts[i] == TLBrace) && LiteralAt(ts, i).LYes?
    ensures ParsePrefix(ts, i).Yes? <==> FitsAt(ts, i)
    decreases |ts| - i, 1
  {
    hide LiteralItems, LiteralFields, ParseExpr, ParseItems, ParseFields, ParseArgs, ParseInvoke, ParseParts, SkipNewlines, MapOf,
      FitsItems, FitsFields;
    var k := SkipNewlines(ts, i + 1);
    if ts[i] == TLBrack {
      ItemsFit(ts, k, LiteralItems(ts, k).next);
    } else {
      FieldsFit(ts, k);
    }
  }

  lemma {:induction false} PostfixFits(ts: Toks, n: nat, lhs: Expr, k: nat)
    requires n <= |ts| && Behind(ts, n, k) && Tame(lhs)
    ensures FitsBehind(ts, n) ==> ParsePostfix(ts, n, lhs).Yes?
    ensures var r := ParsePostfix(ts, n, lhs); r.Yes? ==> SameFitBehind(ts, n, r.next) && !Peek(ts, r.next).TLBrack?
    decreases |ts| - n, 2
  {
    hide ParsePostfix, ParseExpr, FitsBehind, UnbrokenBehind, List, Behind, Tame, AppendBracket, SameFitBehind;
    BehindToken(ts, n, k);
    PostfixStep(ts, n, lhs);
    if Peek(ts, n) == TLBrack { BracketFits(ts, n, lhs, k); } else { SameFitHere(ts, n); }
  }

  lemma {:induction false} SameFitHere(ts: Toks, n: nat)
    requires n <= |ts|
    ensures SameFitBehind(ts, n, n)
  {
    hide FitsBehind, UnbrokenBehind;
  }

  lemma {:induction false} BracketFits(ts: Toks, n: nat, lhs: Expr, k: nat)
    requires n < |ts| && Behind(ts, n, k) && Tame(lhs) && ts[n] == TLBrack
    ensures FitsBehind(ts, n) ==> AppendBracket(ts, n, lhs).Yes?
    ensures var r := AppendBracket(ts, n, lhs); r.Yes? ==> r.next <= |ts| && SameFitBehind(ts, n, r.next) && !Peek(ts, r.next).TLBrack?
    decreases |ts| - n, 1
  {
    hide ParsePostfix, ParseExpr, FitsBehind, UnbrokenBehind, List, Behind, Tame, LiteralAt, FitsAt, IndexLike;
    BehindFits(ts, n, k);
    var j := LiteralAt(ts, n).next;
    LiteralEndsLater(ts, n);
    IndexFits(ts, n);
    if Peek(ts, n + 1) == TRBrack {
      EmptyList(ts, n);
      TameProjection(lhs);
      PostfixFits(ts, j, Projection(lhs), k);
    } else if InnerReads(ts, n) {
      var e := ParseExpr(ts, n + 1, 0);
      InnerTame(ts, n);
      TameIndex(lhs, e.value);
      PostfixFits(ts, j, Bracketed(lhs, e.value), k);
    }
  }

  /** Behind `[` stands one expression, and then `]`. */
  ghost predicate InnerReads(ts: Toks, n: nat)
    requires n < |ts|
  {
    ParseExpr(ts, n + 1, 0).Yes? && Peek(ts, ParseExpr(ts, n + 1, 0).next) == TRBrack
  }

  /** A list can be an index exactly when it is empty, or its elements are one expression. */
  lemma {:induction false} IndexFits(ts: Toks, n: nat)
    requires n < |ts| && ts[n] == TLBrack && LiteralAt(ts, n).LYes?
    ensures IndexLike(ts, n) && FitsAt(ts, n) <==> Peek(ts, n + 1) == TRBrack || InnerReads(ts, n)
    decreases |ts| - n, 0
  {
    hide ParseExpr, FitsItems, FitsBehind, Unbroken, UnbrokenBehind, List, LiteralAt;
    if Peek(ts, n + 1) == TRBrack {
      SkipTo(ts, n + 1, n + 1);
      assert FitsItems(ts, n + 1) by { NoneFit(ts, n + 1); }
    } else if Peek(ts, n + 1) == TNewline {
      if ParseExpr(ts, n + 1, 0).Yes? { ExprStart(ts, n + 1, 0); }
      if Unbroken(ts, n + 1) { UnbrokenStarts(ts, n + 1); }
    } else {
      var j := LiteralAt(ts, n).next;
      SkipTo(ts, n + 1, n + 1);
      OpenList(ts, n);
      ExprFits(ts, n + 1, 0, j);
      var e := ParseExpr(ts, n + 1, 0);
      if e.Yes? {
        ExprInList(ts, n + 1, 0, j);
        LastToken(ts, e.next, j);
      }
    }
  }

  lemma {:induction false} NoneFit(ts: Toks, i: nat)
    requires i <= |ts| && Peek(ts, i) == TRBrack
    ensures FitsItems(ts, i)
  {
  }

  lemma {:induction false} UnbrokenStarts(ts: Toks, i: nat)
    requires i <= |ts| && Unbroken(ts, i)
    ensures i < |ts| && ts[i] != TNewline
  {
    hide LiteralAt;
    LiteralEnds(ts, i);
  }

  /** Where an expression ends in a list: unbroken and with nothing to go on with it is at the end. */
  lemma {:induction false} LastToken(ts: Toks, n: nat, k: nat)
    requires Behind(ts, n, k) && !Joins(Peek(ts, n))
    ensures UnbrokenBehind(ts, n) <==> Peek(ts, n) == TRBrack
    ensures Peek(ts, n) == TRBrack ==> FitsBehind(ts, n)
  {
    hide List, FitsItems, Unbroken, AfterItem, Behind;
    BehindToken(ts, n, k);
    if Peek(ts, n) == TRBrack { NoneFit(ts, n); }
  }

  /** What stands in such brackets is tame, and they close where the list does. */
  lemma {:induction false} InnerTame(ts: Toks, n: nat)
    requires n < |ts| && ts[n] == TLBrack && LiteralAt(ts, n).LYes? && Peek(ts, n + 1) != TRBrack && InnerReads(ts, n)
    ensures Tame(ParseExpr(ts, n + 1, 0).value) && ParseExpr(ts, n + 1, 0).next + 1 == LiteralAt(ts, n).next
  {
    hide ParseExpr, List, LiteralAt, Tame, Behind, LiteralItems, AfterItem, Left;
    var j := LiteralAt(ts, n).next;
    ExprStart(ts, n + 1, 0);
    OpenList(ts, n);
    ExprInList(ts, n + 1, 0, j);
    var e := ParseExpr(ts, n + 1, 0);
    BehindToken(ts, e.next, j);
    ListEnds(ts, e.next, j);
  }

  lemma {:induction false} BinaryFits(ts: Toks, n: nat, lhs: Expr, bp: nat, k: nat)
    requires n <= |ts| && Behind(ts, n, k) && Tame(lhs) && !Peek(ts, n).TLBrack?
    ensures FitsBehind(ts, n) ==> ParseBinary(ts, n, lhs, bp).Yes?
    ensures var r := ParseBinary(ts, n, lhs, bp); r.Yes? ==> SameFitBehind(ts, n, r.next) && !JoinsAt(Peek(ts, r.next), bp)
    decreases |ts| - n, 1
  {
    hide ParseExpr, ParseBinary, FitsBehind, UnbrokenBehind, FitsItems, Unbroken, List, Behind, Tame, LiteralAt, MayFollow;
    BehindToken(ts, n, k);
    BinaryStep(ts, n, lhs, bp);
    if Peek(ts, n).TMinus? && bp < 5 {
      SignedFits(ts, n, k);
      ExprFits(ts, n + 1, 5, k);
      var e := ParseExpr(ts, n + 1, 5);
      if e.Yes? {
        ExprInList(ts, n + 1, 5, k);
        TameMinus(lhs, e.value);
        BinaryFits(ts, e.next, Bin(Sub, lhs, e.value), bp, k);
      }
    }
  }

  /** Behind an element the only operator is `-`. */
  lemma {:induction false} BinaryStep(ts: Toks, n: nat, lhs: Expr, bp: nat)
    requires n <= |ts| && MayFollow(Peek(ts, n))
    ensures ParseBinary(ts, n, lhs, bp) ==
            if Peek(ts, n).TMinus? && bp < 5 then
              (match ParseExpr(ts, n + 1, 5) case No => No case Yes(e, j) => ParseBinary(ts, j, Bin(Sub, lhs, e), bp))
            else Yes(lhs, n)
  {
    hide ParseExpr;
  }

  /** A signed number behind an element, and the number alone. */
  lemma {:induction false} SignedFits(ts: Toks, n: nat, k: nat)
    requires n <= |ts| && Behind(ts, n, k) && Peek(ts, n) == TMinus
    ensures n + 1 < |ts| && List(ts, n + 1, k) && Peek(ts, n + 1) != TRBrack
    ensures FitsBehind(ts, n) <==> FitsItems(ts, n + 1)
    ensures UnbrokenBehind(ts, n) <==> Unbroken(ts, n + 1)
  {
    hide FitsBehind, UnbrokenBehind, FitsItems, Unbroken, List, Behind, LiteralAt, FitsAt;
    BehindFits(ts, n, k);
    SignedStep(ts, n, k);
    PlainFits(ts, n);
    PlainFits(ts, n + 1);
    FitsStep(ts, n + 1, k);
  }

  lemma {:induction false} ItemsFit(ts: Toks, i: nat, k: nat)
    requires i <= |ts| && List(ts, i, k)
    ensures ParseItems(ts, i).Yes? <==> FitsItems(ts, i)
    decreases |ts| - i, 4
  {
    hide ParseExpr, ParseItems, List, Behind, FitsItems, Unbroken, UnbrokenBehind, LiteralAt, Tame, AfterItem, Left;
    ParseItemsStep(ts, i);
    if Peek(ts, i) == TRBrack {
      NoneFit(ts, i);
    } else {
      ExprFits(ts, i, 0, k);
      var e := ParseExpr(ts, i, 0);
      if e.Yes? {
        ExprInList(ts, i, 0, k);
        BehindMeans(ts, e.next, k);
        ItemsFit(ts, AfterItem(ts, e.next), k);
      }
    }
  }

  lemma {:induction false} BehindMeans(ts: Toks, n: nat, k: nat)
    requires Behind(ts, n, k)
    ensures n <= |ts| && List(ts, AfterItem(ts, n), k)
  {
  }

  // ---------- entries ----------

  lemma {:induction false} FieldsFit(ts: Toks, i: nat)
    requires i <= |ts| && LiteralFields(ts, i).LYes?
    ensures ParseFields(ts, i).Yes? <==> FitsFields(ts, i)
    decreases |ts| - i, 5
  {
    hide ParseExpr, ParseEntry, ParseFields, LiteralAt, LiteralFields, AfterItem, Follower, WordOf, FitsAt, FitsFields;
    ParseFieldsStep(ts, i);
    if LiteralFields(ts, i).value == [] {
      NoFields(ts, i);
      NoFieldsFit(ts, i);
    } else {
      FirstEntry(ts, i);
      EntryFollowed(ts, i);
      EntryReadsIff(ts, i);
      ValueFits(ts, i + 2);
      FitsFieldsStep(ts, i);
      FieldsFit(ts, AfterItem(ts, LiteralAt(ts, i + 2).next));
      if ParseExpr(ts, i + 2, 0).Yes? { ExprEndsAtLiteral(ts, i + 2); }
    }
  }

  lemma {:induction false} NoFieldsFit(ts: Toks, i: nat)
    requires i <= |ts| && Peek(ts, i) == TRBrace
    ensures FitsFields(ts, i)
  {
  }

  lemma {:induction false} FitsFieldsStep(ts: Toks, i: nat)
    requires i + 2 <= |ts| && EntryHead(ts, i)
    ensures var j := LiteralAt(ts, i + 2).next;
            FitsFields(ts, i) <==> FitsAt(ts, i + 2) && OpOf(Peek(ts, j)).None? && FitsFields(ts, AfterItem(ts, j))
  {
    hide LiteralAt, AfterItem, WordOf, FitsAt;
  }

  lemma {:induction false} EntryReadsIff(ts: Toks, i: nat)
    requires i + 2 <= |ts| && EntryHead(ts, i)
    ensures ParseEntry(ts, i).Yes? <==> ParseExpr(ts, i + 2, 0).Yes?
    ensures ParseEntry(ts, i).Yes? ==> ParseEntry(ts, i).next == ParseExpr(ts, i + 2, 0).next
  {
    hide ParseExpr, LiteralAt, WordOf;
  }

  /** A value is an expression exactly when it fits and no operator follows. */
  lemma {:induction false} ValueFits(ts: Toks, i: nat)
    requires i <= |ts| && LiteralAt(ts, i).LYes?
    requires var j := LiteralAt(ts, i).next; Follower(Peek(ts, j)) && (WordOf(Peek(ts, j)).Some? ==> Peek(ts, j + 1) == TColon)
    ensures ParseExpr(ts, i, 0).Yes? <==> FitsAt(ts, i) && OpOf(Peek(ts, LiteralAt(ts, i).next)).None?
    decreases |ts| - i, 3
  {
    hide LiteralAt, ParsePrefix, ParsePostfix, ParseBinary, FitsAt, Follower, WordOf;
    var j := LiteralAt(ts, i).next;
    LiteralEndsLater(ts, i);
    ValuePrefix(ts, i);
    var p := ParsePrefix(ts, i);
    if p.Yes? {
      PrefixEndsAtLiteral(ts, i);
      FollowerStops(ts, j, p.value, 0);
      if OpOf(Peek(ts, j)).Some? {
        FollowerOp(Peek(ts, j));
        OperatorThenColon(ts, j, p.value);
      }
    }
  }

  lemma {:induction false} FollowerOp(t: Tok)
    requires Follower(t) && OpOf(t).Some?
    ensures WordOf(t).Some?
  {
  }

  lemma {:induction false} ValuePrefix(ts: Toks, i: nat)
    requires i < |ts| && LiteralAt(ts, i).LYes? && Follower(Peek(ts, LiteralAt(ts, i).next))
    ensures ParsePrefix(ts, i).Yes? <==> FitsAt(ts, i)
    decreases |ts| - i, 2
  {
    if ts[i] == TLBrack || ts[i] == TLBrace {
      hide *;
      EnclosedFits(ts, i);
    } else {
      PlainFits(ts, i);
      hide LiteralItems, LiteralFields, ParseExpr, ParseItems, ParseFields, ParseArgs, ParseInvoke, ParseParts, FitsAt, Follower;
      if ts[i] == TMinus {
        MinusPrefix(ts, i);
        NumberFollowed(ts, i + 1);
      } else {
        AtomTame(ts, i);
      }
    }
  }

  lemma {:induction false} NumberFollowed(ts: Toks, i: nat)
    requires i < |ts| && ts[i].TNum? && Follower(Peek(ts, i + 1))
    ensures ParseExpr(ts, i, UNARY_POWER).Yes?
  {
    hide ParseItems, ParseFields, ParseArgs, ParseInvoke, ParseParts;
    var lhs := Lit(Num(ts[i].n));
    assert ParsePrefix(ts, i) == Yes(lhs, i + 1);
    FollowerStops(ts, i + 1, lhs, UNARY_POWER);
  }

  // ---------- both readings ----------

  /**
   * The two readings of every surface literal. Its tokens are an expression exactly when it
   * fits; they then end at the same token, and the expression evaluates to the literal, in any
   * world and pipeline, exactly when no element that counts is directly followed by `-` or `[`.
   */
  lemma {:induction false} ReadingsExact(ts: Toks, i: nat, w: World, vars: Vars, pkg: string, depth: nat)
    requires i <= |ts| && LiteralAt(ts, i).LYes? && Peek(ts, LiteralAt(ts, i).next) == TNewline && depth <= P.MAX_DEPTH
    ensures ParseExpr(ts, i, 0).Yes? <==> FitsAt(ts, i)
    ensures FitsAt(ts, i) ==> ParseExpr(ts, i, 0).next == LiteralAt(ts, i).next
    ensures FitsAt(ts, i) ==>
              (P.Eval(w, ParseExpr(ts, i, 0).value, vars, pkg, depth).res == Ok(LiteralAt(ts, i).value) <==> !JoinedAt(ts, i))
  {
    assert Follower(TNewline) && WordOf(TNewline).None? && OpOf(TNewline).None?;
    hide LiteralAt, ParseExpr, JoinedAt, FitsAt, P.Eval;
    ValueFits(ts, i);
    if FitsAt(ts, i) { ReadingsAgree(ts, i, w, vars, pkg, depth); }
  }

  // ---------- literals that are no expression ----------

  lemma {:induction false} OneEntry(ts: Toks, i: nat)
    requires i + 2 <= |ts| && Peek(ts, i) != TRBrace && WordOf(Peek(ts, i)).Some? && Peek(ts, i + 1) == TColon && LiteralAt(ts, i + 2).LYes?
    requires LiteralFields(ts, AfterItem(ts, LiteralAt(ts, i + 2).next)).LYes?
    ensures var a := LiteralAt(ts, i + 2); var r := LiteralFields(ts, AfterItem(ts, a.next));
            && LiteralFields(ts, i) == LYes([LField(WordOf(Peek(ts, i)).value, a.value, i + 2, a.next)] + r.value, r.next)
            && MapOf(LiteralFields(ts, i).value) == map[WordOf(Peek(ts, i)).value := a.value] + MapOf(r.value)
            && EntryHead(ts, i)
  {
    hide LiteralAt, LiteralFields, AfterItem, WordOf, MapOf;
    FieldsStep(ts, i);
    var a := LiteralAt(ts, i + 2);
    var r := LiteralFields(ts, AfterItem(ts, a.next));
    MapOfFirst(LiteralFields(ts, i).value);
    assert LiteralFields(ts, i).value[1..] == r.value;
  }

  lemma {:induction false} NumberAt(ts: Toks, i: nat)
    requires i < |ts| && ts[i].TNum?
    ensures LiteralAt(ts, i) == LYes(Num(ts[i].n), i + 1) && !JoinedAt(ts, i)
  {
  }

  lemma {:induction false} BraceEnds(ts: Toks, i: nat)
    requires i < |ts| && ts[i] == TRBrace
    ensures LiteralFields(ts, i) == LYes([], i + 1) && MapOf([]) == map[] && !JoinedFields(ts, i)
  {
    hide LiteralAt;
  }

  lemma {:induction false} NotJoined(ts: Toks, i: nat)
    requires i < |ts| && ts[i] == TLBrace && !JoinedFields(ts, SkipNewlines(ts, i + 1))
    ensures !JoinedAt(ts, i)
  {
    hide JoinedFields, SkipNewlines;
  }

  lemma {:induction false} NotFit(ts: Toks, i: nat)
    requires i < |ts| && ts[i] == TLBrace && !FitsFields(ts, SkipNewlines(ts, i + 1)) && LiteralAt(ts, i).LYes?
    requires Peek(ts, LiteralAt(ts, i).next) == TNewline
    ensures ParseExpr(ts, i, 0).No?
  {
    assert Follower(TNewline) && WordOf(TNewline).None?;
    assert !FitsAt(ts, i) by { hide FitsFields, SkipNewlines; }
    hide FitsFields, SkipNewlines, LiteralAt, ParseExpr, FitsAt;
    ValueFits(ts, i);
  }

  lemma {:induction false} NoSkip(ts: Toks, i: nat)
    requires i < |ts| && ts[i] != TNewline
    ensures SkipNewlines(ts, i) == i && (ts[i] != TComma ==> AfterItem(ts, i) == i)
    ensures ts[i] == TComma && i + 1 < |ts| && ts[i + 1] != TNewline ==> AfterItem(ts, i) == i + 1
  {
    hide SkipNewlines;
    SkipTo(ts, i, i);
    if i + 1 < |ts| && ts[i + 1] != TNewline { SkipTo(ts, i + 1, i + 1); }
  }

  /** From token `i` on stands the last entry of a document, a number. */
  lemma {:induction false} LastNumber(ts: Toks, i: nat)
    requires i + 3 < |ts| && WordOf(ts[i]).Some? && ts[i] != TRBrace && ts[i + 1] == TColon && ts[i + 2].TNum? && ts[i + 3] == TRBrace
    ensures LiteralFields(ts, i).LYes? && LiteralFields(ts, i).next == i + 4 && !JoinedFields(ts, i)
    ensures MapOf(LiteralFields(ts, i).value) == map[WordOf(ts[i]).value := Num(ts[i + 2].n)]
    ensures var fs := LiteralFields(ts, i).value; |fs| == 1 && fs[0].key == WordOf(ts[i]).value
  {
    hide LiteralAt, LiteralFields, MapOf, AfterItem, JoinedAt, JoinedFields, WordOf;
    NoSkip(ts, i + 3);
    NumberAt(ts, i + 2);
    BraceEnds(ts, i + 3);
    OneEntry(ts, i);
    JoinedStep(ts, i);
  }

  /** `{w: 1 and: 2}` */
  ghost predicate Keyed(ts: Toks) {
    && |ts| == 9 && ts[0] == TLBrace && ts[1].TIdent? && ts[2] == TColon && ts[3] == TNum(1.0) && ts[4] == TAnd
    && ts[5] == TColon && ts[6] == TNum(2.0) && ts[7] == TRBrace && ts[8] == TNewline
  }

  lemma {:induction false} KeyedFields(ts: Toks)
    requires Keyed(ts)
    ensures LiteralFields(ts, 1).LYes? && LiteralFields(ts, 1).next == 8 && !JoinedFields(ts, 1) && !FitsFields(ts, 1)
    ensures MapOf(LiteralFields(ts, 1).value) == map[ts[1].s := Num(1.0)] + map["and" := Num(2.0)]
  {
    hide LiteralAt, LiteralFields, MapOf, AfterItem, JoinedAt, JoinedFields, FitsAt;
    LastNumber(ts, 4);
    NoSkip(ts, 4);
    NumberAt(ts, 3);
    OneEntry(ts, 1);
    JoinedStep(ts, 1);
    FitsFieldsStep(ts, 1);
  }

  /** A document as a literal, with no element at all that goes on, and no expression: `and` is an operator there. */
  lemma {:induction false} OperatorIsKey()
    ensures var ts := [TLBrace, TIdent("a"), TColon, TNum(1.0), TAnd, TColon, TNum(2.0), TRBrace, TNewline];
            && LiteralAt(ts, 0) == LYes(Obj(map["a" := Num(1.0), "and" := Num(2.0)]), 8)
            && !JoinedAt(ts, 0) && ParseExpr(ts, 0, 0).No?
  {
    hide LiteralAt, LiteralFields, MapOf, ParseExpr, SkipNewlines, JoinedAt, FitsFields, JoinedFields;
    var ts := [TLBrace, TIdent("a"), TColon, TNum(1.0), TAnd, TColon, TNum(2.0), TRBrace, TNewline];
    assert Keyed(ts) && ts[1] == TIdent("a");
    KeyedFields(ts);
    NoSkip(ts, 1);
    DocReads(ts, 0);
    assert map["a" := Num(1.0)] + map["and" := Num(2.0)] == map["a" := Num(1.0), "and" := Num(2.0)];
    NotJoined(ts, 0);
    NotFit(ts, 0);
  }

  lemma {:induction false} ListAt(ts: Toks, i: nat)
    requires i + 1 < |ts| && ts[i] == TLBrack && ts[i + 1] != TNewline && LiteralItems(ts, i + 1).LYes?
    ensures LiteralAt(ts, i) == LYes(Arr(LiteralItems(ts, i + 1).value), LiteralItems(ts, i + 1).next)
  {
    hide LiteralItems, LiteralFields, SkipNewlines;
    SkipTo(ts, i + 1, i + 1);
  }

  lemma {:induction false} BracketEnds(ts: Toks, i: nat)
    requires i < |ts| && ts[i] == TRBrack
    ensures LiteralItems(ts, i) == LYes([], i + 1)
  {
    hide LiteralAt;
  }

  /** `[2, 3]` */
  ghost predicate Two(ts: Toks, i: nat) {
    i + 4 < |ts| && ts[i] == TLBrack && ts[i + 1].TNum? && ts[i + 2] == TComma && ts[i + 3].TNum? && ts[i + 4] == TRBrack
  }

  lemma {:induction false} TwoRead(ts: Toks, i: nat)
    requires Two(ts, i)
    ensures LiteralAt(ts, i).LYes? && LiteralAt(ts, i).next == i + 5 && !IndexLike(ts, i)
  {
    hide LiteralAt, LiteralItems, AfterItem;
    NoSkip(ts, i + 2);
    NoSkip(ts, i + 4);
    NumberAt(ts, i + 1);
    NumberAt(ts, i + 3);
    BracketEnds(ts, i + 4);
    ItemsUnroll(ts, i + 3);
    ItemsUnroll(ts, i + 1);
    ListAt(ts, i);
  }

  /** `[1 [2, 3]]` */
  lemma {:induction false} NestedReads(ts: Toks, i: nat)
    requires i + 7 < |ts| && ts[i] == TLBrack && ts[i + 1].TNum? && Two(ts, i + 2) && ts[i + 7] == TRBrack
    ensures LiteralAt(ts, i).LYes? && LiteralAt(ts, i).next == i + 8 && !FitsAt(ts, i)
  {
    hide LiteralAt, LiteralItems, AfterItem, IndexLike, SkipNewlines;
    NoSkip(ts, i + 1);
    NoSkip(ts, i + 2);
    NoSkip(ts, i + 7);
    TwoRead(ts, i + 2);
    NumberAt(ts, i + 1);
    BracketEnds(ts, i + 7);
    ItemsUnroll(ts, i + 2);
    ItemsUnroll(ts, i + 1);
    ListAt(ts, i);
  }

  /** The tokens of `{a: [1 [2, 3]], a: 2}`, with any word for `a` and any numbers in the list. */
  ghost predicate Hidden(ts: Toks) {
    && |ts| == 17 && ts[0] == TLBrace && ts[1].TIdent? && ts[2] == TColon && ts[3] == TLBrack && ts[4].TNum? && Two(ts, 5) && ts[10] == TRBrack
    && ts[11] == TComma && ts[12] == ts[1] && ts[13] == TColon && ts[14] == TNum(2.0) && ts[15] == TRBrace && ts[16] == TNewline
  }

  lemma {:induction false} HiddenFields(ts: Toks)
    requires Hidden(ts)
    ensures LiteralFields(ts, 1).LYes? && LiteralFields(ts, 1).next == 16 && !JoinedFields(ts, 1) && !FitsFields(ts, 1)
    ensures MapOf(LiteralFields(ts, 1).value) == map[ts[1].s := Num(2.0)]
  {
    hide LiteralAt, LiteralFields, MapOf, AfterItem, JoinedAt, JoinedFields, FitsAt;
    LastNumber(ts, 12);
    NestedReads(ts, 3);
    NoSkip(ts, 11);
    OneEntry(ts, 1);
    JoinedStep(ts, 1);
    FitsFieldsStep(ts, 1);
    var v := LiteralAt(ts, 3).value;
    assert map[ts[1].s := v] + map[ts[1].s := Num(2.0)] == map[ts[1].s := Num(2.0)];
  }

  /** `{a: [1 [2, 3]], a: 2}`: a hidden value is enough. No element that counts goes on, and the tokens are no expression. */
  lemma {:induction false} HiddenBreaks(ts: Toks)
    requires Hidden(ts)
    ensures LiteralAt(ts, 0) == LYes(Obj(map[ts[1].s := Num(2.0)]), 16) && !JoinedAt(ts, 0) && ParseExpr(ts, 0, 0).No?
  {
    hide LiteralAt, LiteralFields, MapOf, ParseExpr, SkipNewlines, JoinedAt, FitsFields, JoinedFields, Two;
    HiddenFields(ts);
    NoSkip(ts, 1);
    DocReads(ts, 0);
    NotJoined(ts, 0);
    NotFit(ts, 0);
  }
}
