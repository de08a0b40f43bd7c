// The one case in which rewriting an entry is refused (core/src/vjs.rs): the new value is a word
// and the next key follows it with nothing between, so that both become one word. The result
// does not parse, neither as a literal nor as a statement.

module VjsGlued {
  import opened Wrappers
  import opened VjsSyntax
  import opened VjsParser
  import opened VjsProgram
  import opened VjsLocal
  import opened VjsBrackets
  import opened VjsSplice
  import opened VjsLexer
  import opened VjsRelex
  import opened VjsJson
  import opened VjsEdit
  import opened VjsEditProof

  // ---------- an expression over the tokens of a literal ends where the literal does ----------

  lemma {:induction false} PrefixEndsAtLiteral(ts: Toks, i: nat)
    requires i <= |ts| && LiteralAt(ts, i).LYes? && Follower(Peek(ts, LiteralAt(ts, i).next)) && ParsePrefix(ts, i).Yes?
    ensures ParsePrefix(ts, i).next == LiteralAt(ts, i).next
  {
    hide Follower;
    var j := LiteralAt(ts, i).next;
    if Opening(ts[i]) && !ts[i].TLParen? {
      hide LiteralAt, ParsePrefix, Depth;
      LiteralInside(ts, i);
      EnclosedBalanced(ts, i);
    } else if ts[i] == TMinus {
      hide LiteralItems, LiteralFields, ParseExpr;
      NumberEnds(ts, i + 1);
    } else {
      hide LiteralItems, LiteralFields, ParseExpr, ParseItems, ParseFields, ParseArgs, ParseInvoke, ParseParts;
    }
  }

  /** After a sign, the operand is the number alone. */
  lemma {:induction false} NumberEnds(ts: Toks, i: nat)
    requires i < |ts| && ts[i].TNum? && Follower(Peek(ts, i + 1)) && ParseExpr(ts, i, UNARY_POWER).Yes?
    ensures ParseExpr(ts, i, UNARY_POWER).next == i + 1
  {
    hide ParseItems, ParseFields, ParseArgs, ParseInvoke, ParseParts;
    var lhs := Lit(Num(ts[i].n));
    assert ParsePrefix(ts, i) == Yes(lhs, i + 1);
    FollowerStops(ts, i + 1, lhs, UNARY_POWER);
  }

  /** A token that may follow an entry's value appends nothing to it, and is no operator above power 2. */
  lemma {:induction false} FollowerStops(ts: Toks, i: nat, lhs: Expr, bp: nat)
    requires i <= |ts| && Follower(Peek(ts, i))
    ensures ParsePostfix(ts, i, lhs) == Yes(lhs, i)
    ensures bp >= 6 ==> ParseBinary(ts, i, lhs, bp) == Yes(lhs, i)
    ensures OpOf(Peek(ts, i)).None? ==> ParseBinary(ts, i, lhs, bp) == Yes(lhs, i)
  {
    hide ParseExpr;
  }

  lemma {:induction false} NothingBeforeColon(ts: Toks, i: nat, bp: nat)
    requires i < |ts| && ts[i] == TColon
    ensures ParseExpr(ts, i, bp).No?
  {
    assert ParsePrefix(ts, i).No?;
  }

  lemma {:induction false} ExprEndsAtLiteral(ts: Toks, i: nat)
    requires i <= |ts| && LiteralAt(ts, i).LYes? && ParseExpr(ts, i, 0).Yes?
    requires var j := LiteralAt(ts, i).next; Follower(Peek(ts, j)) && (WordOf(Peek(ts, j)).Some? ==> Peek(ts, j + 1) == TColon)
    ensures ParseExpr(ts, i, 0).next == LiteralAt(ts, i).next
  {
    hide LiteralAt, ParsePrefix, ParsePostfix, ParseBinary;
    var j := LiteralAt(ts, i).next;
    var lhs := ParsePrefix(ts, i).value;
    PrefixEndsAtLiteral(ts, i);
    FollowerStops(ts, j, lhs, 0);
    if OpOf(Peek(ts, j)).Some? {
      OperatorThenColon(ts, j, lhs);
    }
  }

  lemma {:induction false} OperatorThenColon(ts: Toks, i: nat, lhs: Expr)
    requires i <= |ts| && OpOf(Peek(ts, i)).Some? && Follower(Peek(ts, i)) && Peek(ts, i + 1) == TColon
    ensures ParseBinary(ts, i, lhs, 0).No?
  {
    hide ParseExpr;
    NothingBeforeColon(ts, i + 1, OpOf(Peek(ts, i)).value.1);
  }

  // ---------- a document with a word run together with the next key ----------

  /** `key : word :` is no entry. */
  lemma {:induction false} GluedEntry(us: Toks, k: nat)
    requires k + 3 < |us| && WordOf(us[k]).Some? && us[k] != TRBrace && us[k + 1] == TColon && us[k + 2].TIdent? && us[k + 3] == TColon
    ensures ParseFields(us, k).No? && LiteralFields(us, k).LNo?
  {
    hide ParseExpr, ParsePrefix, ParsePostfix, ParseBinary, ParseItems, ParseArgs, ParseInvoke, ParseParts, LiteralItems;
    WordAlone(us, k + 2);
    assert ParseEntry(us, k) == Yes(Entry(WordOf(us[k]).value, Var(us[k + 2].s)), k + 3);
    SkipTo(us, k + 3, k + 3);
    assert AfterItem(us, k + 3) == k + 3;
    assert WordOf(TColon).None?;
    assert ParseFields(us, k + 3).No?;
  }

  lemma {:induction false} WordAlone(us: Toks, i: nat)
    requires i + 1 < |us| && us[i].TIdent? && us[i + 1] == TColon
    ensures ParseExpr(us, i, 0) == Yes(Var(us[i].s), i + 1)
  {
    hide ParseItems, ParseFields, ParseArgs, ParseInvoke, ParseParts;
    assert ParsePrefix(us, i) == Yes(Var(us[i].s), i + 1);
  }

  /** The entries before the glued one are read, and it is not: the document is neither a literal nor an expression. */
  lemma {:induction false} GluedFields(ts: Toks, us: Toks, i: nat, m: nat)
    requires i <= |ts| && LiteralFields(ts, i).LYes? && m < |LiteralFields(ts, i).value|
    requires var f := LiteralFields(ts, i).value[m];
             && Same(ts, us, i, f.from, 0) && f.from + 1 < |us| && us[f.from].TIdent? && us[f.from + 1] == TColon
    ensures i <= |us| && ParseFields(us, i).No? && LiteralFields(us, i).LNo?
    decreases m
  {
    hide LiteralAt, AfterItem, WordOf, LiteralFields, ParseFields, Same;
    var fs := LiteralFields(ts, i).value;
    FieldsFollow(ts, i, m);
    FirstEntry(ts, i);
    SamePeek(ts, us, i, fs[m].from, 0, i);
    SamePeek(ts, us, i, fs[m].from, 0, i + 1);
    if m == 0 {
      GluedEntry(us, i);
    } else {
      var j := fs[0].to;
      var k := AfterItem(ts, j);
      FieldsFollow(ts, i, 0);
      FieldsFollow(ts, k, m - 1);
      FirstEntry(ts, k);
      FieldUnchanged(ts, us, i, fs[m].from);
      SameFrom(ts, us, i, k, fs[m].from, 0);
      GluedFields(ts, us, k, m - 1);
      KeyNext(ts, us, j, k, i, fs[m].from);
      FieldsFail(us, i);
    }
  }

  /** Behind an entry's value stands something that may follow it, and a key is followed by its colon. */
  lemma {:induction false} KeyNext(ts: Toks, us: Toks, j: nat, k: nat, i: nat, n: nat)
    requires i <= j <= k && k + 1 < n && j <= |ts| && k == AfterItem(ts, j) && Same(ts, us, i, n, 0) && EntryHead(ts, k)
    ensures Follower(Peek(us, j)) && (WordOf(Peek(us, j)).Some? ==> Peek(us, j + 1) == TColon)
  {
    hide LiteralAt, Same, AfterItem;
    SamePeek(ts, us, i, n, 0, j);
    SamePeek(ts, us, i, n, 0, j + 1);
    AfterItemFirst(ts, j);
  }

  /** If the rest of a document fails, so does the document. */
  lemma {:induction false} FieldsFail(us: Toks, i: nat)
    requires i <= |us| && EntryHead(us, i)
    requires var j := LiteralAt(us, i + 2).next;
             && Follower(Peek(us, j)) && (WordOf(Peek(us, j)).Some? ==> Peek(us, j + 1) == TColon)
             && ParseFields(us, AfterItem(us, j)).No? && LiteralFields(us, AfterItem(us, j)).LNo?
    ensures ParseFields(us, i).No? && LiteralFields(us, i).LNo?
  {
    hide LiteralAt, AfterItem, WordOf, LiteralFields, ParseExpr, Follower;
    FieldsStep(us, i);
    if ParseExpr(us, i + 2, 0).Yes? { ExprEndsAtLiteral(us, i + 2); }
  }

  // ---------- the program ----------

  lemma {:induction false} GluedDoc(ts: Toks, us: Toks, from: nat, m: nat)
    requires from <= |ts| && LiteralAt(ts, from).LYes? && m < |FieldsAt(ts, from)|
    requires var f := FieldsAt(ts, from)[m];
             && Same(ts, us, 0, f.from, 0) && f.from + 1 < |us| && us[f.from].TIdent? && us[f.from + 1] == TColon
    ensures from <= |us| && LiteralAt(us, from).LNo? && ParseExpr(us, from, 0).No? && Peek(us, from) == TLBrace
  {
    hide LiteralAt, FieldsAt, LiteralFields, SkipNewlines, Same, ParseExpr, Follower;
    EntryFacts(ts, from, m);
    DocFacts(ts, from);
    var f := FieldsAt(ts, from)[m];
    var k := SkipNewlines(ts, from + 1);
    assert k < f.from by { FieldsFollow(ts, k, m); }
    HeadSame(ts, us, from, f.from);
    GluedFields(ts, us, k, m);
    NoDoc(us, from);
  }

  lemma {:induction false} NoDoc(us: Toks, i: nat)
    requires i < |us| && us[i] == TLBrace
    requires var k := SkipNewlines(us, i + 1); ParseFields(us, k).No? && LiteralFields(us, k).LNo?
    ensures LiteralAt(us, i).LNo? && ParseExpr(us, i, 0).No?
  {
    hide LiteralFields, LiteralItems, ParseFields, ParseItems, ParseInvoke, ParseArgs, ParseParts, SkipNewlines, ParsePostfix, ParseBinary;
    assert ParsePrefix(us, i).No?;
  }

  /** The line of the constant does not parse. */
  lemma {:induction false} GluedItem(ts: Toks, us: Toks, i: nat)
    requires i <= |ts| && !AtEnd(ts, i) && ParseItem(ts, i).Yes? && ParseItem(ts, i).value.Const?
    requires Same(ts, us, 0, i + 2, 0) && i + 2 <= |us| && LiteralAt(us, i + 2).LNo? && ParseExpr(us, i + 2, 0).No? && Peek(us, i + 2) == TLBrace
    ensures ParseItem(us, i).No?
  {
    hide LiteralAt, ParseItem, Same, ParseExpr, SurfaceName;
    ConstSpan(ts, i);
    SamePeek(ts, us, 0, i + 2, 0, i);
    SamePeek(ts, us, 0, i + 2, 0, i + 1);
    NoItem(us, i);
  }

  lemma {:induction false} NoItem(us: Toks, i: nat)
    requires i + 2 <= |us| && us[i].TIdent? && us[i + 1] == TEq
    requires LiteralAt(us, i + 2).LNo? && ParseExpr(us, i + 2, 0).No? && Peek(us, i + 2) == TLBrace
    ensures ParseItem(us, i).No?
  {
    hide LiteralAt, ParseExpr, SurfaceName;
    assert ParsePath(us, i + 1, [us[i].s]) == Yes([us[i].s], i + 1);
  }

  lemma {:induction false} GluedItems(ts: Toks, us: Toks, i: nat, m: nat)
    requires i <= |ts| && ParseItems'(ts, i).Some? && m < |ParseItems'(ts, i).value| && ParseItems'(ts, i).value[m].Const?
    requires var c := ParseItems'(ts, i).value[m];
             && Same(ts, us, 0, c.from, 0) && c.from <= |us| && c.from <= |ts|
             && LiteralAt(us, c.from).LNo? && ParseExpr(us, c.from, 0).No? && Peek(us, c.from) == TLBrace
    ensures i <= |us| && ParseItems'(us, i).None?
    decreases m
  {
    hide SkipNewlines, ParseItem, LiteralAt, ParseItems', ParseExpr, Same;
    ItemsStep(ts, i);
    var items := ParseItems'(ts, i).value;
    var c := items[m];
    var k := SkipNewlines(ts, i);
    var j := ParseItem(ts, k).next;
    ConstsFollow(ts, i, m);
    if m == 0 { ConstSpan(ts, k); } else { ConstsFollow(ts, j, m - 1); }
    SameFrom(ts, us, 0, i, c.from, 0);
    SkipSame(ts, us, i, c.from, 0);
    ItemsStep(us, i);
    if m == 0 {
      GluedItem(ts, us, k);
    } else {
      SameFrom(ts, us, 0, k, c.from, 0);
      ItemSame(ts, us, k, c.from, 0);
      GluedItems(ts, us, j, m - 1);
    }
  }

  // ---------- the text ----------

  lemma {:induction false} RestReads(ts: Toks, i: nat, m: nat)
    requires i <= |ts| && LiteralFields(ts, i).LYes? && m < |LiteralFields(ts, i).value|
    ensures var f := LiteralFields(ts, i).value[m]; f.to <= |ts| && LiteralFields(ts, AfterItem(ts, f.to)).LYes?
    decreases m
  {
    hide LiteralAt, AfterItem, WordOf, LiteralFields;
    FirstEntry(ts, i);
    if m > 0 { RestReads(ts, AfterItem(ts, LiteralFields(ts, i).value[0].to), m - 1); }
  }

  /** A word behind an entry's value is the next key, with its colon. */
  lemma {:induction false} NextKey(ts: Toks, from: nat, m: nat)
    requires from <= |ts| && LiteralAt(ts, from).LYes? && m < |FieldsAt(ts, from)|
    requires var q := FieldsAt(ts, from)[m].to; !Peek(ts, q).TNewline? && !Peek(ts, q).TComma? && !Peek(ts, q).TRBrace?
    ensures Peek(ts, FieldsAt(ts, from)[m].to + 1) == TColon
  {
    hide LiteralAt, FieldsAt, LiteralFields, SkipNewlines, Follower, AfterItem;
    EntryFacts(ts, from, m);
    DocFacts(ts, from);
    var q := FieldsAt(ts, from)[m].to;
    RestReads(ts, SkipNewlines(ts, from + 1), m);
    AfterItemFirst(ts, q);
    if LiteralFields(ts, q).value == [] { NoFields(ts, q); } else { FieldsShape(ts, q); }
  }

  lemma {:induction false} GluedWord(w: string, x: string)
    requires w == "true" || w == "false" || w == "null"
    requires x != ""
    ensures WordTok(w + x) == TIdent(w + x)
  {
    var z := w + x;
    assert z[0] == w[0] && z[1] == w[1] && |z| > |w|;
  }

  /** A word that may follow an entry's value is read to its last character. */
  lemma {:induction false} FollowerWord(x: string)
    requires x != "" && WordChar(x[0]) && LexOne(x).Token? && Follower(LexOne(x).t)
    ensures Letter(x[0]) && !Quoted(x) && LexOne(x) == Token(WordTok(x[..Run(x, WordChar)]), Run(x, WordChar))
    ensures !LexOne(x).t.TNewline? && !LexOne(x).t.TComma? && !LexOne(x).t.TRBrace?
  {
    hide LexFrom, LexString, LexFString, NumOf, WordTok, Run;
    WordIsNoSymbol(x[..Run(x, WordChar)]);
    WordIsNoBrace(x[..Run(x, WordChar)]);
  }

  lemma {:induction false} WordIsNoBrace(w: string)
    ensures var t := WordTok(w); t != TRBrace && t != TComma && t != TNewline
  {
  }

  /** Put before such a word, `w` becomes one word with it. */
  lemma {:induction false} GluedLexes(w: string, x: string)
    requires w == "true" || w == "false" || w == "null"
    requires x != "" && WordChar(x[0]) && LexOne(x).Token? && Follower(LexOne(x).t)
    ensures LexToks(w + x) == Prepend([TIdent(w + x[..LexOne(x).n])], LexToks(x[LexOne(x).n..]))
  {
    hide LexFrom, LexToks, LexOne, WordTok, Run, Follower;
    FollowerWord(x);
    var n := LexOne(x).n;
    var s := w + x;
    GluedRun(w, x, n);
    LexRun(s);
    GluedWord(w, x[..n]);
    LexToksStep(s);
  }

  lemma {:induction false} GluedRun(w: string, x: string, n: nat)
    requires (w == "true" || w == "false" || w == "null") && n == Run(x, WordChar)
    ensures Run(w + x, WordChar) == |w| + n && !Quoted(w + x) && Letter((w + x)[0])
    ensures (w + x)[..|w| + n] == w + x[..n] && (w + x)[|w| + n..] == x[n..]
  {
    hide Run;
    var s := w + x;
    forall k | 0 <= k < |w| + n ensures WordChar(s[k]) { assert s[k] == if k < |w| then w[k] else x[k - |w|]; }
    assert n < |x| ==> s[|w| + n] == x[n];
    RunIs(s, WordChar, |w| + n);
    assert s[0] == w[0] && s[1] == w[1];
  }

  /** From the token after `q` on, the text reads as it did. */
  lemma {:induction false} TailAfter(src: string, ps: seq<Placed>, q: nat)
    requires LexFrom(src) == Some(ps) && q + 1 < |ps| && PlaceOf(src, ps, q) < |src|
    ensures var x := src[PlaceOf(src, ps, q)..]; LexOne(x).Token? && LexOne(x).t == ps[q].tok && LexToks(x[LexOne(x).n..]) == Some(ToksOf(ps)[q + 1..])
  {
    hide LexFrom, LexOne, Reaches, Before;
    TokenReached(src, q);
    var x := src[PlaceOf(src, ps, q)..];
    assert x == Rest(src, ps[q].rem);
    LexFromStep(x);
    var z := LexFrom(x[LexOne(x).n..]).value;
    assert z == ([Placed(LexOne(x).t, |x|)] + z)[1..];
    assert ToksOf(ps[q..][1..]) == ToksOf(ps)[q + 1..];
  }

  /** The tokens of the source once the new word and the next key are one. */
  lemma {:induction false} GluedRelexed(src: string, ps: seq<Placed>, p: nat, q: nat, w: string) returns (s: string)
    requires LexFrom(src) == Some(ps) && 0 < p < q && q + 1 < |ps| && ps[p].tok != TNewline && ps[p - 1].tok == TColon
    requires w == "true" || w == "false" || w == "null"
    requires PlaceOf(src, ps, q) < |src| && WordChar(src[PlaceOf(src, ps, q)]) && Follower(ps[q].tok)
    ensures LexToks(Spliced(src, PlaceOf(src, ps, p), PlaceOf(src, ps, q), w)) ==
            Some(ToksOf(ps)[..p] + [TIdent(s)] + ToksOf(ps)[q + 1..])
  {
    hide LexFrom, LexToks, PlaceOf, LexOne, Follower;
    var x := src[PlaceOf(src, ps, q)..];
    TailAfter(src, ps, q);
    GluedLexes(w, x);
    s := w + x[..LexOne(x).n];
    HeadLex(src, ps, p, w + x);
    assert Spliced(src, PlaceOf(src, ps, p), PlaceOf(src, ps, q), w) == src[..PlaceOf(src, ps, p)] + (w + x);
    assert ToksOf(ps)[..p] + ([TIdent(s)] + ToksOf(ps)[q + 1..]) == ToksOf(ps)[..p] + [TIdent(s)] + ToksOf(ps)[q + 1..];
  }

  /** Tokens in which a constant has run together do not parse. */
  lemma {:induction false} GluedToks(ts: Toks, m: nat, n: nat, s: string, us: Toks)
    requires ParseItems'(ts, 0).Some? && m < |ParseItems'(ts, 0).value| && ParseItems'(ts, 0).value[m].Const?
    requires var c := ParseItems'(ts, 0).value[m];
             && c.from <= |ts| && LiteralAt(ts, c.from).LYes? && n < |FieldsAt(ts, c.from)|
             && var f := FieldsAt(ts, c.from)[n];
                f.from <= f.to && f.to + 1 < |ts| && ts[f.to + 1] == TColon && us == ts[..f.from] + [TIdent(s)] + ts[f.to + 1..]
    ensures ParseItems'(us, 0).None?
  {
    hide ParseItems', LiteralAt, FieldsAt, Same, Follower, ParseExpr;
    var c := ParseItems'(ts, 0).value[m];
    var f := FieldsAt(ts, c.from)[n];
    EntryFacts(ts, c.from, n);
    SpliceSame(ts, f.from, f.to + 1, [TIdent(s)], us, 1 - (f.to + 1 - f.from));
    assert us[f.from + 1] == TColon;
    GluedDoc(ts, us, c.from, n);
    SameUpTo(ts, us, f.from, c.from);
    GluedItems(ts, us, 0, m);
  }

  /** A program whose edited constant has run together does not parse. */
  lemma {:induction false} GluedUnreadable(src: string, name: string, key: string, s: string, out: string)
    requires HasEntry(src, name, key)
    requires var ts := ToksOf(ReadSource(src).value.placed); var fs := EntriesOf(src, name); var f := fs[FindField(fs, key)];
             && f.from <= f.to && f.to + 1 < |ts| && ts[f.to + 1] == TColon
             && LexToks(out) == Some(ts[..f.from] + [TIdent(s)] + ts[f.to + 1..])
    ensures ReadSource(out).None?
  {
    hide LexFrom, ParseItems', LiteralAt, FindConst, FieldsAt, FindField;
    var p := ReadSource(src).value;
    ConstPlaced(src, name);
    GluedToks(ToksOf(p.placed), FindConst(p.items, name), FindField(EntriesOf(src, name), key), s, LexToks(out).value);
  }

  lemma {:induction false} SameUpTo(ts: Toks, us: Toks, n: nat, k: nat)
    requires Same(ts, us, 0, n, 0) && k <= n && n <= |ts| && n <= |us|
    ensures Same(ts, us, 0, k, 0)
  {
  }

  /** Where the new word meets the next key there is no blank, and the key is followed by its colon. */
  lemma {:induction false} GluedPlace(src: string, name: string, key: string)
    requires HasEntry(src, name, key)
    requires var b := EntrySpan(src, name, key).1; b < |src| && WordChar(src[b])
    ensures var p := ReadSource(src).value; var ts := ToksOf(p.placed); var fs := EntriesOf(src, name); var f := fs[FindField(fs, key)];
            && 0 < f.from < f.to && f.to + 1 < |ts| && ts[f.to + 1] == TColon
            && ts[f.from] != TNewline && ts[f.from - 1] == TColon && Follower(ts[f.to])
            && EntrySpan(src, name, key) == (PlaceOf(src, p.placed, f.from), PlaceOf(src, p.placed, f.to))
  {
    hide ReadSource, LexFrom, HasEntry, EntriesOf, EntrySpan, PlaceOf, Trimmed, FindField, Follower, WordChar;
    EntryStands(src, name, key);
    var fs := EntriesOf(src, name);
    var f := fs[FindField(fs, key)];
    EntryNotLast(src, name, key);
    GluedKey(src, ReadSource(src).value.placed, f.to, EntrySpan(src, name, key).1);
    EntryNextKey(src, name, key);
  }

  lemma {:induction false} EntryNotLast(src: string, name: string, key: string)
    requires HasEntry(src, name, key)
    ensures var fs := EntriesOf(src, name); fs[FindField(fs, key)].to + 1 < |ReadSource(src).value.placed|
  {
    hide ReadSource, LexFrom, LiteralAt, FindConst, PlaceOf, FieldsAt, FindField, Follower;
    var p := ReadSource(src).value;
    var ts := ToksOf(p.placed);
    var c := p.items[FindConst(p.items, name)];
    ConstPlaced(src, name);
    EntryFacts(ts, c.from, FindField(FieldsAt(ts, c.from), key));
  }

  lemma {:induction false} EntryNextKey(src: string, name: string, key: string)
    requires HasEntry(src, name, key)
    requires var fs := EntriesOf(src, name); var q := fs[FindField(fs, key)].to; var ts := ToksOf(ReadSource(src).value.placed);
             !Peek(ts, q).TNewline? && !Peek(ts, q).TComma? && !Peek(ts, q).TRBrace?
    ensures var fs := EntriesOf(src, name); Peek(ToksOf(ReadSource(src).value.placed), fs[FindField(fs, key)].to + 1) == TColon
  {
    hide ReadSource, LexFrom, LiteralAt, FindConst, PlaceOf, FieldsAt, FindField;
    var p := ReadSource(src).value;
    var ts := ToksOf(p.placed);
    var c := p.items[FindConst(p.items, name)];
    ConstPlaced(src, name);
    NextKey(ts, c.from, FindField(FieldsAt(ts, c.from), key));
  }

  lemma {:induction false} GluedKey(src: string, ps: seq<Placed>, q: nat, b: nat)
    requires LexFrom(src) == Some(ps) && q + 1 < |ps| && b <= PlaceOf(src, ps, q) && b < |src| && WordChar(src[b])
    requires (forall k :: b <= k < PlaceOf(src, ps, q) ==> Space(src[k])) && Follower(ps[q].tok)
    ensures b == PlaceOf(src, ps, q) && !ps[q].tok.TNewline? && !ps[q].tok.TComma? && !ps[q].tok.TRBrace?
  {
    hide LexFrom, LexToks, PlaceOf, LexOne, Follower;
    assert b == PlaceOf(src, ps, q);
    TailAfter(src, ps, q);
    FollowerWord(src[b..]);
  }

  lemma {:induction false} GluedText(j: JVal, x: string)
    requires Glued(j, x)
    ensures (Render(j) == "true" || Render(j) == "false" || Render(j) == "null") && x != "" && WordChar(x[0])
  {
  }

  /** Rewriting an entry is refused when the new word would run together with the next key. */
  lemma {:induction false} GluedRefused(src: string, name: string, key: string, j: JVal, read: string -> Verdict)
    requires HasEntry(src, name, key) && !WholeKey(key) && Glued(j, src[EntrySpan(src, name, key).1..])
    ensures SetLiteral(src, name, key, j, read) == Refused(BadResult)
  {
    hide ReadSource, LexFrom, LexToks, LiteralAt, FindConst, PlaceOf, FieldsAt, FindField, Follower, SetLiteral, EntrySpan, WordChar,
      Render, Glued, HasEntry, EntriesOf, Checked;
    EntryStands(src, name, key);
    GluedText(j, src[EntrySpan(src, name, key).1..]);
    var p := ReadSource(src).value;
    var fs := EntriesOf(src, name);
    var f := fs[FindField(fs, key)];
    var (start, b) := EntrySpan(src, name, key);
    GluedPlace(src, name, key);
    SetReplaces(src, name, key, j, read);
    var s := GluedRelexed(src, p.placed, f.from, f.to, Render(j));
    GluedUnreadable(src, name, key, s, Spliced(src, start, b, Render(j)));
    NotChecked(Spliced(src, start, b, Render(j)));
  }

  lemma {:induction false} NotChecked(out: string)
    requires ReadSource(out).None?
    ensures Checked(out) == Refused(BadResult)
  {
    hide ReadSource;
  }
}
