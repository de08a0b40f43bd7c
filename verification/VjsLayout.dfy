// Layout, keys and grouping (core/src/vjs.rs), apart from any one way of printing: commas are optional
// and lines may break inside brackets, a key may be any word, signs bind tightest, and a bracket is a
// filter by what stands in it.

module VjsLayout {
  import opened Wrappers
  import opened VjsSyntax
  import opened VjsParser
  import opened VjsPratt
  import opened VjsStmtPrint
  import opened VjsWords

  // ---------- between the elements of a list ----------

  /** Line breaks, perhaps a comma, and line breaks. */
  datatype Gap = Gap(before: nat, comma: bool, after: nat)

  function Breaks(n: nat): (ts: Toks) { seq(n, i => TNewline) }

  function GapToks(g: Gap): (ts: Toks) { Breaks(g.before) + (if g.comma then [TComma] else []) + Breaks(g.after) }

  predicate Apart(g: Gap) { g.before > 0 || g.comma || g.after > 0 }

  lemma {:induction false} SkipBreaks(ts: Toks, i: nat, n: nat)
    requires At(ts, i, Breaks(n)) && Peek(ts, i + n) != TNewline
    ensures i + n <= |ts| && SkipNewlines(ts, i) == i + n
    decreases n
  {
    assert |Breaks(n)| == n;
    if n > 0 {
      assert ts[i..i + n][0] == TNewline;
      assert ts[i + 1..i + 1 + (n - 1)] == ts[i..i + n][1..] == Breaks(n - 1);
      SkipBreaks(ts, i + 1, n - 1);
    }
  }

  /** Behind an element all of the gap is skipped, and no more. */
  lemma {:induction false} SkipGap(ts: Toks, j: nat, g: Gap)
    requires At(ts, j, GapToks(g)) && Peek(ts, j + |GapToks(g)|) != TNewline && (!g.comma ==> Peek(ts, j + |GapToks(g)|) != TComma)
    ensures j + |GapToks(g)| <= |ts| && AfterItem(ts, j) == j + |GapToks(g)|
  {
    hide At, SkipNewlines, Breaks;
    var b, a := Breaks(g.before), Breaks(g.after);
    BreaksLong(g.before);
    BreaksLong(g.after);
    if g.comma {
      AtSplit(ts, j, b + [TComma], a);
      AtSplit(ts, j, b, [TComma]);
      AtOne(ts, j + |b|, TComma);
      SkipBreaks(ts, j, g.before);
      SkipBreaks(ts, j + |b| + 1, g.after);
    } else {
      BreaksJoin(g.before, g.after);
      assert GapToks(g) == Breaks(g.before + g.after) by { assert b + [] == b; }
      BreaksLong(g.before + g.after);
      SkipBreaks(ts, j, g.before + g.after);
    }
  }

  lemma {:induction false} BreaksLong(n: nat)
    ensures |Breaks(n)| == n
  {
  }

  lemma {:induction false} BreaksJoin(m: nat, n: nat)
    ensures Breaks(m) + Breaks(n) == Breaks(m + n)
  {
  }

  lemma {:induction false} GapStarts(g: Gap)
    requires Apart(g)
    ensures GapToks(g) != [] && (GapToks(g)[0] == TNewline || GapToks(g)[0] == TComma)
  {
  }

  /** What stands behind an element does not carry it on, and is skipped up to the next one or the bracket. */
  lemma {:induction false} GapEnds(ts: Toks, j: nat, g: Gap)
    requires At(ts, j, GapToks(g)) && Peek(ts, j + |GapToks(g)|) != TNewline && Peek(ts, j + |GapToks(g)|) != TComma
    requires Apart(g) || Peek(ts, j + |GapToks(g)|) == TRBrack || Peek(ts, j + |GapToks(g)|) == TRBrace
    ensures j + |GapToks(g)| <= |ts| && AfterItem(ts, j) == j + |GapToks(g)| && Stops(Peek(ts, j), 0)
  {
    hide At, AfterItem;
    SkipGap(ts, j, g);
    hide GapToks;
    if Apart(g) {
      GapStarts(g);
      AtFirst(ts, j, GapToks(g));
    } else {
      NoGap(g);
    }
  }

  lemma {:induction false} NoGap(g: Gap)
    requires !Apart(g)
    ensures GapToks(g) == []
  {
  }

  // ---------- arrays ----------

  /** The elements, each with the gap behind it. */
  function Loose(es: seq<Expr>, gaps: seq<Gap>): (ts: Toks)
    requires |gaps| == |es|
  {
    if es == [] then [] else Print(es[0], 0) + GapToks(gaps[0]) + Loose(es[1..], gaps[1..])
  }

  /** Only behind the last element there may be nothing. */
  predicate Separated(gaps: seq<Gap>) { forall k :: 0 <= k < |gaps| - 1 ==> Apart(gaps[k]) }

  lemma {:induction false} LooseStarts(es: seq<Expr>, gaps: seq<Gap>, ts: Toks, i: nat)
    requires |gaps| == |es| && At(ts, i, Loose(es, gaps) + [TRBrack])
    ensures i < |ts| && Starts(ts[i]) == (es != []) && (es == [] ==> ts[i] == TRBrack)
  {
    hide At, Print, GapToks;
    if es == [] {
      assert [] + [TRBrack] == [TRBrack];
      AtOne(ts, i, TRBrack);
    } else {
      PrintStarts(es[0], 0);
      assert Loose(es, gaps)[0] == Print(es[0], 0)[0];
      AtFirst(ts, i, Loose(es, gaps) + [TRBrack]);
    }
  }

  lemma {:induction false} LooseItems(es: seq<Expr>, gaps: seq<Gap>, ts: Toks, i: nat)
    requires |gaps| == |es| && Separated(gaps) && (forall k :: 0 <= k < |es| ==> Writable(es[k])) && At(ts, i, Loose(es, gaps) + [TRBrack])
    ensures i < |ts| && ParseItems(ts, i) == Yes(es, i + |Loose(es, gaps)| + 1)
    decreases |es|
  {
    hide At, Print, GapToks, ParseItems, ParseExpr, Writable, AfterItem, Stops, Apart, Loose, Starts;
    LooseStarts(es, gaps, ts, i);
    ItemsTurn(ts, i);
    LooseShape(es, gaps);
    if es != [] {
      var n := i + |Print(es[0], 0)| + |GapToks(gaps[0])|;
      StartsAt(ts, i);
      ItemThenGap(es[0], gaps[0], es[1..], gaps[1..], ts, i);
      LooseItems(es[1..], gaps[1..], ts, n);
      assert [es[0]] + es[1..] == es;
    }
  }

  lemma {:induction false} ItemThenGap(e: Expr, g: Gap, es: seq<Expr>, gaps: seq<Gap>, ts: Toks, i: nat)
    requires Writable(e) && |gaps| == |es| && (es != [] ==> Apart(g))
    requires At(ts, i, Print(e, 0) + (GapToks(g) + (Loose(es, gaps) + [TRBrack])))
    ensures var n := i + |Print(e, 0)|;
            && n + |GapToks(g)| <= |ts| && ParseExpr(ts, i, 0) == Yes(e, n) && AfterItem(ts, n) == n + |GapToks(g)|
            && At(ts, n + |GapToks(g)|, Loose(es, gaps) + [TRBrack])
  {
    hide At, Print, GapToks, ParseExpr, Writable, AfterItem, Stops, Apart, Loose, Starts;
    var x, z := Print(e, 0), Loose(es, gaps) + [TRBrack];
    var j := i + |x|;
    AtSplit(ts, i, x, GapToks(g) + z);
    AtSplit(ts, j, GapToks(g), z);
    LooseStarts(es, gaps, ts, j + |GapToks(g)|);
    StartsApart(ts[j + |GapToks(g)|]);
    GapEnds(ts, j, g);
    ReadWhole(e, 0, ts, i);
  }

  lemma {:induction false} LooseShape(es: seq<Expr>, gaps: seq<Gap>)
    requires |gaps| == |es|
    ensures es == [] ==> Loose(es, gaps) == []
    ensures es != [] ==> Loose(es, gaps) + [TRBrack] == Print(es[0], 0) + (GapToks(gaps[0]) + (Loose(es[1..], gaps[1..]) + [TRBrack]))
    ensures es != [] ==> |Loose(es, gaps)| == |Print(es[0], 0)| + |GapToks(gaps[0])| + |Loose(es[1..], gaps[1..])|
  {
    hide Print, GapToks;
  }

  lemma {:induction false} StartsApart(t: Tok)
    ensures Starts(t) || t == TRBrack ==> t != TNewline && t != TComma
  {
  }

  lemma {:induction false} StartsAt(ts: Toks, i: nat)
    ensures i < |ts| && Starts(ts[i]) ==> Peek(ts, i) != TRBrack
  {
  }

  /** An array over any layout: commas or line breaks between its elements, in any number of lines. */
  lemma {:induction false} ArrayLayout(before: Toks, lead: nat, es: seq<Expr>, gaps: seq<Gap>, after: Toks)
    requires |gaps| == |es| && Separated(gaps) && forall k :: 0 <= k < |es| ==> Writable(es[k])
    ensures var x := [TLBrack] + Breaks(lead) + Loose(es, gaps) + [TRBrack];
            ParsePrefix(before + x + after, |before|) == Yes(Array(es), |before| + |x|)
  {
    hide At, Loose, ParseItems, Breaks, Writable, Separated;
    var x := [TLBrack] + Breaks(lead) + Loose(es, gaps) + [TRBrack];
    var ts, i := before + x + after, |before|;
    AtIn(before, x, after);
    assert x == [TLBrack] + (Breaks(lead) + (Loose(es, gaps) + [TRBrack]));
    AtSplit(ts, i, [TLBrack], Breaks(lead) + (Loose(es, gaps) + [TRBrack]));
    AtOne(ts, i, TLBrack);
    AtSplit(ts, i + 1, Breaks(lead), Loose(es, gaps) + [TRBrack]);
    BreaksLong(lead);
    LooseStarts(es, gaps, ts, i + 1 + lead);
    SkipBreaks(ts, i + 1, lead);
    LooseItems(es, gaps, ts, i + 1 + lead);
  }

  lemma {:induction false} AtIn(before: Toks, x: Toks, after: Toks)
    ensures At(before + x + after, |before|, x)
  {
    var ts := before + x + after;
    assert ts[|before|..|before| + |x|] == x;
  }

  // ---------- keys ----------

  /** Any word is a key: a name, a quoted one, or a keyword, which stands for its own letters. */
  predicate Names(t: Tok, s: string) { t == TIdent(s) || t == TStr(s) || (IsKeyword(t) && s == Spelling(t)) }

  lemma {:induction false} KeyIs(t: Tok, s: string)
    ensures WordOf(t) == Some(s) <==> Names(t, s)
  {
  }

  /** A keyword behind a dot is a field name. */
  lemma {:induction false} AnyWordIsAField(ts: Toks, j: nat, base: Expr, name: string, safe: bool)
    requires j + 1 < |ts| && ts[j] == (if safe then TQDot else TDot) && Names(ts[j + 1], name)
    ensures ParsePostfix(ts, j, base) == ParsePostfix(ts, j + 2, Field(base, name, safe))
  {
    hide ParseExpr, ParsePostfix, Names, WordOf;
    KeyIs(ts[j + 1], name);
    PostfixStep(ts, j, base);
  }

  // ---------- documents ----------

  /** `key: value` */
  function Keyed(t: Tok, e: Expr): (ts: Toks) { [t, TColon] + Print(e, 0) }

  function LooseFields(fs: seq<Entry>, keys: seq<Tok>, gaps: seq<Gap>): (ts: Toks)
    requires |gaps| == |fs| == |keys|
  {
    if fs == [] then []
    else Keyed(keys[0], fs[0].value) + GapToks(gaps[0]) + LooseFields(fs[1..], keys[1..], gaps[1..])
  }

  predicate AllNamed(fs: seq<Entry>, keys: seq<Tok>) { |keys| == |fs| && forall k :: 0 <= k < |fs| ==> Names(keys[k], fs[k].key) }

  lemma {:induction false} FieldsStart(fs: seq<Entry>, keys: seq<Tok>, gaps: seq<Gap>, ts: Toks, i: nat)
    requires |gaps| == |fs| && AllNamed(fs, keys) && At(ts, i, LooseFields(fs, keys, gaps) + [TRBrace])
    ensures i < |ts| && ts[i] != TNewline && ts[i] != TComma && (ts[i] == TRBrace) == (fs == [])
  {
    hide At, Print, GapToks;
    if fs == [] {
      assert [] + [TRBrace] == [TRBrace];
      AtOne(ts, i, TRBrace);
    } else {
      assert LooseFields(fs, keys, gaps)[0] == keys[0] && Names(keys[0], fs[0].key);
      AtFirst(ts, i, LooseFields(fs, keys, gaps) + [TRBrace]);
    }
  }

  lemma {:induction false} AnyEntry(f: Entry, t: Tok, ts: Toks, i: nat)
    requires Names(t, f.key) && Writable(f.value) && At(ts, i, Keyed(t, f.value))
    requires Stops(Peek(ts, i + |Keyed(t, f.value)|), 0)
    ensures ParseEntry(ts, i) == Yes(f, i + |Keyed(t, f.value)|)
  {
    hide ParseExpr, Print, At, Writable, Names, WordOf, Stops;
    KeyIs(t, f.key);
    AtSplit(ts, i, [t, TColon], Print(f.value, 0));
    assert [t, TColon] == [t] + [TColon];
    AtSplit(ts, i, [t], [TColon]);
    AtOne(ts, i, t);
    AtOne(ts, i + 1, TColon);
    ReadWhole(f.value, 0, ts, i + 2);
  }

  lemma {:induction false} LooseEntries(fs: seq<Entry>, keys: seq<Tok>, gaps: seq<Gap>, ts: Toks, i: nat)
    requires |gaps| == |fs| && AllNamed(fs, keys) && Separated(gaps) && (forall k :: 0 <= k < |fs| ==> Writable(fs[k].value))
    requires At(ts, i, LooseFields(fs, keys, gaps) + [TRBrace])
    ensures i < |ts| && ParseFields(ts, i) == Yes(fs, i + |LooseFields(fs, keys, gaps)| + 1)
    decreases |fs|
  {
    hide At, Keyed, GapToks, ParseFields, ParseEntry, Writable, AfterItem, Stops, Apart, Names, LooseFields;
    FieldsStart(fs, keys, gaps, ts, i);
    FieldsTurn(ts, i);
    FieldsShape(fs, keys, gaps);
    if fs != [] {
      var n := i + |Keyed(keys[0], fs[0].value)| + |GapToks(gaps[0])|;
      EntryThenGap(fs[0], keys[0], gaps[0], fs[1..], keys[1..], gaps[1..], ts, i);
      LooseEntries(fs[1..], keys[1..], gaps[1..], ts, n);
      assert [fs[0]] + fs[1..] == fs;
    }
  }

  lemma {:induction false} EntryThenGap(f: Entry, t: Tok, g: Gap, fs: seq<Entry>, keys: seq<Tok>, gaps: seq<Gap>, ts: Toks, i: nat)
    requires Writable(f.value) && Names(t, f.key) && |gaps| == |fs| && AllNamed(fs, keys) && (fs != [] ==> Apart(g))
    requires At(ts, i, Keyed(t, f.value) + (GapToks(g) + (LooseFields(fs, keys, gaps) + [TRBrace])))
    ensures var n := i + |Keyed(t, f.value)|;
            && n + |GapToks(g)| <= |ts| && ParseEntry(ts, i) == Yes(f, n) && AfterItem(ts, n) == n + |GapToks(g)|
            && At(ts, n + |GapToks(g)|, LooseFields(fs, keys, gaps) + [TRBrace])
  {
    hide At, Keyed, GapToks, ParseEntry, Writable, AfterItem, Stops, Apart, Names, LooseFields;
    var x, z := Keyed(t, f.value), LooseFields(fs, keys, gaps) + [TRBrace];
    var j := i + |x|;
    AtSplit(ts, i, x, GapToks(g) + z);
    AtSplit(ts, j, GapToks(g), z);
    FieldsStart(fs, keys, gaps, ts, j + |GapToks(g)|);
    GapEnds(ts, j, g);
    AnyEntry(f, t, ts, i);
  }

  lemma {:induction false} FieldsShape(fs: seq<Entry>, keys: seq<Tok>, gaps: seq<Gap>)
    requires |gaps| == |fs| == |keys|
    ensures fs == [] ==> LooseFields(fs, keys, gaps) == []
    ensures fs != [] ==> var x := Keyed(keys[0], fs[0].value);
                         var rest := LooseFields(fs[1..], keys[1..], gaps[1..]);
                         && LooseFields(fs, keys, gaps) + [TRBrace] == x + (GapToks(gaps[0]) + (rest + [TRBrace]))
                         && |LooseFields(fs, keys, gaps)| == |x| + |GapToks(gaps[0])| + |rest|
  {
    hide Keyed, GapToks;
  }

  lemma {:induction false} DocAt(ts: Toks, i: nat, lead: nat, fs: seq<Entry>, keys: seq<Tok>, gaps: seq<Gap>)
    requires |gaps| == |fs| && AllNamed(fs, keys) && Separated(gaps) && forall k :: 0 <= k < |fs| ==> Writable(fs[k].value)
    requires At(ts, i, [TLBrace] + (Breaks(lead) + (LooseFields(fs, keys, gaps) + [TRBrace])))
    ensures i < |ts| && ParsePrefix(ts, i) == Yes(Doc(fs), i + 2 + lead + |LooseFields(fs, keys, gaps)|)
  {
    hide At, LooseFields, ParseFields, Breaks, Writable, Separated, AllNamed, ParsePrefix, SkipNewlines;
    assert |keys| == |fs| by { KeyedAlike(fs, keys); }
    var y := LooseFields(fs, keys, gaps) + [TRBrace];
    AtHead(ts, i, TLBrace, Breaks(lead) + y);
    AtSplit(ts, i + 1, Breaks(lead), y);
    BreaksLong(lead);
    FieldsStart(fs, keys, gaps, ts, i + 1 + lead);
    SkipBreaks(ts, i + 1, lead);
    LooseEntries(fs, keys, gaps, ts, i + 1 + lead);
    DocStep(ts, i, fs);
  }

  /** A document over any layout, with any words as keys. */
  lemma {:induction false} DocLayout(before: Toks, lead: nat, fs: seq<Entry>, keys: seq<Tok>, gaps: seq<Gap>, after: Toks)
    requires |gaps| == |fs| && AllNamed(fs, keys) && Separated(gaps) && forall k :: 0 <= k < |fs| ==> Writable(fs[k].value)
    ensures var x := [TLBrace] + Breaks(lead) + LooseFields(fs, keys, gaps) + [TRBrace];
            ParsePrefix(before + x + after, |before|) == Yes(Doc(fs), |before| + |x|)
  {
    hide At, LooseFields, Breaks, Writable, Separated, AllNamed, ParsePrefix;
    assert |keys| == |fs| by { KeyedAlike(fs, keys); }
    var x := [TLBrace] + Breaks(lead) + LooseFields(fs, keys, gaps) + [TRBrace];
    AtIn(before, x, after);
    Bracket(TLBrace, Breaks(lead), LooseFields(fs, keys, gaps), TRBrace);
    BreaksLong(lead);
    DocAt(before + x + after, |before|, lead, fs, keys, gaps);
  }

  lemma {:induction false} Bracket(a: Tok, x: Toks, y: Toks, b: Tok)
    ensures [a] + x + y + [b] == [a] + (x + (y + [b]))
  {
  }

  lemma {:induction false} DocStep(ts: Toks, i: nat, fs: seq<Entry>)
    requires i < |ts| && ts[i] == TLBrace
    requires var j := SkipNewlines(ts, i + 1); ParseFields(ts, j).Yes? && ParseFields(ts, j).value == fs
    ensures ParsePrefix(ts, i) == Yes(Doc(fs), ParseFields(ts, SkipNewlines(ts, i + 1)).next)
  {
    hide ParseFields, SkipNewlines;
  }

  lemma {:induction false} KeyedAlike(fs: seq<Entry>, keys: seq<Tok>)
    requires AllNamed(fs, keys)
    ensures |keys| == |fs|
  {
  }

  // ---------- grouping ----------

  /** Levels of the language's operators, loosest first. */
  function Level(op: BinOp): (n: nat) {
    match op
    case Or => 0
    case And => 1
    case Coalesce => 2
    case Add => 4 case Sub => 4
    case Mul => 5 case Div => 5
    case _ => 3
  }

  predicate Single(e: Expr) { Writable(e) && !e.Bin? }

  lemma {:induction false} LeftPrints(a: Expr, p: BinOp, b: Expr, q: BinOp, c: Expr)
    requires Single(a) && Single(b) && Single(c) && Level(q) <= Level(p)
    ensures Writable(Bin(q, Bin(p, a, b), c))
    ensures Print(Bin(q, Bin(p, a, b), c), 0) == Bare(a) + [OpTok(p)] + Bare(b) + [OpTok(q)] + Bare(c)
  {
    SinglePrints(a);
    SinglePrints(b);
    SinglePrints(c);
    hide Writable, Bare, Print;
    BinPrints(p, a, b, Power(q) - 1);
    BinPrints(q, Bin(p, a, b), c, 0);
    BothWritable(p, a, b);
    BothWritable(q, Bin(p, a, b), c);
  }

  lemma {:induction false} RightPrints(a: Expr, p: BinOp, b: Expr, q: BinOp, c: Expr)
    requires Single(a) && Single(b) && Single(c) && Level(q) > Level(p)
    ensures Writable(Bin(p, a, Bin(q, b, c)))
    ensures Print(Bin(p, a, Bin(q, b, c)), 0) == Bare(a) + [OpTok(p)] + Bare(b) + [OpTok(q)] + Bare(c)
  {
    SinglePrints(a);
    SinglePrints(b);
    SinglePrints(c);
    hide Writable, Bare, Print;
    BinPrints(q, b, c, Power(p));
    BinPrints(p, a, Bin(q, b, c), 0);
    BothWritable(q, b, c);
    BothWritable(p, a, Bin(q, b, c));
    JoinedLeft(Bare(a) + [OpTok(p)], Bare(b), [OpTok(q)], Bare(c));
  }

  lemma {:induction false} JoinedLeft(w: Toks, x: Toks, y: Toks, z: Toks)
    ensures w + (x + y + z) == w + x + y + z
  {
  }

  /** Of two operators in a row the one of the higher level groups first, and of equal ones the left one. */
  lemma {:induction false} TwoOperators(before: Toks, a: Expr, p: BinOp, b: Expr, q: BinOp, c: Expr, after: Toks)
    requires Single(a) && Single(b) && Single(c) && Stops(Peek(after, 0), 0)
    ensures var x := Bare(a) + [OpTok(p)] + Bare(b) + [OpTok(q)] + Bare(c);
            ParseExpr(before + x + after, |before|, 0) ==
            Yes(if Level(q) <= Level(p) then Bin(q, Bin(p, a, b), c) else Bin(p, a, Bin(q, b, c)), |before| + |x|)
  {
    hide ParseExpr, Stops, Single, Bare, Print, Writable, OpTok;
    if Level(q) <= Level(p) {
      LeftPrints(a, p, b, q, c);
      PrattRoundTrip(before, Bin(q, Bin(p, a, b), c), 0, after);
    } else {
      RightPrints(a, p, b, q, c);
      PrattRoundTrip(before, Bin(p, a, Bin(q, b, c)), 0, after);
    }
  }

  lemma {:induction false} SinglePrints(e: Expr)
    requires Single(e)
    ensures Writable(e) && forall q: nat :: Print(e, q) == Bare(e)
  {
    hide Bare, Writable;
  }

  lemma {:induction false} BinPrints(op: BinOp, l: Expr, r: Expr, q: nat)
    requires q < Power(op)
    ensures Print(Bin(op, l, r), q) == Print(l, Power(op) - 1) + [OpTok(op)] + Print(r, Power(op))
  {
    assert Bare(Bin(op, l, r)) == Print(l, Power(op) - 1) + [OpTok(op)] + Print(r, Power(op)) by { hide Print; }
  }

  /** A sign or a `not` takes the one operand behind it: any operator in it stands in parentheses. */
  lemma {:induction false} SignTakesOne(u: UnOp, e: Expr)
    requires !e.Unary?
    ensures Bare(Unary(u, e)) == [if u.Not? then TNot else TMinus] + Primary(e)
  {
    hide Bare;
    assert Print(e, UNARY_POWER) == Primary(e);
    SignPrints(u, e);
  }

  lemma {:induction false} SignPrints(u: UnOp, e: Expr)
    ensures Bare(Unary(u, e)) == [if u.Not? then TNot else TMinus] + Print(e, UNARY_POWER)
  {
    hide Print, Primary;
  }

  /** `-a * b` is a product of `-a`, and `not a == b` compares `not a`. */
  lemma {:induction false} SignsFirst(before: Toks, u: UnOp, a: Expr, op: BinOp, b: Expr, after: Toks)
    requires Single(a) && !a.Unary? && Single(b) && Stops(Peek(after, 0), 0)
    ensures var x := [if u.Not? then TNot else TMinus] + Bare(a) + [OpTok(op)] + Bare(b);
            ParseExpr(before + x + after, |before|, 0) == Yes(Bin(op, Unary(u, a), b), |before| + |x|)
  {
    hide ParseExpr, Stops;
    SignTakesOne(u, a);
    assert Primary(a) == Bare(a);
    assert Writable(Unary(u, a));
    SinglePrints(Unary(u, a));
    SinglePrints(b);
    hide Writable;
    BinPrints(op, Unary(u, a), b, 0);
    hide Bare, Print, Primary;
    BothWritable(op, Unary(u, a), b);
    PrattRoundTrip(before, Bin(op, Unary(u, a), b), 0, after);
  }

  /** A bracket filters when a comparison, an `in`, an `and`, an `or` or a `not` stands in it; else it looks something up. */
  lemma {:induction false} FilterOrIndex(base: Expr, inner: Expr)
    ensures Bracketed(base, inner) ==
            if (inner.Bin? && Level(inner.op) in {0, 1, 3}) || (inner.Unary? && inner.uop.Not?) then Filter(base, inner) else Index(base, inner)
  {
  }
}
