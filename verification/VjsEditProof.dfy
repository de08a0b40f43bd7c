// Editing a literal of the business surface does what it says (core/src/vjs.rs): the new value is
// read back, every other line of the program is what it was, and so is the text around the edit.

module VjsEditProof {
  import opened Wrappers
  import opened VjsSyntax
  import opened VjsParser
  import opened VjsPratt
  import opened VjsProgram
  import opened VjsLocal
  import opened VjsSplice
  import opened VjsLexer
  import opened VjsRelex
  import opened VjsJson
  import opened VjsEdit

  // ---------- the text around an edit ----------

  /** From the blanks before token `q` on, the text reads as it did. */
  lemma {:induction false} TailLex(src: string, ps: seq<Placed>, q: nat, b: nat)
    requires LexFrom(src) == Some(ps) && q < |ps| && b <= PlaceOf(src, ps, q)
    requires forall k :: b <= k < PlaceOf(src, ps, q) ==> Space(src[k])
    ensures LexToks(src[b..]) == Some(ToksOf(ps)[q..])
  {
    hide LexOne, Reaches, Before, LexFrom;
    TokenReached(src, q);
    var e := PlaceOf(src, ps, q);
    var w, z := src[b..e], Rest(src, ps[q].rem);
    assert src[b..] == w + z;
    SkipsBlanks(w, z);
    assert ToksOf(ps[q..]) == ToksOf(ps)[q..];
  }

  /** The character before token `p` and the new text do not run together. */
  lemma {:induction false} HeadEnds(src: string, ps: seq<Placed>, p: nat, y: string)
    requires LexFrom(src) == Some(ps) && 0 < p < |ps| && ps[p].tok != TNewline
    requires HeadApart(ps[p - 1].tok, y)
    ensures var i := PlaceOf(src, ps, p); i < |src| && src[i] != '\n' && (i > 0 ==> Apart(src[i - 1], y))
  {
    hide LexOne, Reaches, Before, LexFrom, Apart, HeadApart;
    TokenReached(src, p);
    var r := ps[p].rem;
    var i := PlaceOf(src, ps, p);
    StartChar(Rest(src, r));
    assert Rest(src, r)[0] == src[i];
    if i > 0 {
      if !Space(src[i - 1]) {
        LastChar(src, r, src[i - 1]);
        assert Before(src, r)[|Before(src, r)| - 1] == ps[p - 1];
      }
      HeadApartMeans(ps[p - 1].tok, src[i - 1], y);
    }
  }

  /** Up to token `p`, the text reads as it did, whatever comes instead of the token and what follows. */
  lemma {:induction false} HeadLex(src: string, ps: seq<Placed>, p: nat, y: string)
    requires LexFrom(src) == Some(ps) && 0 < p < |ps| && ps[p].tok != TNewline
    requires HeadApart(ps[p - 1].tok, y)
    ensures LexToks(src[..PlaceOf(src, ps, p)] + y) == Prepend(ToksOf(ps)[..p], LexToks(y))
  {
    hide LexOne, Reaches, Before, LexFrom, Apart, HeadApart, LexToks;
    TokenReached(src, p);
    HeadEnds(src, ps, p, y);
    var i := PlaceOf(src, ps, p);
    var a, x := src[..i], Rest(src, ps[p].rem);
    assert src == a + x;
    Recontext(a, x, y);
    SplitToks(a + y, |y|);
    assert Rest(a + y, |y|) == y;
    assert ToksOf(ps[..p]) == ToksOf(ps)[..p];
  }

  /** New text that does not run together with the token before it. */
  ghost predicate HeadApart(t: Tok, y: string) {
    y != "" &&
    ((y[0] != '=' && (t == TEq || t == TColon)) || (y[0] == '"' && (t == TLBrace || t == TNewline)) || y[0] == ',')
  }

  lemma {:induction false} HeadApartMeans(t: Tok, c: char, y: string)
    requires HeadApart(t, y)
    requires Space(c) || ((t == TEq ==> c == '=') && (t == TColon ==> c == ':') && (t == TLBrace ==> c == '{') && (t == TNewline ==> c == '\n'))
    ensures Apart(c, y)
  {
  }

  lemma {:induction false} StartChar(x: string)
    requires x != "" ==> LexOne(x).Token? && LexOne(x).t != TNewline
    ensures x != "" ==> x[0] != '\n'
  {
    hide LexFrom, LexString, LexFString, NumOf, WordTok, Run;
  }

  /** Text that lexes as `ms`, put between tokens `p` and `q`. */
  lemma {:induction false} Relexed(src: string, ps: seq<Placed>, p: nat, q: nat, b: nat, mid: string, ms: Toks)
    requires LexFrom(src) == Some(ps) && 0 < p < q < |ps| && ps[p].tok != TNewline
    requires b <= PlaceOf(src, ps, q) && forall k :: b <= k < PlaceOf(src, ps, q) ==> Space(src[k])
    requires mid != "" && HeadApart(ps[p - 1].tok, mid)
    requires LexToks(mid + src[b..]) == Prepend(ms, LexToks(src[b..]))
    ensures LexToks(Spliced(src, PlaceOf(src, ps, p), b, mid)) == Some(ToksOf(ps)[..p] + ms + ToksOf(ps)[q..])
  {
    hide LexFrom, LexToks, PlaceOf;
    var y := mid + src[b..];
    TailLex(src, ps, q, b);
    HeadLex(src, ps, p, y);
    assert Spliced(src, PlaceOf(src, ps, p), b, mid) == src[..PlaceOf(src, ps, p)] + y;
    assert ToksOf(ps)[..p] + (ms + ToksOf(ps)[q..]) == ToksOf(ps)[..p] + ms + ToksOf(ps)[q..];
  }

  lemma {:induction false} LastIsNewline(s: string)
    requires LexFrom(s).Some?
    ensures LexFrom(s).value[|LexFrom(s).value| - 1].tok == TNewline
    decreases |s|
  {
    hide LexOne;
    if s != "" { LastIsNewline(s[LexOne(s).n..]); }
  }

  // ---------- the whole constant ----------

  /** What an edit of the constant `name` into `v` leaves of the program: that line, and nothing else, is new. */
  ghost predicate OnlyConst(src: string, out: string, name: string, v: Value) {
    && ReadSource(src).Some? && ReadSource(out).Some?
    && var a, b := ReadSource(src).value.items, ReadSource(out).value.items;
       var m := FindConst(a, name);
       m < |a| && exists d :: ReplacedConst(a, b, m, v, d)
  }

  /** The text is the same but for `mid` instead of what stood between `start` and `end`. */
  ghost predicate OnlyBetween(src: string, out: string, start: nat, end: nat, mid: string) {
    start <= end <= |src| && out == src[..start] + mid + src[end..]
  }

  /** After the edit, the constant that is found is the edited one. */
  lemma {:induction false} FoundAgain(a: seq<Item>, b: seq<Item>, name: string, v: Value, d: int)
    requires FindConst(a, name) < |a| && ReplacedConst(a, b, FindConst(a, name), v, d)
    ensures FindConst(b, name) == FindConst(a, name)
  {
    var m := FindConst(a, name);
    forall k | 0 <= k < m ensures b[k] == a[k] { assert b[..m][k] == a[..m][k]; }
  }

  lemma {:induction false} OnlyConstReads(src: string, out: string, name: string, v: Value, key: string)
    requires OnlyConst(src, out, name, v)
    ensures GetLiteral(out, name, key) == Look(v, key)
  {
    hide ReadSource, FindConst;
    var a, b := ReadSource(src).value.items, ReadSource(out).value.items;
    var m := FindConst(a, name);
    var d :| ReplacedConst(a, b, m, v, d);
    FoundAgain(a, b, name, v, d);
  }

  /** New tokens for the literal of a constant: the program with that line replaced. */
  lemma {:induction false} ConstReplaced(src: string, name: string, out: string, ms: Toks, v: Value)
    requires ReadSource(src).Some?
    requires var p := ReadSource(src).value; FindConst(p.items, name) < |p.items|
    requires var p := ReadSource(src).value; var ts := ToksOf(p.placed); var c := p.items[FindConst(p.items, name)];
             && c.from <= c.to <= |ts| && LexToks(out) == Some(ts[..c.from] + ms + ts[c.to..])
             && LiteralAt(ts[..c.from] + ms + ts[c.to..], c.from) == LYes(v, c.from + |ms|)
    ensures OnlyConst(src, out, name, v)
  {
    hide LexFrom, ParseItems', LiteralAt, FindConst;
    var p := ReadSource(src).value;
    var ts := ToksOf(p.placed);
    var m := FindConst(p.items, name);
    var c := p.items[m];
    var us := ts[..c.from] + ms + ts[c.to..];
    var d := |ms| - (c.to - c.from);
    SpliceSame(ts, c.from, c.to, ms, us, d);
    SpliceConst(ts, us, 0, m, v, d);
    assert ReplacedConst(p.items, ReadSource(out).value.items, m, v, d);
  }

  /** What stands in the text around the constant `name`. */
  lemma {:induction false} ConstPlaced(src: string, name: string)
    requires ReadSource(src).Some?
    requires var p := ReadSource(src).value; FindConst(p.items, name) < |p.items|
    ensures var p := ReadSource(src).value; var ts := ToksOf(p.placed); var c := p.items[FindConst(p.items, name)];
            && 2 <= c.from < c.to < |ts| && ts[c.from - 1] == TEq && ts[c.from] != TNewline
            && LiteralAt(ts, c.from) == LYes(c.value, c.to) && ts[c.to] == TNewline
            && PlaceOf(src, p.placed, c.from) <= PlaceOf(src, p.placed, c.to)
  {
    hide LexFrom, ParseItems', LiteralAt, FindConst;
    var p := ReadSource(src).value;
    var m := FindConst(p.items, name);
    ConstFacts(ToksOf(p.placed), 0, m);
    LastIsNewline(src);
    PlacesOrdered(src, p.placed, p.items[m].from, p.items[m].to);
  }

  lemma {:induction false} RenderStarts(j: JVal)
    requires Readable(j)
    ensures Render(j) != "" && Render(j)[0] != '='
  {
    hide RenderItems, RenderFields, EscapeAll, NumOf, Run;
  }

  /** The text from the blanks before a token on starts with a blank or with that token. */
  lemma {:induction false} TailStart(src: string, ps: seq<Placed>, q: nat, b: nat)
    requires LexFrom(src) == Some(ps) && q < |ps| && b <= PlaceOf(src, ps, q)
    requires forall k :: b <= k < PlaceOf(src, ps, q) ==> Space(src[k])
    ensures src[b..] != "" ==> Space(src[b]) || (LexOne(src[b..]).Token? && LexOne(src[b..]).t == ps[q].tok)
  {
    hide LexOne, Reaches, Before, LexFrom;
    TokenReached(src, q);
    if b == PlaceOf(src, ps, q) { assert src[b..] == Rest(src, ps[q].rem); }
  }

  lemma {:induction false} NewlineStart(x: string)
    requires x != "" && LexOne(x).Token? && LexOne(x).t == TNewline
    ensures x[0] == '\n'
  {
    hide LexFrom, LexString, LexFString, NumOf, WordTok, Run;
    WordIsNoSymbol(x[..Run(x, WordChar)]);
  }

  /** Behind a constant's literal and the blanks after it the line ends. */
  lemma {:induction false} ConstTail(src: string, name: string)
    requires ReadSource(src).Some?
    requires var p := ReadSource(src).value; FindConst(p.items, name) < |p.items|
    ensures var p := ReadSource(src).value; var ps := p.placed; var c := p.items[FindConst(p.items, name)];
            var start := PlaceOf(src, ps, c.from);
            var b := Trimmed(src, start, PlaceOf(src, ps, c.to));
            && LexFrom(src) == Some(ps) && 0 < c.from < c.to < |ps| && ps[c.from - 1].tok == TEq && ps[c.from].tok != TNewline && ps[c.to].tok == TNewline
            && start <= b && (src[b..] == "" || Space(src[b]) || src[b] == '\n')
  {
    hide ReadSource, LexFrom, LiteralAt, FindConst, PlaceOf, Trimmed, LexOne;
    ConstPlaced(src, name);
    var p := ReadSource(src).value;
    var c := p.items[FindConst(p.items, name)];
    var b := Trimmed(src, PlaceOf(src, p.placed, c.from), PlaceOf(src, p.placed, c.to));
    TailStart(src, p.placed, c.to, b);
    if src[b..] != "" && !Space(src[b]) { NewlineStart(src[b..]); }
  }

  /** The tokens of the source with the literal of a constant exchanged. */
  lemma {:induction false} ConstRelexed(src: string, name: string, j: JVal)
    requires ReadSource(src).Some? && Readable(j)
    requires var p := ReadSource(src).value; FindConst(p.items, name) < |p.items|
    ensures var p := ReadSource(src).value; var ts := ToksOf(p.placed); var c := p.items[FindConst(p.items, name)];
            var start := PlaceOf(src, p.placed, c.from);
            var b := Trimmed(src, start, PlaceOf(src, p.placed, c.to));
            && start <= b && c.from < c.to < |ts|
            && LexToks(Spliced(src, start, b, Render(j))) == Some(ts[..c.from] + ToksFor(j) + ts[c.to..])
  {
    hide ReadSource, LexFrom, LexToks, LiteralAt, FindConst, PlaceOf, Trimmed, Render, Readable, ToksFor;
    var p := ReadSource(src).value;
    var c := p.items[FindConst(p.items, name)];
    var start := PlaceOf(src, p.placed, c.from);
    var b := Trimmed(src, start, PlaceOf(src, p.placed, c.to));
    ConstTail(src, name);
    RenderLexes(j, src[b..]);
    RenderStarts(j);
    Relexed(src, p.placed, c.from, c.to, b, Render(j), ToksFor(j));
  }

  /**
   * Rewriting a whole constant succeeds, with any value whose JSON text the lexer reads back: the
   * value is read back, every other line parses to what it was, and the text around it is the same.
   */
  lemma {:induction false} WholeEdit(src: string, name: string, key: string, j: JVal, read: string -> Verdict)
    requires ReadSource(src).Some? && WholeKey(key) && Readable(j)
    requires var p := ReadSource(src).value; FindConst(p.items, name) < |p.items|
    ensures var r := SetLiteral(src, name, key, j, read);
            && r.Done? && OnlyConst(src, r.text, name, ValueOf(j)) && GetLiteral(r.text, name, key) == Some(ValueOf(j))
            && var p := ReadSource(src).value; var c := p.items[FindConst(p.items, name)];
               OnlyBetween(src, r.text, PlaceOf(src, p.placed, c.from),
                           Trimmed(src, PlaceOf(src, p.placed, c.from), PlaceOf(src, p.placed, c.to)), Render(j))
  {
    hide ReadSource, LexFrom, LexToks, LiteralAt, FindConst, PlaceOf, Trimmed, FieldsAt, FindField, Render, Readable, ValueOf, ToksFor;
    var p := ReadSource(src).value;
    var ts := ToksOf(p.placed);
    var c := p.items[FindConst(p.items, name)];
    var start := PlaceOf(src, p.placed, c.from);
    var b := Trimmed(src, start, PlaceOf(src, p.placed, c.to));
    var out := Spliced(src, start, b, Render(j));
    ConstRelexed(src, name, j);
    var us := ts[..c.from] + ToksFor(j) + ts[c.to..];
    SpliceSame(ts, c.from, c.to, ToksFor(j), us, |ToksFor(j)| - (c.to - c.from));
    LiteralReads(j, us, c.from);
    ConstReplaced(src, name, out, ToksFor(j), ValueOf(j));
    OnlyConstReads(src, out, name, ValueOf(j), key);
  }

  /** An edit that succeeds has found its constant. */
  lemma {:induction false} SetFinds(src: string, name: string, key: string, j: JVal, read: string -> Verdict)
    requires SetLiteral(src, name, key, j, read).Done?
    ensures ReadSource(src).Some? && FindConst(ReadSource(src).value.items, name) < |ReadSource(src).value.items|
  {
    hide LexFrom, ParseItems', FindConst, PlaceOf, FieldsAt, FindField, Trimmed, Render, Checked, AddEntry;
  }

  // ---------- one entry of a document ----------

  lemma {:induction false} DocFacts(ts: Toks, from: nat)
    requires from < |ts| && ts[from] == TLBrace && LiteralAt(ts, from).LYes?
    ensures SkipNewlines(ts, from + 1) <= |ts|
    ensures LiteralFields(ts, SkipNewlines(ts, from + 1)) == LYes(FieldsAt(ts, from), LiteralAt(ts, from).next)
    ensures LiteralAt(ts, from).value == Obj(MapOf(FieldsAt(ts, from)))
  {
    hide LiteralFields, LiteralItems, SkipNewlines, MapOf;
  }

  lemma {:induction false} DocReads(us: Toks, from: nat)
    requires from < |us| && us[from] == TLBrace && LiteralFields(us, SkipNewlines(us, from + 1)).LYes?
    ensures var r := LiteralFields(us, SkipNewlines(us, from + 1)); LiteralAt(us, from) == LYes(Obj(MapOf(r.value)), r.next)
  {
    hide LiteralFields, LiteralItems, SkipNewlines, MapOf;
  }

  /** What a document holds once the value of entry `m` is exchanged for `v`: a later entry of its key still wins. */
  function WithEntry(fs: seq<LField>, m: nat, v: Value): (w: Value)
    requires m < |fs|
  {
    if forall k :: m < k < |fs| ==> fs[k].key != fs[m].key then Obj(MapOf(fs)[fs[m].key := v]) else Obj(MapOf(fs))
  }

  /** What stands around entry `m` of a document. */
  lemma {:induction false} EntryFacts(ts: Toks, from: nat, m: nat)
    requires from <= |ts| && LiteralAt(ts, from).LYes? && m < |FieldsAt(ts, from)|
    ensures var f := FieldsAt(ts, from)[m];
            && from < |ts| && ts[from] == TLBrace
            && from + 2 < f.from < f.to < LiteralAt(ts, from).next <= |ts|
            && ts[f.from - 1] == TColon && ts[f.from] != TNewline && LiteralAt(ts, f.from) == LYes(f.value, f.to)
            && Follower(ts[f.to])
  {
    hide LiteralFields, LiteralItems, SkipNewlines, MapOf, LiteralAt, AfterItem;
    DocFacts(ts, from);
    var k := SkipNewlines(ts, from + 1);
    FieldsFollow(ts, k, m);
    LiteralEnds(ts, FieldsAt(ts, from)[m].from);
    AfterItemFirst(ts, FieldsAt(ts, from)[m].to);
  }

  /** What may follow an entry's value. */
  ghost predicate Follower(t: Tok) { t == TNewline || t == TComma || t == TRBrace || WordOf(t).Some? }

  lemma {:induction false} AfterItemFirst(ts: Toks, i: nat)
    requires i <= |ts|
    ensures Peek(ts, i) == TNewline || Peek(ts, i) == TComma || AfterItem(ts, i) == i
  {
  }

  lemma {:induction false} Widened(ts: Toks, p: nat, q: nat, ms: Toks, us: Toks, from: nat, to: nat, d: int)
    requires from <= p <= q <= to <= |ts| && us == ts[..p] + ms + ts[q..] && d == |ms| - (q - p)
    ensures from <= to + d <= |us| && us == ts[..from] + us[from..to + d] + ts[to..]
  {
    assert us[..from] == ts[..from];
    assert us[to + d..] == ts[to..];
    assert us == us[..from] + us[from..to + d] + us[to + d..];
  }

  /** New tokens for the value of entry `m`: the entries with that one replaced. */
  lemma {:induction false} FieldsReplaced(ts: Toks, from: nat, m: nat, ms: Toks, us: Toks, v: Value)
    requires from <= |ts| && LiteralAt(ts, from).LYes? && m < |FieldsAt(ts, from)|
    requires var f := FieldsAt(ts, from)[m];
             && f.from <= f.to <= |ts| && us == ts[..f.from] + ms + ts[f.to..]
             && LiteralAt(us, f.from) == LYes(v, f.from + |ms|)
    ensures from < |us| && us[from] == TLBrace
    ensures var r := LiteralFields(us, SkipNewlines(us, from + 1)); var f := FieldsAt(ts, from)[m]; var d := |ms| - (f.to - f.from);
            r.LYes? && r.next == LiteralAt(ts, from).next + d && ReplacedField(FieldsAt(ts, from), r.value, m, v, d)
  {
    hide LiteralFields, SkipNewlines, MapOf, LiteralAt, FieldsAt, Same, ReplacedField, Follower;
    var f := FieldsAt(ts, from)[m];
    var d := |ms| - (f.to - f.from);
    EntryFacts(ts, from, m);
    DocFacts(ts, from);
    SpliceSame(ts, f.from, f.to, ms, us, d);
    var k := SkipNewlines(ts, from + 1);
    assert k < f.from by { FieldsFollow(ts, k, m); }
    HeadSame(ts, us, from, f.from);
    SpliceField(ts, us, k, m, v, d);
  }

  /** What opens a document before an edit inside it is the same after it. */
  lemma {:induction false} HeadSame(ts: Toks, us: Toks, from: nat, n: nat)
    requires from < |ts| && SkipNewlines(ts, from + 1) < n && Same(ts, us, 0, n, 0)
    ensures from < |us| && us[from] == ts[from] && SkipNewlines(us, from + 1) == SkipNewlines(ts, from + 1)
    ensures Same(ts, us, SkipNewlines(ts, from + 1), n, 0)
  {
    hide SkipNewlines;
    SkipSame(ts, us, from + 1, n, 0);
    assert Peek(us, from + 0) == Peek(ts, from);
  }

  /** The document with that entry replaced. */
  lemma {:induction false} EntryReplaced(ts: Toks, from: nat, m: nat, ms: Toks, us: Toks, v: Value)
    requires from <= |ts| && LiteralAt(ts, from).LYes? && m < |FieldsAt(ts, from)|
    requires var f := FieldsAt(ts, from)[m];
             && f.from <= f.to <= |ts| && us == ts[..f.from] + ms + ts[f.to..]
             && LiteralAt(us, f.from) == LYes(v, f.from + |ms|)
    ensures var f := FieldsAt(ts, from)[m]; var d := |ms| - (f.to - f.from); var to := LiteralAt(ts, from).next;
            && 0 <= from <= to + d <= |us| && to <= |ts| && us == ts[..from] + us[from..to + d] + ts[to..]
            && LiteralAt(us, from) == LYes(WithEntry(FieldsAt(ts, from), m, v), to + d)
  {
    hide LiteralFields, SkipNewlines, MapOf, LiteralAt, FieldsAt, ReplacedField, Follower;
    var fs := FieldsAt(ts, from);
    var f := fs[m];
    var d := |ms| - (f.to - f.from);
    EntryFacts(ts, from, m);
    Widened(ts, f.from, f.to, ms, us, from, LiteralAt(ts, from).next, d);
    FieldsReplaced(ts, from, m, ms, us, v);
    DocReads(us, from);
    MapOfReplaced(fs, LiteralFields(us, SkipNewlines(us, from + 1)).value, m, v, d);
  }

  /** The new value runs together with the key after it: a word before a word, with nothing between. */
  ghost predicate Glued(j: JVal, x: string) {
    (j.JNull? || j.JBool?) && x != "" && WordChar(x[0])
  }

  lemma {:induction false} FollowerStart(x: string)
    requires x != "" && LexOne(x).Token? && Follower(LexOne(x).t)
    ensures !NumChar(x[0])
  {
    hide LexFrom, LexString, LexFString, NumOf, WordTok, Run;
  }

  /** The index, in the document of the constant `name`, of the entry of `key`. */
  ghost predicate HasEntry(src: string, name: string, key: string) {
    && ReadSource(src).Some?
    && var p := ReadSource(src).value;
       && FindConst(p.items, name) < |p.items|
       && var fs := FieldsAt(ToksOf(p.placed), p.items[FindConst(p.items, name)].from);
          FindField(fs, key) < |fs|
  }

  /** The entries of the constant `name`. */
  function EntriesOf(src: string, name: string): (fs: seq<LField>) {
    match ReadSource(src)
    case None => []
    case Some(p) =>
      var m := FindConst(p.items, name);
      if m == |p.items| then [] else FieldsAt(ToksOf(p.placed), p.items[m].from)
  }

  /** Where the text of an entry's value starts, and where it ends without the blanks after it. */
  ghost function EntrySpan(src: string, name: string, key: string): (s: (nat, nat))
    requires HasEntry(src, name, key)
    ensures s.0 <= |src| && s.1 <= |src|
  {
    var ps := ReadSource(src).value.placed;
    var fs := EntriesOf(src, name);
    var f := fs[FindField(fs, key)];
    (PlaceOf(src, ps, f.from), Trimmed(src, PlaceOf(src, ps, f.from), PlaceOf(src, ps, f.to)))
  }

  lemma {:induction false} EntryDetached(src: string, ps: seq<Placed>, q: nat, b: nat, j: JVal)
    requires LexFrom(src) == Some(ps) && q < |ps| && b <= PlaceOf(src, ps, q) && Follower(ps[q].tok)
    requires forall k :: b <= k < PlaceOf(src, ps, q) ==> Space(src[k])
    requires !Glued(j, src[b..])
    ensures Detached(j, src[b..])
  {
    hide LexFrom, PlaceOf, LexOne, Follower;
    TailStart(src, ps, q, b);
    if src[b..] != "" && !Space(src[b]) { FollowerStart(src[b..]); }
  }

  /** What stands in the text around an entry's value. */
  lemma {:induction false} EntryStands(src: string, name: string, key: string)
    requires HasEntry(src, name, key)
    ensures ReadSource(src).Some? && FindField(EntriesOf(src, name), key) < |EntriesOf(src, name)|
    ensures var ps := ReadSource(src).value.placed; var fs := EntriesOf(src, name); var f := fs[FindField(fs, key)];
            && LexFrom(src) == Some(ps) && 0 < f.from < f.to < |ps| && ps[f.from].tok != TNewline && ps[f.from - 1].tok == TColon && Follower(ps[f.to].tok)
            && PlaceOf(src, ps, f.from) <= PlaceOf(src, ps, f.to)
            && EntrySpan(src, name, key) == (PlaceOf(src, ps, f.from), Trimmed(src, PlaceOf(src, ps, f.from), PlaceOf(src, ps, f.to)))
  {
    hide ReadSource, LexFrom, LiteralAt, FindConst, PlaceOf, Trimmed, FieldsAt, FindField, Follower;
    var p := ReadSource(src).value;
    var ts := ToksOf(p.placed);
    var c := p.items[FindConst(p.items, name)];
    var fs := FieldsAt(ts, c.from);
    ConstPlaced(src, name);
    EntryFacts(ts, c.from, FindField(fs, key));
    PlacesOrdered(src, p.placed, fs[FindField(fs, key)].from, fs[FindField(fs, key)].to);
  }

  /** The tokens of the source with an entry's value exchanged. */
  lemma {:induction false} EntryRelexed(src: string, name: string, key: string, j: JVal)
    requires HasEntry(src, name, key) && Readable(j) && !Glued(j, src[EntrySpan(src, name, key).1..])
    ensures var (start, end) := EntrySpan(src, name, key);
            var ts := ToksOf(ReadSource(src).value.placed);
            var fs := EntriesOf(src, name);
            var f := fs[FindField(fs, key)];
            && start <= end && f.from <= f.to <= |ts|
            && LexToks(Spliced(src, start, end, Render(j))) == Some(ts[..f.from] + ToksFor(j) + ts[f.to..])
  {
    hide ReadSource, LexFrom, LexToks, HasEntry, EntriesOf, PlaceOf, Trimmed, FindField, Render, Readable, ToksFor, Follower, EntrySpan, Glued;
    EntryStands(src, name, key);
    var ps := ReadSource(src).value.placed;
    var fs := EntriesOf(src, name);
    var f := fs[FindField(fs, key)];
    var b := EntrySpan(src, name, key).1;
    EntryDetached(src, ps, f.to, b, j);
    RenderLexes(j, src[b..]);
    RenderStarts(j);
    Relexed(src, ps, f.from, f.to, b, Render(j), ToksFor(j));
  }

  lemma {:induction false} SetReplaces(src: string, name: string, key: string, j: JVal, read: string -> Verdict)
    requires HasEntry(src, name, key) && !WholeKey(key)
    ensures SetLiteral(src, name, key, j, read) ==
            Checked(Spliced(src, EntrySpan(src, name, key).0, EntrySpan(src, name, key).1, Render(j)))
  {
    hide ReadSource, LexFrom, FindConst, PlaceOf, FieldsAt, FindField, Trimmed, Render, Checked;
  }

  /**
   * Rewriting the value of an entry: it succeeds unless the new word would run together with the
   * next key, every other line and the text around it are the same, and the new value is read
   * back exactly when no later entry has the same key.
   */
  lemma {:induction false} EntryEdit(src: string, name: string, key: string, j: JVal, read: string -> Verdict)
    requires HasEntry(src, name, key) && !WholeKey(key) && Readable(j) && !Glued(j, src[EntrySpan(src, name, key).1..])
    ensures var r := SetLiteral(src, name, key, j, read);
            var fs := EntriesOf(src, name);
            var w := WithEntry(fs, FindField(fs, key), ValueOf(j));
            && r.Done? && OnlyConst(src, r.text, name, w) && GetLiteral(r.text, name, key) == Look(w, key)
            && OnlyBetween(src, r.text, EntrySpan(src, name, key).0, EntrySpan(src, name, key).1, Render(j))
  {
    hide ReadSource, LexFrom, HasEntry, EntriesOf, EntrySpan, FindField, Render, Readable, ValueOf, WithEntry, SetLiteral, Glued, OnlyConst, GetLiteral;
    EntryStands(src, name, key);
    var fs := EntriesOf(src, name);
    var w := WithEntry(fs, FindField(fs, key), ValueOf(j));
    var out := Spliced(src, EntrySpan(src, name, key).0, EntrySpan(src, name, key).1, Render(j));
    SetReplaces(src, name, key, j, read);
    EntryRelexed(src, name, key, j);
    EntryConst(src, name, key, j, out);
    OnlyConstReads(src, out, name, w, key);
    ParsesSo(src, out, name, w);
  }

  lemma {:induction false} ParsesSo(src: string, out: string, name: string, v: Value)
    requires OnlyConst(src, out, name, v)
    ensures Checked(out) == Done(out)
  {
    hide ReadSource, FindConst;
  }

  /** An entry's tokens exchanged: the program with that constant replaced. */
  lemma {:induction false} EntryConst(src: string, name: string, key: string, j: JVal, out: string)
    requires HasEntry(src, name, key) && Readable(j)
    requires var ts := ToksOf(ReadSource(src).value.placed); var fs := EntriesOf(src, name); var f := fs[FindField(fs, key)];
             f.from <= f.to <= |ts| && LexToks(out) == Some(ts[..f.from] + ToksFor(j) + ts[f.to..])
    ensures var fs := EntriesOf(src, name); OnlyConst(src, out, name, WithEntry(fs, FindField(fs, key), ValueOf(j)))
  {
    hide ReadSource, LexFrom, LexToks, LiteralAt, FindConst, FieldsAt, FindField, Readable, ValueOf, ToksFor, WithEntry, OnlyConst;
    var p := ReadSource(src).value;
    var ts := ToksOf(p.placed);
    var c := p.items[FindConst(p.items, name)];
    var fs := FieldsAt(ts, c.from);
    var m := FindField(fs, key);
    var f := fs[m];
    ConstPlaced(src, name);
    var us := ts[..f.from] + ToksFor(j) + ts[f.to..];
    var d := |ToksFor(j)| - (f.to - f.from);
    SpliceSame(ts, f.from, f.to, ToksFor(j), us, d);
    LiteralReads(j, us, f.from);
    EntryReplaced(ts, c.from, m, ToksFor(j), us, ValueOf(j));
    ConstReplaced(src, name, out, us[c.from..c.to + d], WithEntry(fs, m, ValueOf(j)));
  }
}
