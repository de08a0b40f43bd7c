// One entry of a table, set or added with a value whose JSON text the lexer does not read back
// (core/src/vjs.rs). Behind an exponent a word is left over in the document: the constant leaves
// the surface, or the word runs together with the next key and renames it.

module VjsUnreadEntry {
  import opened Wrappers
  import opened VjsSyntax
  import opened VjsParser
  import opened VjsPratt
  import opened VjsProgram
  import opened VjsLocal
  import opened VjsBrackets
  import opened VjsSplice
  import opened VjsLexer
  import opened VjsRelex
  import opened VjsJson
  import opened VjsEdit
  import opened VjsEditProof
  import opened VjsEditAdd
  import opened VjsGlued
  import opened VjsEditTheorem
  import opened VjsUnreadable

  // ---------- brackets around an edit ----------

  lemma {:induction false} DepthBefore(ts: Toks, us: Toks, p: nat, k: nat)
    requires Same(ts, us, 0, p, 0) && k <= p
    ensures Depth(us, k) == Depth(ts, k)
    decreases k
  {
    hide Same;
    if k > 0 {
      DepthBefore(ts, us, p, k - 1);
      SamePeek(ts, us, 0, p, 0, k - 1);
    }
  }

  lemma {:induction false} DepthBehind(ts: Toks, us: Toks, q: nat, d: int, k: nat)
    requires q <= k <= |ts| && Same(ts, us, q, |ts| + 1, d) && 0 <= q + d && Depth(us, q + d) == Depth(ts, q)
    ensures Depth(us, k + d) == Depth(ts, k)
    decreases k
  {
    hide Same, Depth;
    if k > q {
      DepthBehind(ts, us, q, d, k - 1);
      SamePeek(ts, us, q, |ts| + 1, d, k - 1);
      DepthStep(ts, k - 1);
      DepthStep(us, k - 1 + d);
    }
  }

  /** Level tokens for level tokens inside a bracket: it closes where it did. */
  lemma {:induction false} SplicedClosed(ts: Toks, us: Toks, k: nat, n: nat, p: nat, q: nat, w: Toks)
    requires k < p <= q < n <= |ts| && us == ts[..p] + w + ts[q..]
    requires FirstClosed(ts, k, n) && Level(ts, p, q) && Level(us, p, p + |w|)
    ensures FirstClosed(us, k, n + |w| - (q - p))
  {
    hide Depth;
    var d := |w| - (q - p);
    SpliceSame(ts, p, q, w, us, d);
    DepthBefore(ts, us, p, k);
    DepthBefore(ts, us, p, p);
    forall l: nat | k < l < n + d ensures Depth(us, l) > Depth(us, k) {
      if l <= p {
        DepthBefore(ts, us, p, l);
      } else if l < p + |w| {
        assert Depth(us, l) >= Depth(us, p);
      } else {
        DepthBehind(ts, us, q, d, l - d);
      }
    }
    DepthBehind(ts, us, q, d, n);
  }

  lemma {:induction false} LiteralClosed(ts: Toks, k: nat)
    requires k < |ts| && ts[k] == TLBrace && LiteralAt(ts, k).LYes?
    ensures FirstClosed(ts, k, LiteralAt(ts, k).next)
  {
    hide LiteralAt, Depth;
    LiteralInside(ts, k);
    LiteralEndsAfter(ts, k);
  }

  lemma {:induction false} LiteralEndsAfter(ts: Toks, i: nat)
    requires i <= |ts|
    ensures LiteralAt(ts, i).LYes? ==> i < LiteralAt(ts, i).next <= |ts|
  {
    hide LiteralAt;
  }

  lemma {:induction false} LiteralLevel(ts: Toks, p: nat)
    requires p <= |ts| && LiteralAt(ts, p).LYes?
    ensures Level(ts, p, LiteralAt(ts, p).next)
  {
    hide LiteralAt, Depth;
    LiteralInside(ts, p);
    LiteralEndsAfter(ts, p);
  }

  /** With a loose word before it closes, a document is no literal. */
  lemma {:induction false} LooseBreaks(us: Toks, k: nat, n: nat, p: nat)
    requires k < |us| && us[k] == TLBrace && FirstClosed(us, k, n) && k <= p < n && Peek(us, p).TIdent? && Peek(us, p + 1) != TColon
    ensures LiteralAt(us, k).LNo?
  {
    hide LiteralAt, FirstClosed;
    if LiteralAt(us, k).LYes? {
      LiteralClosed(us, k);
      ClosedOnce(us, k, LiteralAt(us, k).next, n);
      LiteralWords(us, k);
    }
  }

  // ---------- a constant that is edited inside its braces ----------

  /** The tokens `w` for those from `p` to `q` inside the document from `from` to `to`; the word at `l` among them is loose. */
  ghost predicate Broken(ts: Toks, us: Toks, from: nat, to: nat, p: nat, q: nat, w: Toks, l: nat) {
    && from < p <= q < to < |ts| && ts[from] == TLBrace && ts[to] == TNewline && LiteralAt(ts, from).LYes? && LiteralAt(ts, from).next == to
    && us == ts[..p] + w + ts[q..] && Level(ts, p, q) && Level(us, p, p + |w|)
    && p <= l < p + |w| && Peek(us, l).TIdent? && Peek(us, l + 1) != TColon
  }

  lemma {:induction false} BrokenParts(ts: Toks, us: Toks, from: nat, to: nat, p: nat, q: nat, w: Toks, l: nat)
    requires Broken(ts, us, from, to, p, q, w, l)
    ensures var n := to + |w| - (q - p);
            && from < n <= |us| && us == ts[..from] + us[from..n] + ts[to..] && us[from] == TLBrace
  {
    hide LiteralAt, Level;
    Widened(ts, p, q, w, us, from, to, |w| - (q - p));
    assert us[from] == ts[..p][from];
  }

  lemma {:induction false} BrokenCloses(ts: Toks, us: Toks, from: nat, to: nat, p: nat, q: nat, w: Toks, l: nat)
    requires Broken(ts, us, from, to, p, q, w, l)
    ensures to + |w| - (q - p) >= 0 && FirstClosed(us, from, to + |w| - (q - p))
  {
    hide LiteralAt, Level, FirstClosed, Peek;
    LiteralClosed(ts, from);
    SplicedClosed(ts, us, from, to, p, q, w);
  }

  lemma {:induction false} BrokenLoose(ts: Toks, us: Toks, from: nat, to: nat, p: nat, q: nat, w: Toks, l: nat)
    requires Broken(ts, us, from, to, p, q, w, l)
    ensures from <= l < to + |w| - (q - p) && Peek(us, l).TIdent? && Peek(us, l + 1) != TColon
  {
    hide LiteralAt, Level, Peek;
  }

  /** What stands there is closed by its own brace, and no literal. */
  lemma {:induction false} BrokenDoc(ts: Toks, us: Toks, from: nat, to: nat, p: nat, q: nat, w: Toks, l: nat)
    requires Broken(ts, us, from, to, p, q, w, l)
    ensures var n := to + |w| - (q - p);
            from < |us| && us[from] == TLBrace && from < n && FirstClosed(us, from, n) && LiteralAt(us, from).LNo?
  {
    hide Broken, LiteralAt, FirstClosed, Peek;
    BrokenParts(ts, us, from, to, p, q, w, l);
    BrokenCloses(ts, us, from, to, p, q, w, l);
    BrokenLoose(ts, us, from, to, p, q, w, l);
    LooseBreaks(us, from, to + |w| - (q - p), l);
  }

  /** The constant leaves the surface. */
  lemma {:induction false} BrokenLeaves(ts: Toks, us: Toks, m: nat, p: nat, q: nat, w: Toks, l: nat, name: string, key: string)
    requires ParseItems'(ts, 0).Some? && m < |ParseItems'(ts, 0).value| && m == FindConst(ParseItems'(ts, 0).value, name)
    requires var c := ParseItems'(ts, 0).value[m]; Broken(ts, us, c.from, c.to, p, q, w, l)
    requires ParseItems'(us, 0).Some?
    ensures Reading(ParseItems'(us, 0).value, name, key) == Reading(ParseItems'(ts, 0).value[m + 1..], name, key)
  {
    hide ParseItems', OnLine, Reading, FindConst, Broken, LiteralAt, FirstClosed, StartsConst;
    var c := ParseItems'(ts, 0).value[m];
    BrokenParts(ts, us, c.from, c.to, p, q, w, l);
    BrokenDoc(ts, us, c.from, c.to, p, q, w, l);
    BrokenEnds(ts, us, c.from, c.to, p, q, w, l);
    var w' := us[c.from..c.to + |w| - (q - p)];
    var r := EditedLine(ts, us, m, w');
    NoLiteralNoConst(ts, us, m, w', r);
    LeavesAfter(ts, us, m, name, key, w', r);
  }

  lemma {:induction false} BrokenEnds(ts: Toks, us: Toks, from: nat, to: nat, p: nat, q: nat, w: Toks, l: nat)
    requires Broken(ts, us, from, to, p, q, w, l)
    ensures from < to < |ts| && ts[to] == TNewline
  {
    hide LiteralAt, Level;
  }

  lemma {:induction false} NoLiteralNoConst(ts: Toks, us: Toks, m: nat, w: Toks, q: nat)
    requires OnLine(ts, us, m, w, q) && ParseItems'(ts, 0).value[m].from <= |us| && LiteralAt(us, ParseItems'(ts, 0).value[m].from).LNo?
    ensures 2 <= ParseItems'(ts, 0).value[m].from && !StartsConst(us, ParseItems'(ts, 0).value[m].from - 2)
  {
    hide ParseItems', SkipNewlines, Same, NamesConst, At, SurfaceName, LiteralAt;
  }

  // ---------- an entry that is there ----------

  /** The tokens of the source with any sound document's in the place of an entry's value. */
  lemma {:induction false} EntryRawRelexed(src: string, name: string, key: string, j: JVal)
    requires HasEntry(src, name, key) && Sound(j) && Free(j, src[EntrySpan(src, name, key).1..])
    ensures var (start, end) := EntrySpan(src, name, key);
            var ts := ToksOf(ReadSource(src).value.placed);
            var fs := EntriesOf(src, name);
            var f := fs[FindField(fs, key)];
            && start <= end && f.from <= f.to <= |ts|
            && LexToks(Spliced(src, start, end, Render(j))) == Some(ts[..f.from] + RawToks(j) + ts[f.to..])
  {
    hide ReadSource, LexFrom, LexToks, HasEntry, EntriesOf, PlaceOf, Trimmed, FindField, Render, Sound, RawToks, Follower, EntrySpan, Free;
    EntryStands(src, name, key);
    var ps := ReadSource(src).value.placed;
    var fs := EntriesOf(src, name);
    var f := fs[FindField(fs, key)];
    var b := EntrySpan(src, name, key).1;
    RawLexes(j, src[b..]);
    RawStarts(j);
    Relexed(src, ps, f.from, f.to, b, Render(j), RawToks(j));
  }

  /** In the place of an entry's value, the tokens of a document with an exponent break the table. */
  lemma {:induction false} EntryBroken(ts: Toks, us: Toks, from: nat, to: nat, m: nat, j: JVal) returns (l: nat)
    requires Sound(j) && !Plainly(j) && from < to < |ts| && ts[to] == TNewline && LiteralAt(ts, from).LYes? && LiteralAt(ts, from).next == to
    requires m < |FieldsAt(ts, from)|
    requires var f := FieldsAt(ts, from)[m]; f.from <= f.to <= |ts| && us == ts[..f.from] + RawToks(j) + ts[f.to..]
    ensures var f := FieldsAt(ts, from)[m]; Broken(ts, us, from, to, f.from, f.to, RawToks(j), l)
  {
    hide LiteralAt, FieldsAt, RawToks, Sound, Plainly, Level, Follower, At, Loose;
    var f := FieldsAt(ts, from)[m];
    var w := RawToks(j);
    EntryFacts(ts, from, m);
    LiteralLevel(ts, f.from);
    SpliceSame(ts, f.from, f.to, w, us, |w| - (f.to - f.from));
    StandsThere(us, f.from, w);
    RawLevel(j, us, f.from);
    var p := LooseWord(j);
    LooseThere(us, f.from, w, p, ts[f.to]);
    l := f.from + p;
  }

  lemma {:induction false} LooseThere(us: Toks, i: nat, w: Toks, p: nat, t: Tok)
    requires At(us, i, w) && Loose(w, p) && Peek(us, i + |w|) == t && Follower(t)
    ensures p < |w| && Peek(us, i + p).TIdent? && Peek(us, i + p + 1) != TColon
  {
    forall k | 0 <= k < |w| ensures us[i + k] == w[k] { assert us[i..i + |w|][k] == w[k]; }
    assert Peek(us, i + p) == w[p];
    if p + 1 < |w| { assert Peek(us, i + p + 1) == w[p + 1]; }
  }

  lemma {:induction false} EntryLeaves(src: string, name: string, key: string, j: JVal, out: string)
    requires HasEntry(src, name, key) && Sound(j) && !Plainly(j) && ReadSource(out).Some?
    requires var ts := ToksOf(ReadSource(src).value.placed); var fs := EntriesOf(src, name); var f := fs[FindField(fs, key)];
             f.from <= f.to <= |ts| && LexToks(out) == Some(ts[..f.from] + RawToks(j) + ts[f.to..])
    ensures GetLiteral(out, name, key) == Later(src, name, key)
  {
    hide LexFrom, ParseItems', FindConst, Sound, Plainly, RawToks, Reading, FieldsAt, FindField, LiteralAt, Broken, PlaceOf;
    ConstPlaced(src, name);
    var p := ReadSource(src).value;
    var ts := ToksOf(p.placed);
    var m := FindConst(p.items, name);
    var c := p.items[m];
    var fs := FieldsAt(ts, c.from);
    var f := fs[FindField(fs, key)];
    var us := LexToks(out).value;
    var l := EntryBroken(ts, us, c.from, c.to, FindField(fs, key), j);
    BrokenLeaves(ts, us, m, f.from, f.to, RawToks(j), l, name, key);
    GetReads(out, name, key);
  }

  /** Without exponents the entry reads as what the lexer takes the document for, if no later entry has its key. */
  lemma {:induction false} EntryPlainly(src: string, name: string, key: string, j: JVal, out: string)
    requires HasEntry(src, name, key) && !WholeKey(key) && Sound(j) && Plainly(j)
    requires var ts := ToksOf(ReadSource(src).value.placed); var fs := EntriesOf(src, name); var f := fs[FindField(fs, key)];
             f.from <= f.to <= |ts| && LexToks(out) == Some(ts[..f.from] + RawToks(j) + ts[f.to..])
    ensures var fs := EntriesOf(src, name);
            if Governs(fs, FindField(fs, key)) then GetLiteral(out, name, key) == Some(Meaning(j)) <==> PlainStrings(j)
            else GetLiteral(out, name, key) == GetLiteral(src, name, key)
  {
    hide ReadSource, LexFrom, LexToks, HasEntry, EntriesOf, FindField, Sound, Plainly, RawToks, ToksFor, Readable, ValueOf, Garbled, Meaning,
      PlainStrings, OnlyConst, GetLiteral, MapOf, WithEntry, IsDocument;
    GarbledReadable(j);
    GarbledToks(j);
    GarbledDiffers(j);
    var g := Garbled(j);
    EntryConst(src, name, key, g, out);
    var fs := EntriesOf(src, name);
    var m := FindField(fs, key);
    HasEntryMeans(src, name, key);
    OnlyConstReads(src, out, name, WithEntry(fs, m, ValueOf(g)), key);
    EntryIsDocument(src, name, key);
    DocumentReads(src, name, key);
    LookEntry(fs, m, ValueOf(g));
  }

  lemma {:induction false} LookEntry(fs: seq<LField>, m: nat, v: Value)
    requires m < |fs| && !WholeKey(fs[m].key)
    ensures Look(WithEntry(fs, m, v), fs[m].key) == if Governs(fs, m) then Some(v) else Look(Obj(MapOf(fs)), fs[m].key)
  {
    hide MapOf;
  }

  // ---------- an entry that is added ----------

  ghost function RawInserted(empty: bool, key: string, j: JVal): (ts: Toks)
    requires Sound(j)
  {
    (if empty then [] else [TComma]) + [TStr(GarbleAll(key)), TColon] + RawToks(j)
  }

  lemma {:induction false} InsertionRawLexes(empty: bool, key: string, j: JVal, x: string)
    requires Sound(j) && Punct(x)
    ensures LexToks(Insertion(empty, key, j) + x) == Prepend(RawInserted(empty, key, j), LexToks(x))
  {
    hide LexToks, Render, RawToks, Sound, Quote, GarbleAll;
    RawLexes(j, x);
    var z := Render(j) + x;
    SkipsBlanks(" ", z);
    PunctLexes(':', TColon, " " + z);
    var y := [':'] + (" " + z);
    GarbledLexes(key, y);
    PrependTwice([TColon], RawToks(j), LexToks(x));
    PrependTwice([TStr(GarbleAll(key))], [TColon] + RawToks(j), LexToks(x));
    var es := [TStr(GarbleAll(key))] + ([TColon] + RawToks(j));
    var e := Quote(key) + y;
    if empty {
      assert Insertion(empty, key, j) + x == e;
      assert RawInserted(empty, key, j) == es;
    } else {
      SkipsBlanks(" ", e);
      PunctLexes(',', TComma, " " + e);
      PrependTwice([TComma], es, LexToks(x));
      assert Insertion(empty, key, j) + x == [','] + (" " + e);
      assert RawInserted(empty, key, j) == [TComma] + es;
    }
  }

  lemma {:induction false} EntryRawInserted(src: string, ps: seq<Placed>, p: nat, empty: bool, key: string, j: JVal)
    requires LexFrom(src) == Some(ps) && 0 < p < |ps| && ps[p].tok == TRBrace && Sound(j)
    requires empty ==> ps[p - 1].tok == TLBrace || ps[p - 1].tok == TNewline
    ensures var close := PlaceOf(src, ps, p); var ts := ToksOf(ps);
            LexToks(Spliced(src, close, close, Insertion(empty, key, j))) == Some(ts[..p] + RawInserted(empty, key, j) + ts[p..])
  {
    hide LexFrom, LexToks, PlaceOf, Sound, Insertion, RawInserted;
    var close := PlaceOf(src, ps, p);
    var x := src[close..];
    MarkChar(src, ps, p);
    InsertionStarts(empty, key, j);
    InsertionRawLexes(empty, key, j, x);
    Relexed'(src, ps, p, Insertion(empty, key, j), RawInserted(empty, key, j));
  }

  /** The tokens of the source with the new entry. */
  lemma {:induction false} AddRawRelexed(src: string, key: string, j: JVal, read: string -> Verdict, ps: seq<Placed>, a: nat, z: nat, t: string)
    requires TakenForTable(src, ps, a, z, t, read) && Sound(j)
    ensures var ts := ToksOf(ps); var fs := FieldsAt(ts, a); var close := PlaceOf(src, ps, z - 1);
            && a + 1 < z && ts[a] == TLBrace && ts[z - 1] == TRBrace && (fs != [] ==> LastBefore(ts, z - 1) != TComma)
            && LiteralAt(ts, a).LYes? && LiteralAt(ts, a).next == z
            && LexToks(Spliced(src, close, close, Insertion(fs == [], key, j))) == Some(ts[..z - 1] + RawInserted(fs == [], key, j) + ts[z - 1..])
  {
    hide LexFrom, LexToks, LiteralAt, PlaceOf, FieldsAt, Insertion, Sound, RawInserted, TrimEnd, Strict, LastBefore, LiteralFields, NoComment;
    var ts := ToksOf(ps);
    var fs := FieldsAt(ts, a);
    TableIs(src, ps, a, z, t, read);
    TableEmpty(src, ps, a, z, t, read);
    if fs != [] { TableTrails(src, ps, a, z, t, read); }
    EntryRawInserted(src, ps, z - 1, fs == [], key, j);
  }

  lemma {:induction false} InsertedLevel(us: Toks, p: nat, empty: bool, key: string, j: JVal)
    requires Sound(j) && At(us, p, RawInserted(empty, key, j))
    ensures Level(us, p, p + |RawInserted(empty, key, j)|)
  {
    hide Sound, RawToks, At, Level, GarbleAll;
    var h := (if empty then [] else [TComma]) + [TStr(GarbleAll(key)), TColon];
    AtSplit(us, p, h, RawToks(j));
    FlatLevel(us, p, h);
    RawLevel(j, us, p + |h|);
    LevelThen(us, p, p + |h|, p + |h| + |RawToks(j)|);
  }

  lemma {:induction false} InsertedLoose(empty: bool, key: string, j: JVal) returns (p: nat)
    requires Sound(j) && !Plainly(j)
    ensures Loose(RawInserted(empty, key, j), p)
  {
    hide Sound, Plainly, RawToks, GarbleAll, Loose;
    var h := (if empty then [] else [TComma]) + [TStr(GarbleAll(key)), TColon];
    var q := LooseWord(j);
    LooseInside(h, RawToks(j), [], q);
    assert h + RawToks(j) + [] == RawInserted(empty, key, j);
    p := |h| + q;
  }

  lemma {:induction false} AddBroken(ts: Toks, us: Toks, from: nat, to: nat, empty: bool, key: string, j: JVal) returns (l: nat)
    requires Sound(j) && !Plainly(j) && from + 1 < to < |ts| && ts[to] == TNewline && LiteralAt(ts, from).LYes? && LiteralAt(ts, from).next == to
    requires ts[from] == TLBrace && ts[to - 1] == TRBrace && us == ts[..to - 1] + RawInserted(empty, key, j) + ts[to - 1..]
    ensures Broken(ts, us, from, to, to - 1, to - 1, RawInserted(empty, key, j), l)
  {
    hide LiteralAt, RawInserted, Sound, Plainly, Level, Follower, At, Loose;
    var w := RawInserted(empty, key, j);
    LevelStep(ts, to - 1);
    SpliceSame(ts, to - 1, to - 1, w, us, |w|);
    StandsThere(us, to - 1, w);
    InsertedLevel(us, to - 1, empty, key, j);
    var p := InsertedLoose(empty, key, j);
    assert us[to - 1 + |w|] == TRBrace;
    BraceFollows();
    LooseThere(us, to - 1, w, p, TRBrace);
    l := to - 1 + p;
  }

  lemma {:induction false} BraceFollows()
    ensures Follower(TRBrace)
  {
  }

  lemma {:induction false} AddLeaves(src: string, name: string, key: string, j: JVal, out: string, p: Source, c: Item, empty: bool)
    requires Finds(src, name, p, c) && Sound(j) && !Plainly(j) && ReadSource(out).Some?
    requires var ts := ToksOf(p.placed);
             && c.from + 1 < c.to && ts[c.from] == TLBrace && ts[c.to - 1] == TRBrace && LiteralAt(ts, c.from).LYes? && LiteralAt(ts, c.from).next == c.to
             && LexToks(out) == Some(ts[..c.to - 1] + RawInserted(empty, key, j) + ts[c.to - 1..])
    ensures GetLiteral(out, name, key) == Later(src, name, key)
  {
    hide LexFrom, ParseItems', FindConst, Sound, Plainly, RawInserted, Reading, LiteralAt, Broken, PlaceOf;
    ConstPlaced(src, name);
    var ts := ToksOf(p.placed);
    var m := FindConst(p.items, name);
    var us := LexToks(out).value;
    var l := AddBroken(ts, us, c.from, c.to, empty, key, j);
    BrokenLeaves(ts, us, m, c.to - 1, c.to - 1, RawInserted(empty, key, j), l, name, key);
    GetReads(out, name, key);
  }

  lemma {:induction false} InsertedAs(empty: bool, key: string, j: JVal)
    requires Sound(j) && Plainly(j) && Readable(Garbled(j))
    ensures RawInserted(empty, key, j) == InsertedToks(empty, GarbleAll(key), Garbled(j))
  {
    hide Sound, Plainly, Readable, Garbled, GarbleAll, RawToks, ToksFor;
    GarbledToks(j);
  }

  /** Without exponents the new entry reads as what the lexer takes it for, key and value. */
  lemma {:induction false} AddPlainly(src: string, name: string, key: string, j: JVal, out: string, p: Source, c: Item)
    requires Finds(src, name, p, c) && Sound(j) && Plainly(j) && !WholeKey(key)
    requires var ts := ToksOf(p.placed); var fs := FieldsAt(ts, c.from);
             && c.from + 1 < c.to && ts[c.from] == TLBrace && LiteralAt(ts, c.from).LYes? && LiteralAt(ts, c.from).next == c.to
             && (fs != [] ==> LastBefore(ts, c.to - 1) != TComma)
             && FindField(fs, key) == |fs|
             && LexToks(out) == Some(ts[..c.to - 1] + RawInserted(fs == [], key, j) + ts[c.to - 1..])
    ensures GetLiteral(out, name, key) == Some(Meaning(j)) <==> PlainStrings(j) && Plain(key)
  {
    hide ReadSource, LexFrom, LexToks, LiteralAt, FindConst, PlaceOf, FieldsAt, FindField, Sound, Plainly, RawInserted, InsertedToks, Readable,
      ValueOf, Garbled, GarbleAll, Meaning, PlainStrings, Plain, MapOf, OnlyConst, GetLiteral, LastBefore;
    GarbledReadable(j);
    GarbledDiffers(j);
    var g := Garbled(j);
    var k := GarbleAll(key);
    var ts := ToksOf(p.placed);
    var fs := FieldsAt(ts, c.from);
    InsertedAs(fs == [], key, j);
    var ms := InsertedToks(fs == [], k, g);
    var us := ts[..c.to - 1] + ms + ts[c.to - 1..];
    EntryAdded(ts, c.from, k, g, us);
    var w := Obj(MapOf(fs)[k := ValueOf(g)]);
    ConstReplaced(src, name, out, us[c.from..c.to + |ms|], w);
    OnlyConstReads(src, out, name, w, key);
    ReadBackIffPlain(key);
    NoKey(fs, key);
  }

  lemma {:induction false} NoKey(fs: seq<LField>, key: string)
    requires FindField(fs, key) == |fs|
    ensures key !in MapOf(fs)
  {
    hide FindField, MapOf;
    MapOfKeys(fs, key);
  }

  // ---------- an exponent that runs together with the next key ----------

  /** The new value ends in a word, and the next key follows it with nothing between. */
  ghost predicate RunsOn(j: JVal, y: string) {
    j.JNum? && Unsigned(ExponentOf(j.text)) && y != "" && WordChar(y[0])
  }

  /** The entries once entry `m` has the value `v`, and the one after it the key `w`. */
  function Renamed(fs: seq<LField>, m: nat, v: Value, w: string): (gs: seq<LField>)
    requires m + 1 < |fs|
  {
    fs[m := fs[m].(value := v)][m + 1 := fs[m + 1].(key := w)]
  }

  /** A number without its exponent. */
  function Base(j: JVal): (b: JVal)
    requires j.JNum?
  {
    JNum(j.minus, Mantissa(j.text))
  }

  lemma {:induction false} WordSpelled(w: string)
    ensures WordOf(WordTok(w)) == Some(w)
  {
  }

  lemma {:induction false} RunOnLexes(x: string, y: string)
    requires Exponent(x) && Unsigned(x) && y != "" && WordChar(y[0]) && LexOne(y).Token? && Follower(LexOne(y).t)
    ensures WordOf(LexOne(y).t) == Some(y[..LexOne(y).n])
    ensures LexToks(x + y) == Prepend([TIdent(x + y[..LexOne(y).n])], LexToks(y[LexOne(y).n..]))
  {
    hide LexFrom, LexToks, LexOne, WordTok, Run, Follower;
    FollowerWord(y);
    var n := LexOne(y).n;
    WordSpelled(y[..n]);
    WordE(x);
    var s := x + y;
    forall k | 0 <= k < |x| + n ensures WordChar(s[k]) { assert s[k] == if k < |x| then x[k] else y[k - |x|]; }
    assert n < |y| ==> s[|x| + n] == y[n];
    RunIs(s, WordChar, |x| + n);
    assert s[0] == x[0] && s[1] == x[1];
    LexRun(s);
    assert s[..|x| + n] == x + y[..n] && s[|x| + n..] == y[n..];
    NoKeyword(x + y[..n]);
    LexToksStep(s);
  }

  lemma {:induction false} BaseReads(j: JVal)
    requires Sound(j) && j.JNum?
    ensures Readable(Base(j)) && ToksFor(Base(j)) == (if j.minus then [TMinus] else []) + [TNum(NumOf(Mantissa(j.text)).value)]
    ensures Render(j) == Render(Base(j)) + ExponentOf(j.text)
  {
    hide NumOf, Run;
    MantissaReads(j.text);
    var m, x := Mantissa(j.text), ExponentOf(j.text);
    assert j.text == m + x;
    var front := if j.minus then "-" else "";
    assert front + (m + x) == (front + m) + x;
  }

  /** The text of such a number before such a word: the number, and one word. */
  lemma {:induction false} RunOnNumber(j: JVal, y: string)
    requires Sound(j) && RunsOn(j, y) && LexOne(y).Token? && Follower(LexOne(y).t)
    ensures Readable(Base(j)) && WordOf(LexOne(y).t) == Some(y[..LexOne(y).n])
    ensures LexToks(Render(j) + y) ==
            Prepend(ToksFor(Base(j)) + [TIdent(ExponentOf(j.text) + y[..LexOne(y).n])], LexToks(y[LexOne(y).n..]))
  {
    hide LexToks, LexOne, NumOf, Run, ToksFor, Render, Follower;
    var x := ExponentOf(j.text);
    var n := LexOne(y).n;
    BaseReads(j);
    RunOnLexes(x, y);
    assert (x + y)[0] == x[0];
    ExponentStarts(x);
    hide Exponent, Unsigned;
    NumberLexes(j.minus, Mantissa(j.text), x + y);
    assert Render(j) + y == Render(Base(j)) + (x + y);
    PrependTwice(ToksFor(Base(j)), [TIdent(x + y[..n])], LexToks(y[n..]));
  }

  /** The tokens of such a number and the word it makes with the next key. */
  function RunOnToks(j: JVal, t: Tok): (ms: Toks)
    requires j.JNum? && Readable(Base(j)) && WordOf(t).Some?
  {
    ToksFor(Base(j)) + [TIdent(ExponentOf(j.text) + WordOf(t).value)]
  }

  lemma {:induction false} RunOnText(src: string, ps: seq<Placed>, p: nat, q: nat, j: JVal)
    requires LexFrom(src) == Some(ps) && 0 < p < q && q + 1 < |ps| && ps[p].tok != TNewline && ps[p - 1].tok == TColon && Follower(ps[q].tok)
    requires Sound(j) && RunsOn(j, src[PlaceOf(src, ps, q)..])
    ensures Readable(Base(j)) && WordOf(ps[q].tok).Some?
    ensures LexToks(Spliced(src, PlaceOf(src, ps, p), PlaceOf(src, ps, q), Render(j))) ==
            Some(ToksOf(ps)[..p] + RunOnToks(j, ps[q].tok) + ToksOf(ps)[q + 1..])
  {
    hide LexFrom, LexToks, PlaceOf, Render, Sound, ToksFor, Follower, LexOne, WordChar, Base, Readable, Spliced, WordOf, RunsOn;
    var y := src[PlaceOf(src, ps, q)..];
    RunsOnMeans(j, y);
    TailAfter(src, ps, q);
    RunOnNumber(j, y);
    RawStarts(j);
    HeadLex(src, ps, p, Render(j) + y);
    SplicedHead(src, PlaceOf(src, ps, p), PlaceOf(src, ps, q), Render(j));
    var ms, ts := RunOnToks(j, ps[q].tok), ToksOf(ps);
    PrependTo(ts[..p], ms, ts[q + 1..]);
  }

  lemma {:induction false} PrependTo(x: Toks, ms: Toks, z: Toks)
    ensures Prepend(x, Prepend(ms, Some(z))) == Some(x + ms + z)
  {
    assert x + (ms + z) == x + ms + z;
  }

  /** Such a number's tokens, and the word, for the value `f` and the key behind it. */
  ghost predicate RunOnSplice(ts: Toks, us: Toks, f: LField, j: JVal) {
    && j.JNum? && Readable(Base(j)) && f.from <= f.to && f.to + 1 < |ts| && WordOf(ts[f.to]).Some? && ts[f.to] != TRBrace
    && us == ts[..f.from] + RunOnToks(j, ts[f.to]) + ts[f.to + 1..]
  }

  lemma {:induction false} RunOnRelexed(src: string, name: string, key: string, j: JVal) returns (us: Toks)
    requires HasEntry(src, name, key) && Sound(j) && RunsOn(j, src[EntrySpan(src, name, key).1..])
    ensures var (start, end) := EntrySpan(src, name, key);
            var ts := ToksOf(ReadSource(src).value.placed);
            var fs := EntriesOf(src, name);
            LexToks(Spliced(src, start, end, Render(j))) == Some(us) && RunOnSplice(ts, us, fs[FindField(fs, key)], j)
  {
    hide ReadSource, LexFrom, LexToks, HasEntry, EntriesOf, PlaceOf, FindField, Render, Sound, Follower, EntrySpan, WordChar, Base, Readable,
      Spliced, WordOf, RunsOn, RunOnToks;
    RunsOnMeans(j, src[EntrySpan(src, name, key).1..]);
    GluedPlace(src, name, key);
    SourceLexes(src, name, key);
    HasEntryMeans(src, name, key);
    var ps := ReadSource(src).value.placed;
    var fs := EntriesOf(src, name);
    var f := fs[FindField(fs, key)];
    RunOnText(src, ps, f.from, f.to, j);
    BraceNoWord();
    us := ToksOf(ps)[..f.from] + RunOnToks(j, ps[f.to].tok) + ToksOf(ps)[f.to + 1..];
  }

  lemma {:induction false} SourceLexes(src: string, name: string, key: string)
    requires HasEntry(src, name, key)
    ensures ReadSource(src).Some? && LexFrom(src) == Some(ReadSource(src).value.placed)
  {
    hide LexFrom, ParseItems', FindConst, FindField, FieldsAt;
  }

  lemma {:induction false} BraceNoWord()
    ensures WordOf(TRBrace).None?
  {
  }

  lemma {:induction false} RunsOnMeans(j: JVal, y: string)
    requires RunsOn(j, y)
    ensures j.JNum? && y != "" && WordChar(y[0])
  {
  }

  lemma {:induction false} SplicedHead(src: string, start: nat, end: nat, mid: string)
    requires start <= |src| && end <= |src|
    ensures Spliced(src, start, end, mid) == src[..start] + (mid + src[end..])
  {
  }

  // the entries

  /** What follows entry `m` in a document. */
  lemma {:induction false} RestIs(ts: Toks, i: nat, m: nat)
    requires i <= |ts| && LiteralFields(ts, i).LYes? && m < |LiteralFields(ts, i).value|
    ensures var fs := LiteralFields(ts, i).value;
            fs[m].to <= |ts| && LiteralFields(ts, AfterItem(ts, fs[m].to)) == LYes(fs[m + 1..], LiteralFields(ts, i).next)
    decreases m
  {
    hide LiteralAt, AfterItem, WordOf, LiteralFields;
    FirstEntry(ts, i);
    var fs := LiteralFields(ts, i).value;
    if m > 0 {
      RestIs(ts, AfterItem(ts, fs[0].to), m - 1);
      assert fs[1..][m..] == fs[m + 1..];
    }
  }

  /** The entry directly behind entry `m`. */
  lemma {:induction false} NextEntry(ts: Toks, i: nat, m: nat)
    requires i <= |ts| && LiteralFields(ts, i).LYes? && m < |LiteralFields(ts, i).value|
    requires var e := LiteralFields(ts, i).value[m].to; WordOf(Peek(ts, e)).Some? && Peek(ts, e) != TRBrace
    ensures var fs := LiteralFields(ts, i).value; m + 1 < |fs| && fs[m + 1].from == fs[m].to + 2 && fs[m + 1].key == WordOf(Peek(ts, fs[m].to)).value
  {
    hide LiteralAt, AfterItem, WordOf, LiteralFields;
    var fs := LiteralFields(ts, i).value;
    var e := fs[m].to;
    RestIs(ts, i, m);
    AfterItemFirst(ts, e);
    assert WordOf(TNewline).None? && WordOf(TComma).None? by { NoWords(); }
    if fs[m + 1..] == [] { NoFields(ts, e); } else {
      FirstEntry(ts, e);
      assert fs[m + 1] == fs[m + 1..][0];
    }
  }

  lemma {:induction false} NoWords()
    ensures WordOf(TNewline).None? && WordOf(TComma).None?
  {
  }

  lemma {:induction false} FirstRenamed(ts: Toks, us: Toks, i: nat, w: string)
    requires i <= |ts| && LiteralFields(ts, i).LYes? && LiteralFields(ts, i).value != [] && i < |us| == |ts|
    requires us[i] == TIdent(w) && Same(ts, us, i + 1, |ts| + 1, 0)
    ensures var fs := LiteralFields(ts, i).value; LiteralFields(us, i) == LYes(fs[0 := fs[0].(key := w)], LiteralFields(ts, i).next)
  {
    hide LiteralAt, AfterItem, LiteralFields, Same;
    FirstEntry(ts, i);
    var fs := LiteralFields(ts, i).value;
    SamePeek(ts, us, i + 1, |ts| + 1, 0, i + 1);
    SameFrom(ts, us, i + 1, i + 2, |ts| + 1, 0);
    LiteralAdvances(ts, i + 2);
    LiteralSame(ts, us, i + 2, |ts| + 1, 0);
    SameFrom(ts, us, i + 1, fs[0].to, |ts| + 1, 0);
    RestMoved(ts, us, fs[0].to, 0);
    FieldsStep(us, i);
    var rest := LiteralFields(us, AfterItem(us, fs[0].to)).value;
    assert rest == fs[1..];
    assert fs[0 := fs[0].(key := w)] == [fs[0].(key := w)] + fs[1..];
  }

  /** The first entry, up to the key behind it, reads as it did. */
  lemma {:induction false} EntryBefore(ts: Toks, us: Toks, i: nat, e: nat)
    requires i <= |ts| && LiteralFields(ts, i).LYes? && LiteralFields(ts, i).value != [] && e < |us| == |ts|
    requires us[e].TIdent? && Same(ts, us, i, e, 0)
    requires var j := LiteralFields(ts, i).value[0].to; j <= |ts| && (AfterItem(ts, j) < e || (AfterItem(ts, j) == e && j == e))
    ensures i + 2 <= |ts| && EntryHead(ts, i) && EntryHead(us, i) && Peek(us, i) == Peek(ts, i) && LiteralAt(us, i + 2) == LiteralAt(ts, i + 2)
    ensures var j := LiteralFields(ts, i).value[0].to; j <= |us| && AfterItem(us, j) == AfterItem(ts, j)
  {
    hide LiteralAt, AfterItem, LiteralFields, Same, WordOf;
    FirstEntry(ts, i);
    LiteralAdvances(ts, i + 2);
    SamePeek(ts, us, i, e, 0, i);
    SamePeek(ts, us, i, e, 0, i + 1);
    var j := LiteralFields(ts, i).value[0].to;
    if AfterItem(ts, j) < e {
      FieldUnchanged(ts, us, i, e);
    } else {
      SameFrom(ts, us, i, i + 2, e, 0);
      LiteralSame(ts, us, i + 2, e, 0);
      AfterItemFirst(us, j);
    }
  }

  /** Another word for the key of entry `m`, which is directly behind the entry before it: nothing else changes. */
  lemma {:induction false} KeyRenamed(ts: Toks, us: Toks, i: nat, m: nat, w: string)
    requires i <= |ts| && LiteralFields(ts, i).LYes? && m < |LiteralFields(ts, i).value|
    requires var e := LiteralFields(ts, i).value[m].from - 2;
             0 <= e < |us| == |ts| && us[e] == TIdent(w) && Same(ts, us, i, e, 0) && Same(ts, us, e + 1, |ts| + 1, 0)
    requires m > 0 ==> LiteralFields(ts, i).value[m].from - 2 == LiteralFields(ts, i).value[m - 1].to
    ensures var fs := LiteralFields(ts, i).value; i <= |us| && LiteralFields(us, i) == LYes(fs[m := fs[m].(key := w)], LiteralFields(ts, i).next)
    decreases m
  {
    hide LiteralAt, AfterItem, LiteralFields, Same, WordOf;
    FirstEntry(ts, i);
    var fs := LiteralFields(ts, i).value;
    if m == 0 {
      FirstRenamed(ts, us, i, w);
    } else {
      var e := fs[m].from - 2;
      var k := AfterItem(ts, fs[0].to);
      var rest := fs[1..];
      assert rest[m - 1] == fs[m];
      FirstEntry(ts, k);
      if m > 1 { FieldsFollow(ts, k, m - 1); LaterEntry(ts, k, m - 1); }
      EntryBefore(ts, us, i, e);
      SameFrom(ts, us, i, k, e, 0);
      KeyRenamed(ts, us, k, m - 1, w);
      FieldsStep(us, i);
      assert [fs[0]] + rest[m - 1 := fs[m].(key := w)] == fs[m := fs[m].(key := w)];
    }
  }

  lemma {:induction false} LaterEntry(ts: Toks, i: nat, m: nat)
    requires i <= |ts| && LiteralFields(ts, i).LYes? && 0 < m < |LiteralFields(ts, i).value|
    ensures i + 2 < LiteralFields(ts, i).value[m].from
  {
    hide LiteralAt, AfterItem, LiteralFields, WordOf;
    FirstEntry(ts, i);
    LiteralAdvances(ts, i + 2);
    FieldsFollow(ts, AfterItem(ts, LiteralFields(ts, i).value[0].to), m - 1);
    assert LiteralFields(ts, i).value[1..][m - 1] == LiteralFields(ts, i).value[m];
  }

  lemma {:induction false} MapOfAlike(fs: seq<LField>, gs: seq<LField>)
    requires |gs| == |fs| && forall k :: 0 <= k < |fs| ==> gs[k].key == fs[k].key && gs[k].value == fs[k].value
    ensures MapOf(gs) == MapOf(fs)
    decreases |fs|
  {
    if fs != [] { MapOfAlike(fs[1..], gs[1..]); }
  }

  lemma {:induction false} OneToken(ts: Toks, us: Toks, vs: Toks, p: nat, q: nat, ms: Toks, w: string)
    requires p <= q < |ts| && vs == ts[..p] + ms + ts[q..] && us == ts[..p] + (ms + [TIdent(w)]) + ts[q + 1..]
    ensures var e := p + |ms|;
            && e < |us| == |vs| && us[e] == TIdent(w) && vs[e] == ts[q]
            && Same(vs, us, 0, e, 0) && Same(vs, us, e + 1, |vs| + 1, 0)
  {
    var e := p + |ms|;
    assert forall k :: 0 <= k < |vs| && k != e ==> us[k] == vs[k];
  }

  /** The same keys and values, but for the value `v` of entry `m`. */
  ghost predicate SetAt(fs: seq<LField>, gs: seq<LField>, m: nat, v: Value) {
    |fs| == |gs| && forall k :: 0 <= k < |fs| ==> gs[k].key == fs[k].key && gs[k].value == if k == m then v else fs[k].value
  }

  lemma {:induction false} ReplacedMeans(fs: seq<LField>, gs: seq<LField>, m: nat, v: Value, d: int)
    requires ReplacedField(fs, gs, m, v, d)
    ensures m < |fs| == |gs| && gs[m].to == fs[m].to + d && SetAt(fs, gs, m, v)
  {
    forall k | 0 <= k < |fs| ensures gs[k].key == fs[k].key && gs[k].value == if k == m then v else fs[k].value {
      if k < m {
        assert gs[k] == gs[..m][k] && fs[k] == fs[..m][k];
      } else if k > m {
        assert gs[k] == gs[m + 1..][k - m - 1] && fs[k] == fs[m + 1..][k - m - 1];
      }
    }
  }

  /** In a document, the word directly behind entry `m` is exchanged. */
  lemma {:induction false} RenamedDoc(ts: Toks, us: Toks, from: nat, m: nat, w: string)
    requires from < |ts| && ts[from] == TLBrace && LiteralFields(ts, SkipNewlines(ts, from + 1)).LYes?
    requires var gs := LiteralFields(ts, SkipNewlines(ts, from + 1)).value;
             && m + 1 < |gs| && gs[m + 1].from == gs[m].to + 2
             && var e := gs[m].to;
                e < |us| == |ts| && us[e] == TIdent(w) && Same(ts, us, 0, e, 0) && Same(ts, us, e + 1, |ts| + 1, 0)
    ensures var r := LiteralFields(ts, SkipNewlines(ts, from + 1));
            && from < |us| && us[from] == TLBrace && SkipNewlines(us, from + 1) <= |us|
            && LiteralFields(us, SkipNewlines(us, from + 1)) == LYes(r.value[m + 1 := r.value[m + 1].(key := w)], r.next)
  {
    hide LiteralFields, SkipNewlines, Same, LiteralAt, AfterItem, WordOf;
    var i := SkipNewlines(ts, from + 1);
    var gs := LiteralFields(ts, i).value;
    FieldsFollow(ts, i, m);
    HeadSame(ts, us, from, gs[m].to);
    KeyRenamed(ts, us, i, m + 1, w);
  }

  /** Another value for entry `m`, with a word directly behind it. */
  lemma {:induction false} ReplacedNext(ts: Toks, from: nat, m: nat, ms: Toks, vs: Toks, v: Value)
    requires from <= |ts| && LiteralAt(ts, from).LYes? && m < |FieldsAt(ts, from)|
    requires var f := FieldsAt(ts, from)[m];
             && f.from <= f.to < |ts| && WordOf(ts[f.to]).Some? && ts[f.to] != TRBrace && vs == ts[..f.from] + ms + ts[f.to..]
             && LiteralAt(vs, f.from) == LYes(v, f.from + |ms|)
    ensures from < |vs| && vs[from] == TLBrace
    ensures var fs := FieldsAt(ts, from); var r := LiteralFields(vs, SkipNewlines(vs, from + 1));
            && r.LYes? && r.next == LiteralAt(ts, from).next + |ms| - (fs[m].to - fs[m].from)
            && var gs := r.value;
               && m + 1 < |fs| == |gs| && gs[m].to == fs[m].from + |ms| && gs[m + 1].from == gs[m].to + 2 && SetAt(fs, gs, m, v)
               && fs[m + 1].key == WordOf(ts[fs[m].to]).value
  {
    hide LiteralFields, SkipNewlines, LiteralAt, FieldsAt, ReplacedField, WordOf;
    var fs := FieldsAt(ts, from);
    var f := fs[m];
    FieldsReplaced(ts, from, m, ms, vs, v);
    var i := SkipNewlines(vs, from + 1);
    var gs := LiteralFields(vs, i).value;
    ReplacedMeans(fs, gs, m, v, |ms| - (f.to - f.from));
    assert vs[f.from + |ms|] == ts[f.to..][0];
    NextEntry(vs, i, m);
  }

  /** The tokens of another value for entry `m` and another word for the key behind it. */
  lemma {:induction false} DocRenamed(ts: Toks, from: nat, m: nat, ms: Toks, vs: Toks, us: Toks, v: Value, w: string)
    requires from <= |ts| && LiteralAt(ts, from).LYes? && m < |FieldsAt(ts, from)|
    requires var f := FieldsAt(ts, from)[m];
             && f.from <= f.to < |ts| && WordOf(ts[f.to]).Some? && ts[f.to] != TRBrace
             && us == ts[..f.from] + (ms + [TIdent(w)]) + ts[f.to + 1..]
             && vs == ts[..f.from] + ms + ts[f.to..] && LiteralAt(vs, f.from) == LYes(v, f.from + |ms|)
    ensures var fs := FieldsAt(ts, from); m + 1 < |fs| && fs[m + 1].key == WordOf(ts[fs[m].to]).value
    ensures var fs := FieldsAt(ts, from); var d := |ms| - (fs[m].to - fs[m].from); var to := LiteralAt(ts, from).next;
            from <= |us| && to + d >= 0 && LiteralAt(us, from) == LYes(Obj(MapOf(Renamed(fs, m, v, w))), to + d)
  {
    hide LiteralFields, SkipNewlines, MapOf, LiteralAt, FieldsAt, Same, WordOf, Renamed, SetAt;
    var fs := FieldsAt(ts, from);
    var f := fs[m];
    ReplacedNext(ts, from, m, ms, vs, v);
    OneToken(ts, us, vs, f.from, f.to, ms, w);
    DocAround(vs, us, from, m, fs, v, w);
  }

  lemma {:induction false} DocAround(vs: Toks, us: Toks, from: nat, m: nat, fs: seq<LField>, v: Value, w: string)
    requires from < |vs| && vs[from] == TLBrace && LiteralFields(vs, SkipNewlines(vs, from + 1)).LYes?
    requires var gs := LiteralFields(vs, SkipNewlines(vs, from + 1)).value;
             && m + 1 < |fs| == |gs| && gs[m + 1].from == gs[m].to + 2 && SetAt(fs, gs, m, v)
             && var e := gs[m].to;
                e < |us| == |vs| && us[e] == TIdent(w) && Same(vs, us, 0, e, 0) && Same(vs, us, e + 1, |vs| + 1, 0)
    ensures LiteralAt(us, from) == LYes(Obj(MapOf(Renamed(fs, m, v, w))), LiteralFields(vs, SkipNewlines(vs, from + 1)).next)
  {
    hide LiteralFields, SkipNewlines, MapOf, LiteralAt, Same, Renamed, SetAt;
    RenamedDoc(vs, us, from, m, w);
    DocReads(us, from);
    RenamedAlike(fs, LiteralFields(vs, SkipNewlines(vs, from + 1)).value, m, v, w);
  }

  lemma {:induction false} RenamedAlike(fs: seq<LField>, gs: seq<LField>, m: nat, v: Value, w: string)
    requires m + 1 < |fs| == |gs| && SetAt(fs, gs, m, v)
    ensures MapOf(gs[m + 1 := gs[m + 1].(key := w)]) == MapOf(Renamed(fs, m, v, w))
  {
    hide MapOf;
    MapOfAlike(Renamed(fs, m, v, w), gs[m + 1 := gs[m + 1].(key := w)]);
  }

  /** Only the constant changed: entry `key` has the number without its exponent, and the next key starts with that. */
  ghost predicate RanOn(src: string, out: string, name: string, key: string, j: JVal) {
    var fs := EntriesOf(src, name);
    var m := FindField(fs, key);
    && j.JNum? && Readable(Base(j)) && m + 1 < |fs|
    && OnlyConst(src, out, name, Obj(MapOf(Renamed(fs, m, ValueOf(Base(j)), ExponentOf(j.text) + fs[m + 1].key))))
  }

  /** From `from` to `n` stand other tokens for those up to `to`, and they read as the literal `v`. */
  ghost predicate Rewritten(ts: Toks, us: Toks, from: nat, to: nat, n: nat, v: Value) {
    && from <= n <= |us| && from <= to <= |ts| && us == ts[..from] + us[from..n] + ts[to..]
    && LiteralAt(us, from) == LYes(v, n)
  }

  lemma {:induction false} RunOnDoc(ts: Toks, from: nat, to: nat, m: nat, j: JVal, us: Toks)
    requires from <= |ts| && LiteralAt(ts, from).LYes? && LiteralAt(ts, from).next == to && m < |FieldsAt(ts, from)|
    requires RunOnSplice(ts, us, FieldsAt(ts, from)[m], j)
    ensures var fs := FieldsAt(ts, from); var n := to + |ToksFor(Base(j))| - (fs[m].to - fs[m].from);
            && m + 1 < |fs| && n >= 0
            && Rewritten(ts, us, from, to, n, Obj(MapOf(Renamed(fs, m, ValueOf(Base(j)), ExponentOf(j.text) + fs[m + 1].key))))
  {
    hide LiteralAt, FieldsAt, Readable, ValueOf, ToksFor, MapOf, WordOf, Base, Renamed;
    var f := FieldsAt(ts, from)[m];
    var ms := ToksFor(Base(j));
    var w := ExponentOf(j.text) + WordOf(ts[f.to]).value;
    BaseStands(ts, f.from, f.to, Base(j));
    DocRenamed(ts, from, m, ms, ts[..f.from] + ms + ts[f.to..], us, ValueOf(Base(j)), w);
    RenamedParts(ts, from, to, m, ms, us, w);
  }

  /** The value the exponent was cut off from, and the next key with the exponent in front. */
  lemma {:induction false} RunOnConst(src: string, name: string, key: string, j: JVal, out: string, us: Toks)
    requires HasEntry(src, name, key) && j.JNum? && Readable(Base(j)) && LexToks(out) == Some(us)
    requires var fs := EntriesOf(src, name); RunOnSplice(ToksOf(ReadSource(src).value.placed), us, fs[FindField(fs, key)], j)
    ensures RanOn(src, out, name, key, j)
  {
    hide ReadSource, LexFrom, LexToks, LiteralAt, FindConst, FieldsAt, FindField, Readable, ValueOf, ToksFor, OnlyConst, MapOf, WordOf, Base, Renamed,
      PlaceOf, HasEntry, EntriesOf, Rewritten, RunOnSplice;
    EntriesAre(src, name, key);
    var p := ReadSource(src).value;
    var ts := ToksOf(p.placed);
    var c := p.items[FindConst(p.items, name)];
    var fs := FieldsAt(ts, c.from);
    var m := FindField(fs, key);
    RunOnDoc(ts, c.from, c.to, m, j, us);
    var n := c.to + |ToksFor(Base(j))| - (fs[m].to - fs[m].from);
    ConstRewritten(src, name, out, us, n, Obj(MapOf(Renamed(fs, m, ValueOf(Base(j)), ExponentOf(j.text) + fs[m + 1].key))));
  }

  lemma {:induction false} EntriesAre(src: string, name: string, key: string)
    requires HasEntry(src, name, key)
    ensures ReadSource(src).Some? && FindConst(ReadSource(src).value.items, name) < |ReadSource(src).value.items|
    ensures var p := ReadSource(src).value; var ts := ToksOf(p.placed); var c := p.items[FindConst(p.items, name)];
            && EntriesOf(src, name) == FieldsAt(ts, c.from) && FindField(EntriesOf(src, name), key) < |EntriesOf(src, name)|
            && c.from < c.to < |ts| && LiteralAt(ts, c.from).LYes? && LiteralAt(ts, c.from).next == c.to
  {
    hide ReadSource, LexFrom, FindConst, FieldsAt, FindField, LiteralAt, PlaceOf;
    ConstPlaced(src, name);
  }

  lemma {:induction false} ConstRewritten(src: string, name: string, out: string, us: Toks, n: nat, v: Value)
    requires ReadSource(src).Some?
    requires var p := ReadSource(src).value; FindConst(p.items, name) < |p.items|
    requires var p := ReadSource(src).value; var ts := ToksOf(p.placed); var c := p.items[FindConst(p.items, name)];
             LexToks(out) == Some(us) && Rewritten(ts, us, c.from, c.to, n, v)
    ensures OnlyConst(src, out, name, v)
  {
    hide ReadSource, LexToks, LiteralAt, FindConst, OnlyConst;
    var c := ReadSource(src).value.items[FindConst(ReadSource(src).value.items, name)];
    ConstReplaced(src, name, out, us[c.from..n], v);
  }

  lemma {:induction false} BaseStands(ts: Toks, p: nat, q: nat, b: JVal)
    requires p <= q <= |ts| && Readable(b)
    ensures LiteralAt(ts[..p] + ToksFor(b) + ts[q..], p) == LYes(ValueOf(b), p + |ToksFor(b)|)
  {
    hide LiteralAt, Readable, ToksFor, ValueOf, At;
    var us := ts[..p] + ToksFor(b) + ts[q..];
    SpliceSame(ts, p, q, ToksFor(b), us, |ToksFor(b)| - (q - p));
    StandsThere(us, p, ToksFor(b));
    LiteralReads(b, us, p);
  }

  lemma {:induction false} RenamedParts(ts: Toks, from: nat, to: nat, m: nat, ms: Toks, us: Toks, w: string)
    requires from <= |ts| && LiteralAt(ts, from).LYes? && LiteralAt(ts, from).next == to && m < |FieldsAt(ts, from)|
    requires var f := FieldsAt(ts, from)[m]; f.from <= f.to < |ts| && us == ts[..f.from] + (ms + [TIdent(w)]) + ts[f.to + 1..]
    ensures var f := FieldsAt(ts, from)[m]; var n := to + |ms| - (f.to - f.from);
            from <= n <= |us| && to <= |ts| && us == ts[..from] + us[from..n] + ts[to..]
  {
    hide LiteralAt, FieldsAt, Follower;
    var f := FieldsAt(ts, from)[m];
    EntryFacts(ts, from, m);
    Widened(ts, f.from, f.to + 1, ms + [TIdent(w)], us, from, to, |ms| - (f.to - f.from));
  }

  // ---------- when an edit reads back ----------

  /** Where the text neither runs together with a key as a word nor as an exponent, it is free of what follows. */
  lemma {:induction false} EntryFree(src: string, name: string, key: string, j: JVal)
    requires HasEntry(src, name, key) && !Glued(j, src[EntrySpan(src, name, key).1..]) && !RunsOn(j, src[EntrySpan(src, name, key).1..])
    ensures Free(j, src[EntrySpan(src, name, key).1..])
  {
    hide ReadSource, LexFrom, HasEntry, EntriesOf, PlaceOf, Trimmed, FindField, Follower, EntrySpan, LexOne;
    EntryStands(src, name, key);
    var fs := EntriesOf(src, name);
    var b := EntrySpan(src, name, key).1;
    TailStart(src, ReadSource(src).value.placed, fs[FindField(fs, key)].to, b);
    if src[b..] != "" && !Space(src[b]) { FollowerStart(src[b..]); }
  }

  /**
   * An exponent directly before the next key. The edit succeeds: the entry then has the number
   * without its exponent, the next entry has another key, and nothing else changes.
   */
  lemma {:induction false} RunOnEdit(src: string, name: string, key: string, j: JVal, read: string -> Verdict)
    requires HasEntry(src, name, key) && !WholeKey(key) && Sound(j) && RunsOn(j, src[EntrySpan(src, name, key).1..])
    ensures var r := SetLiteral(src, name, key, j, read); r.Done? && RanOn(src, r.text, name, key, j)
  {
    hide ReadSource, LexFrom, LexToks, HasEntry, EntriesOf, EntrySpan, FindField, Render, Sound, SetLiteral, RunsOn, Base, Readable, WordOf,
      Spliced, RanOn, RunOnSplice;
    SetReplaces(src, name, key, j, read);
    RunsOnMeans(j, src[EntrySpan(src, name, key).1..]);
    var us := RunOnRelexed(src, name, key, j);
    HasEntryMeans(src, name, key);
    SourceLexes(src, name, key);
    var fs := EntriesOf(src, name);
    SpliceReads(ToksOf(ReadSource(src).value.placed), us, fs[FindField(fs, key)], j);
    var out := Spliced(src, EntrySpan(src, name, key).0, EntrySpan(src, name, key).1, Render(j));
    RunOnConst(src, name, key, j, out, us);
    RanOnParses(src, out, name, key, j);
  }

  lemma {:induction false} SpliceReads(ts: Toks, us: Toks, f: LField, j: JVal)
    requires RunOnSplice(ts, us, f, j)
    ensures j.JNum? && Readable(Base(j))
  {
    hide RunOnToks, Readable, Base, WordOf;
  }

  lemma {:induction false} RanOnParses(src: string, out: string, name: string, key: string, j: JVal)
    requires RanOn(src, out, name, key, j)
    ensures Checked(out) == Done(out)
  {
    hide OnlyConst, MapOf, Readable, ValueOf, EntriesOf, FindField;
    var fs := EntriesOf(src, name);
    var m := FindField(fs, key);
    ParsesSo(src, out, name, Obj(MapOf(Renamed(fs, m, ValueOf(Base(j)), ExponentOf(j.text) + fs[m + 1].key))));
  }

  /**
   * When an entry that is there reads back. If the edit succeeds and no number has an exponent, the
   * document is read back exactly when its strings are plain, provided no later entry has the
   * key; if one has, that is still what is read. With an exponent that does not run into the next
   * key the constant is no longer on the surface.
   */
  lemma {:induction false} EntryReadBack(src: string, name: string, key: string, j: JVal, read: string -> Verdict)
    requires HasEntry(src, name, key) && !WholeKey(key) && Sound(j) && SetLiteral(src, name, key, j, read).Done?
    ensures var out := SetLiteral(src, name, key, j, read).text; var fs := EntriesOf(src, name);
            if Plainly(j) then
              if Governs(fs, FindField(fs, key)) then GetLiteral(out, name, key) == Some(Meaning(j)) <==> PlainStrings(j)
              else GetLiteral(out, name, key) == GetLiteral(src, name, key)
            else RunsOn(j, src[EntrySpan(src, name, key).1..]) || GetLiteral(out, name, key) == Later(src, name, key)
  {
    hide ReadSource, LexFrom, LexToks, HasEntry, EntriesOf, EntrySpan, FindField, Render, Sound, Plainly, PlainStrings, Meaning, SetLiteral, GetLiteral,
      Governs, Later, Glued, RunsOn, Free, Spliced, RawToks;
    var y := src[EntrySpan(src, name, key).1..];
    if Glued(j, y) { GluedRefused(src, name, key, j, read); }
    if RunsOn(j, y) {
      RunsOnExponent(j, y);
    } else {
      EntryFree(src, name, key, j);
      SetReplaces(src, name, key, j, read);
      EntryRawRelexed(src, name, key, j);
      var out := Spliced(src, EntrySpan(src, name, key).0, EntrySpan(src, name, key).1, Render(j));
      DoneMeans(out, SetLiteral(src, name, key, j, read));
      if Plainly(j) { EntryPlainly(src, name, key, j, out); } else { EntryLeaves(src, name, key, j, out); }
    }
  }

  lemma {:induction false} RunsOnExponent(j: JVal, y: string)
    requires RunsOn(j, y)
    ensures !Plainly(j)
  {
  }

  lemma {:induction false} DoneMeans(out: string, r: Edited)
    requires r == Checked(out) && r.Done?
    ensures r.text == out && ReadSource(out).Some?
  {
    hide ReadSource;
  }

  /**
   * When an added entry reads back. If the edit succeeds and no number has an exponent, exactly when
   * the strings of the document and the key itself are plain. With an exponent the constant is
   * no longer on the surface.
   */
  lemma {:induction false} AddReadBack(src: string, name: string, key: string, j: JVal, read: string -> Verdict)
    requires SetLiteral(src, name, key, j, read).Done? && !WholeKey(key) && Sound(j) && Strict(read)
    requires FindField(EntriesOf(src, name), key) == |EntriesOf(src, name)|
    ensures var out := SetLiteral(src, name, key, j, read).text;
            if Plainly(j) then GetLiteral(out, name, key) == Some(Meaning(j)) <==> PlainStrings(j) && Plain(key)
            else GetLiteral(out, name, key) == Later(src, name, key)
  {
    hide ReadSource, LexFrom, LexToks, LiteralAt, FindConst, PlaceOf, FieldsAt, FindField, Insertion, Sound, Plainly, PlainStrings, Plain, Meaning,
      SetLiteral, GetLiteral, Later, TakenForTable, Finds, Spliced, RawInserted, Strict, EntriesOf, LastBefore;
    var p, c, t := AddsToTable(src, name, key, j, read);
    FindsMeans(src, name, p, c);
    AddSplices(src, name, key, j, read, p, c, t);
    AddRawRelexed(src, key, j, read, p.placed, c.from, c.to, t);
    var fs := FieldsAt(ToksOf(p.placed), c.from);
    var close := PlaceOf(src, p.placed, c.to - 1);
    var out := Spliced(src, close, close, Insertion(fs == [], key, j));
    DoneMeans(out, SetLiteral(src, name, key, j, read));
    if Plainly(j) { AddPlainly(src, name, key, j, out, p, c); } else { AddLeaves(src, name, key, j, out, p, c, fs == []); }
  }

  /** The key names an entry that is not there. */
  ghost predicate Adds(src: string, name: string, key: string) {
    !WholeKey(key) && FindField(EntriesOf(src, name), key) == |EntriesOf(src, name)|
  }

  /** An entry that is there governs its key, and the new text does not run into the next one. */
  ghost predicate Alone(src: string, name: string, key: string, j: JVal) {
    HasEntry(src, name, key) && !WholeKey(key) ==>
      Governs(EntriesOf(src, name), FindField(EntriesOf(src, name), key)) && !RunsOn(j, src[EntrySpan(src, name, key).1..])
  }

  /**
   * When a successful edit reads back, for every document a JSON writer writes: exactly when no string
   * in it, and no key it adds, has a control character other than newline and tab, and no
   * number in it has an exponent. With an exponent the constant is no longer on the surface.
   */
  lemma {:induction false} ReadBackExact(src: string, name: string, key: string, j: JVal, read: string -> Verdict)
    requires Sound(j) && SetLiteral(src, name, key, j, read).Done? && Strict(read) && Alone(src, name, key, j)
    requires ReadSource(src).Some? && OnlyOne(ReadSource(src).value.items, name)
    ensures var out := SetLiteral(src, name, key, j, read).text;
            && (GetLiteral(out, name, key) == Some(Meaning(j)) <==> Readable(j) && (Adds(src, name, key) ==> Plain(key)))
            && (Readable(j) <==> Plainly(j) && PlainStrings(j))
            && (!Plainly(j) ==> GetLiteral(out, name, key) == None)
  {
    hide ReadSource, Sound, Plainly, PlainStrings, Readable, Meaning, SetLiteral, GetLiteral, Later, Strict, OnlyOne, FindField, EntriesOf, HasEntry,
      EntrySpan, RunsOn, Governs, Plain;
    ReadableIs(j);
    NoneLater(src, name, key);
    if WholeKey(key) {
      WholeReadBack(src, name, key, j, read);
    } else if Adds(src, name, key) {
      AddReadBack(src, name, key, j, read);
    } else {
      HasEntryIf(src, name, key);
      EntryReadBack(src, name, key, j, read);
    }
  }
}
