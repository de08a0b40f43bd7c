// Adding an entry to a table of the business surface (core/src/vjs.rs).

module VjsEditAdd {
  import opened Wrappers
  import opened VjsSyntax
  import opened VjsParser
  import opened VjsPratt
  import opened VjsProgram
  import opened VjsLocal
  import opened VjsSplice
  import opened VjsLexer
  import opened VjsRelex
  import opened VjsJson
  import opened VjsEdit
  import opened VjsEditProof

  // ---------- what strict JSON says about a text ----------

  /** The lexer skips no comment in `t`. */
  ghost predicate Uncommented(t: string) {
    forall q: nat :: 0 < q <= |t| && Reaches(t, q) ==> Rest(t, q)[0] != '#'
  }

  /**
   * What a strict JSON reader (sections 2 and 4 of RFC 8259) lets through as an object: it starts
   * and ends with its braces, holds no comment, is empty exactly when there is only white space
   * between the braces, and has no trailing comma.
   */
  ghost predicate Strict(read: string -> Verdict) {
    forall t :: read(t).Table? ==>
      && |t| >= 2 && t[0] == '{' && t[|t| - 1] == '}' && Uncommented(t)
      && (read(t).empty <==> forall k :: 0 < k < |t| - 1 ==> White(t[k]))
      && (!read(t).empty ==> var u := TrimEnd(t[..|t| - 1]); u != "" && u[|u| - 1] != ',')
  }

  lemma {:induction false} StrictMeans(read: string -> Verdict, t: string)
    requires Strict(read) && read(t).Table?
    ensures |t| >= 2 && t[0] == '{' && t[|t| - 1] == '}' && Uncommented(t)
    ensures read(t).empty <==> forall k :: 0 < k < |t| - 1 ==> White(t[k])
    ensures !read(t).empty ==> var u := TrimEnd(t[..|t| - 1]); u != "" && u[|u| - 1] != ','
  {
    hide Uncommented, TrimEnd;
  }

  // ---------- the text between tokens ----------

  /** Until `r` characters remain, the lexer skips no comment in `g`. */
  ghost predicate NoHash(g: string, r: nat) {
    forall q: nat :: r < q <= |g| && Reaches(g, q) ==> Rest(g, q)[0] != '#'
  }

  lemma {:induction false} NoHashStep(g: string, r: nat)
    requires r < |g| && NoHash(g, r) && !LexOne(g).Bad?
    ensures g[0] != '#' && NoHash(g[LexOne(g).n..], r)
  {
    hide LexOne, Reaches, Before;
    ReachesNothing(g, |g|);
    assert Rest(g, |g|)[0] == g[0];
    var h := g[LexOne(g).n..];
    forall q: nat | r < q <= |h| && Reaches(h, q) ensures Rest(h, q)[0] != '#' {
      ReachesStep(g, q);
      assert Rest(g, q) == Rest(h, q);
    }
  }

  ghost predicate Newlines(ps: seq<Placed>) { forall k :: 0 <= k < |ps| ==> ps[k].tok == TNewline }

  /** Between two places, with only newlines read and no comment skipped, there is only white space. */
  lemma {:induction false} OnlyWhite(g: string, r: nat)
    requires Reaches(g, r) && Newlines(Before(g, r)) && NoHash(g, r)
    ensures r <= |g| && forall k :: 0 <= k < |g| - r ==> White(g[k])
    decreases |g|
  {
    hide LexOne, Reaches, Before, NoHash;
    ReachesShorter(g, r);
    if r < |g| {
      ReachesStep(g, r);
      NoHashStep(g, r);
      var h := g[LexOne(g).n..];
      if LexOne(g).Token? {
        assert Before(g, r)[0] == Placed(LexOne(g).t, |g|);
        assert Before(h, r) == Before(g, r)[1..];
      } else {
        assert Before(h, r) == Before(g, r);
      }
      WhiteStep(g);
      OnlyWhite(h, r);
      assert forall k :: 1 <= k < |g| ==> g[k] == h[k - 1];
    }
  }

  lemma {:induction false} WhiteStep(g: string)
    requires g != "" && g[0] != '#' && (LexOne(g).Blank? || (LexOne(g).Token? && LexOne(g).t == TNewline))
    ensures LexOne(g).n == 1 && White(g[0])
  {
    hide LexFrom, LexString, LexFString, NumOf, WordTok, Run;
    WordIsNoSymbol(g[..Run(g, WordChar)]);
  }

  /** From token `a` on, up to token `z`, no comment is skipped. */
  ghost predicate NoComment(src: string, ps: seq<Placed>, a: nat, z: nat)
    requires a < |ps| && z < |ps|
  {
    ps[a].rem <= |src| &&
    forall q: nat :: ps[z].rem < q <= ps[a].rem && Reaches(Rest(src, ps[a].rem), q) ==> Rest(src, q)[0] != '#'
  }

  /** A text that is strict JSON holds no comment where it stands in the source either. */
  lemma {:induction false} JsonNoComment(src: string, ps: seq<Placed>, a: nat, z: nat)
    requires LexFrom(src) == Some(ps) && a <= z < |ps|
    requires PlaceOf(src, ps, a) <= PlaceOf(src, ps, z)
    requires Uncommented(TrimEnd(src[PlaceOf(src, ps, a)..PlaceOf(src, ps, z)]))
    ensures NoComment(src, ps, a, z)
  {
    hide LexFrom, LexOne, Reaches, Before, TrimEnd, Uncommented;
    TokenReached(src, a);
    TokenReached(src, z);
    var v := Rest(src, ps[a].rem);
    var s := src[PlaceOf(src, ps, a)..PlaceOf(src, ps, z)];
    assert s == v[..|v| - ps[z].rem];
    forall q: nat | ps[z].rem < q <= |v| && Reaches(v, q) ensures Rest(src, q)[0] != '#' {
      NoCommentAt(v, ps[z].rem, q);
      assert Rest(src, q) == Rest(v, q);
    }
  }

  /** The lexer meets no comment in a text before what is cut off its end, if there is none in what is left. */
  lemma {:induction false} NoCommentAt(v: string, r: nat, q: nat)
    requires r < q <= |v| && Reaches(v, q) && Uncommented(TrimEnd(v[..|v| - r]))
    ensures Rest(v, q)[0] != '#'
  {
    hide LexFrom, LexOne, Reaches, Before, Uncommented;
    var s := v[..|v| - r];
    var t := TrimEnd(s);
    hide TrimEnd;
    if Rest(v, q)[0] == '#' {
      var h := |v| - q;
      assert s[h] == v[h] == '#';
      TrimKeeps(s, h);
      SamePrefix(v, s, t, h);
      HashReached(v, t, h);
      UncommentedAt(t, |t| - h);
    }
  }

  /** A comment that the lexer reaches in `v`, it reaches in any text that is the same up to there. */
  lemma {:induction false} HashReached(v: string, t: string, h: nat)
    requires h < |v| && h < |t| && t == v[..h] + t[h..] && t[h] == v[h] == '#' && Reaches(v, |v| - h)
    ensures Reaches(t, |t| - h) && Rest(t, |t| - h)[0] == '#'
  {
    hide LexFrom, LexOne, Reaches, Before;
    var x, y, y' := v[..h], v[h..], t[h..];
    assert v == x + y;
    Recontext(x, y, y');
  }

  lemma {:induction false} TrimKeeps(s: string, h: nat)
    requires h < |s| && s[h] == '#'
    ensures h < |TrimEnd(s)|
  {
    hide TrimEnd;
  }

  lemma {:induction false} UncommentedAt(t: string, q: nat)
    requires Uncommented(t) && 0 < q <= |t| && Reaches(t, q)
    ensures Rest(t, q)[0] != '#'
  {
    hide Reaches;
  }

  lemma {:induction false} SamePrefix(v: string, s: string, t: string, h: nat)
    requires s <= v && t <= s && h < |t|
    ensures t == v[..h] + t[h..] && t[h] == v[h]
  {
    assert t[..h] == s[..h] == v[..h];
  }

  predicate Mark(t: Tok) { t == TLBrace || t == TRBrace || t == TComma || t == TColon }

  /** After a token of one character the lexer goes on with the next one. */
  lemma {:induction false} AfterMark(src: string, ps: seq<Placed>, k: nat)
    requires LexFrom(src) == Some(ps) && k < |ps| && Mark(ps[k].tok)
    ensures var r := ps[k].rem;
            && 0 < r <= |src| && LexOne(Rest(src, r)).Token? && LexOne(Rest(src, r)).n == 1
            && LexFrom(Rest(src, r)[1..]) == Some(ps[k + 1..])
  {
    hide LexFrom, LexOne, Reaches, Before;
    TokenReached(src, k);
    var x := Rest(src, ps[k].rem);
    OneChar(x);
    LexFromStep(x);
    assert LexFrom(x[1..]).value == ([Placed(LexOne(x).t, |x|)] + LexFrom(x[1..]).value)[1..];
    assert ps[k..][1..] == ps[k + 1..];
  }

  /** Between token `k` of one character and token `l`, with only newlines between, there is only white space. */
  lemma {:induction false} WhiteBetween(src: string, ps: seq<Placed>, a: nat, z: nat, k: nat, l: nat)
    requires LexFrom(src) == Some(ps) && a <= k < l <= z < |ps| && NoComment(src, ps, a, z) && Mark(ps[k].tok)
    requires forall i :: k < i < l ==> ps[i].tok == TNewline
    ensures PlaceOf(src, ps, k) < PlaceOf(src, ps, l)
    ensures forall i :: PlaceOf(src, ps, k) < i < PlaceOf(src, ps, l) ==> White(src[i])
  {
    hide LexFrom, LexOne, Reaches, Before, NoComment;
    AfterMark(src, ps, k);
    var g := Rest(src, ps[k].rem)[1..];
    var r := ps[l].rem;
    assert ps[k + 1..][l - k - 1] == ps[l];
    TokenReached(g, l - k - 1);
    assert Newlines(Before(g, r)) by { assert Before(g, r) == ps[k + 1..][..l - k - 1]; }
    NoCommentWithin(src, ps, a, z, k, g);
    assert r >= ps[z].rem by { PlacesOrdered(src, ps, l, z); TokenReached(src, l); TokenReached(src, z); }
    assert NoHash(g, r) by {
      forall q: nat | r < q <= |g| && Reaches(g, q) ensures Rest(g, q)[0] != '#' { assert Rest(g, q) == Rest(src, q); }
    }
    OnlyWhite(g, r);
    forall i | PlaceOf(src, ps, k) < i < PlaceOf(src, ps, l) ensures White(src[i]) {
      assert src[i] == g[i - PlaceOf(src, ps, k) - 1];
    }
  }

  lemma {:induction false} OneChar(x: string)
    requires x != "" && LexOne(x).Token?
    requires LexOne(x).t == TLBrace || LexOne(x).t == TRBrace || LexOne(x).t == TComma || LexOne(x).t == TColon
    ensures LexOne(x).n == 1
    ensures x[0] == match LexOne(x).t case TLBrace => '{' case TRBrace => '}' case TComma => ',' case _ => ':'
  {
    hide LexFrom, LexString, LexFString, NumOf, WordTok, Run;
    WordIsNoMark(x[..Run(x, WordChar)]);
  }

  lemma {:induction false} WordIsNoMark(w: string)
    ensures var t := WordTok(w); t != TRBrace && t != TComma && t != TColon && t != TLBrace
  {
  }

  /** After token `k` the lexer meets no comment before token `z`. */
  lemma {:induction false} NoCommentWithin(src: string, ps: seq<Placed>, a: nat, z: nat, k: nat, g: string)
    requires LexFrom(src) == Some(ps) && a <= k < z < |ps| && NoComment(src, ps, a, z)
    requires ps[k].rem > 0 && ps[k].rem <= |src| && LexOne(Rest(src, ps[k].rem)).Token? && LexOne(Rest(src, ps[k].rem)).n == 1
    requires g == Rest(src, ps[k].rem)[1..]
    ensures forall q: nat :: ps[z].rem < q <= |g| && Reaches(g, q) ==> Rest(src, q)[0] != '#'
  {
    hide LexFrom, LexOne, Reaches, Before;
    TokenReached(src, a);
    var v := Rest(src, ps[a].rem);
    assert ps[a..][k - a] == ps[k];
    TokenReached(v, k - a);
    var x := Rest(v, ps[k].rem);
    assert x == Rest(src, ps[k].rem);
    forall q: nat | ps[z].rem < q <= |g| && Reaches(g, q) ensures Rest(src, q)[0] != '#' {
      ReachesStep(x, q);
      ReachesOn(v, ps[k].rem, q);
    }
  }

  // ---------- the text of a table ----------

  /** Trimming stops at the last character that is not white. */
  lemma {:induction false} TrimEndIs(t: string, n: nat)
    requires n < |t| && !White(t[n]) && forall k :: n < k < |t| ==> White(t[k])
    ensures TrimEnd(t) == t[..n + 1]
  {
    hide TrimEnd;
    var u := TrimEnd(t);
    assert |u| > n;
    assert u[|u| - 1] == t[|u| - 1];
    assert u == t[..|u|];
  }

  lemma {:induction false} MarkChar(src: string, ps: seq<Placed>, k: nat)
    requires LexFrom(src) == Some(ps) && k < |ps| && Mark(ps[k].tok)
    ensures var i := PlaceOf(src, ps, k);
            i < |src| && !White(src[i]) && src[i] == match ps[k].tok case TLBrace => '{' case TRBrace => '}' case TComma => ',' case _ => ':'
  {
    hide LexFrom, LexOne, Reaches, Before;
    TokenReached(src, k);
    OneChar(Rest(src, ps[k].rem));
  }

  /** Tokens `a` to `z` of the source are a document, its braces the first and the last of them. */
  ghost predicate TableAt(src: string, ps: seq<Placed>, a: nat, z: nat) {
    LexFrom(src) == Some(ps) && a + 1 < z < |ps| && ps[a].tok == TLBrace && ps[z - 1].tok == TRBrace
  }

  /** Without its trailing blanks the text ends with its closing brace. */
  lemma {:induction false} TextCloses(src: string, ps: seq<Placed>, a: nat, z: nat)
    requires TableAt(src, ps, a, z) && NoComment(src, ps, a, z)
    ensures var A, P, Z := PlaceOf(src, ps, a), PlaceOf(src, ps, z - 1), PlaceOf(src, ps, z);
            A < P < Z && TrimEnd(src[A..Z]) == src[A..P + 1]
  {
    hide LexFrom, NoComment, TrimEnd, PlaceOf;
    var A, P, Z := PlaceOf(src, ps, a), PlaceOf(src, ps, z - 1), PlaceOf(src, ps, z);
    WhiteBetween(src, ps, a, z, z - 1, z);
    PlacesOrdered(src, ps, a, z - 1);
    MarkChar(src, ps, a);
    MarkChar(src, ps, z - 1);
    TrimEndIs(src[A..Z], P - A);
    assert src[A..Z][..P - A + 1] == src[A..P + 1];
  }

  /** With only newlines between its braces there is only white space between them. */
  lemma {:induction false} EmptyText(src: string, ps: seq<Placed>, a: nat, z: nat)
    requires TableAt(src, ps, a, z) && NoComment(src, ps, a, z)
    requires forall i :: a < i < z - 1 ==> ps[i].tok == TNewline
    ensures PlaceOf(src, ps, a) <= PlaceOf(src, ps, z - 1) < |src|
    ensures var t := src[PlaceOf(src, ps, a)..PlaceOf(src, ps, z - 1) + 1];
            forall k :: 0 < k < |t| - 1 ==> White(t[k])
  {
    hide LexFrom, NoComment, PlaceOf;
    WhiteBetween(src, ps, a, z, a, z - 1);
    MarkChar(src, ps, z - 1);
    var A, P := PlaceOf(src, ps, a), PlaceOf(src, ps, z - 1);
    var t := src[A..P + 1];
    assert forall k :: 0 < k < |t| - 1 ==> t[k] == src[A + k];
  }

  /** With a colon between its braces there is more than white space. */
  lemma {:induction false} FilledText(src: string, ps: seq<Placed>, a: nat, z: nat, q: nat) returns (k: nat)
    requires TableAt(src, ps, a, z) && a < q < z - 1 && ps[q].tok == TColon
    ensures PlaceOf(src, ps, a) <= PlaceOf(src, ps, z - 1) < |src|
    ensures var t := src[PlaceOf(src, ps, a)..PlaceOf(src, ps, z - 1) + 1]; 0 < k < |t| - 1 && !White(t[k])
  {
    hide LexFrom, PlaceOf;
    PlacesOrdered(src, ps, a, q);
    PlacesOrdered(src, ps, q, z - 1);
    MarkChar(src, ps, a);
    MarkChar(src, ps, q);
    MarkChar(src, ps, z - 1);
    var A, P := PlaceOf(src, ps, a), PlaceOf(src, ps, z - 1);
    k := PlaceOf(src, ps, q) - A;
    assert src[A..P + 1][k] == ':';
  }

  /** After a trailing comma there is only white space before the closing brace. */
  lemma {:induction false} TrailingText(src: string, ps: seq<Placed>, a: nat, z: nat, q: nat)
    requires TableAt(src, ps, a, z) && NoComment(src, ps, a, z) && a < q < z - 1 && ps[q].tok == TComma
    requires forall i :: q < i < z - 1 ==> ps[i].tok == TNewline
    ensures PlaceOf(src, ps, a) <= PlaceOf(src, ps, z - 1) < |src|
    ensures var u := TrimEnd(src[PlaceOf(src, ps, a)..PlaceOf(src, ps, z - 1)]); u != "" && u[|u| - 1] == ','
  {
    hide LexFrom, NoComment, TrimEnd, PlaceOf;
    PlacesOrdered(src, ps, a, q);
    WhiteBetween(src, ps, a, z, q, z - 1);
    MarkChar(src, ps, q);
    MarkChar(src, ps, z - 1);
    var A, Q, P := PlaceOf(src, ps, a), PlaceOf(src, ps, q), PlaceOf(src, ps, z - 1);
    var s := src[A..P];
    assert s[Q - A] == ',' && forall k :: Q - A < k < |s| ==> s[k] == src[A + k];
    TrimEndIs(s, Q - A);
  }

  lemma {:induction false} LastBeforeWhere(ts: Toks, a: nat, k: nat) returns (i: nat)
    requires a < k <= |ts| && ts[a] != TNewline
    ensures a <= i < k && ts[i] == LastBefore(ts, k) && forall p :: i < p < k ==> ts[p] == TNewline
    decreases k
  {
    if ts[k - 1] == TNewline { i := LastBeforeWhere(ts, a, k - 1); } else { i := k - 1; }
  }

  /** The constant between tokens `a` and `z` has the text `t`, and the strict reader takes it for a table. */
  ghost predicate TakenForTable(src: string, ps: seq<Placed>, a: nat, z: nat, t: string, read: string -> Verdict) {
    && LexFrom(src) == Some(ps) && a < z < |ps| && PlaceOf(src, ps, a) <= PlaceOf(src, ps, z)
    && LiteralAt(ToksOf(ps), a).LYes? && LiteralAt(ToksOf(ps), a).next == z
    && t == TrimEnd(src[PlaceOf(src, ps, a)..PlaceOf(src, ps, z)]) && Strict(read) && read(t).Table?
  }

  /** Its literal is then a document, with the text between its braces. */
  lemma {:induction false} TableIs(src: string, ps: seq<Placed>, a: nat, z: nat, t: string, read: string -> Verdict)
    requires TakenForTable(src, ps, a, z, t, read)
    ensures TableAt(src, ps, a, z) && NoComment(src, ps, a, z)
    ensures var A, P := PlaceOf(src, ps, a), PlaceOf(src, ps, z - 1); A < P < |src| && t == src[A..P + 1]
    ensures var ts := ToksOf(ps); var k := SkipNewlines(ts, a + 1); k <= |ts| && LiteralFields(ts, k) == LYes(FieldsAt(ts, a), z)
  {
    hide LexFrom, TrimEnd, PlaceOf, LiteralAt, FieldsAt, LiteralFields, SkipNewlines, NoComment, Strict, Uncommented, MapOf;
    StrictMeans(read, t);
    var ts := ToksOf(ps);
    var A, Z := PlaceOf(src, ps, a), PlaceOf(src, ps, z);
    assert src[A] == '{' by { assert t[0] == src[A..Z][0]; }
    BraceToken(src, ps, a);
    NotJustBrace(ts, a);
    DocFacts(ts, a);
    FieldsEnd(ts, SkipNewlines(ts, a + 1));
    JsonNoComment(src, ps, a, z);
    TextCloses(src, ps, a, z);
  }

  lemma {:induction false} LastBraceIs(t: string)
    requires t != "" && t[|t| - 1] == '}'
    ensures LastBrace(t) == |t| - 1
  {
  }

  /** The reader finds the table empty exactly when the parser finds no entry in it. */
  lemma {:induction false} TableEmpty(src: string, ps: seq<Placed>, a: nat, z: nat, t: string, read: string -> Verdict)
    requires TakenForTable(src, ps, a, z, t, read)
    ensures z >= 2 && (read(t).empty <==> FieldsAt(ToksOf(ps), a) == [])
    ensures FieldsAt(ToksOf(ps), a) == [] ==> ps[z - 2].tok == TLBrace || ps[z - 2].tok == TNewline
  {
    hide LexFrom, TrimEnd, PlaceOf, LiteralAt, FieldsAt, LiteralFields, SkipNewlines, NoComment, Strict, Uncommented;
    TableIs(src, ps, a, z, t, read);
    StrictMeans(read, t);
    var ts := ToksOf(ps);
    var fs := FieldsAt(ts, a);
    var k := SkipNewlines(ts, a + 1);
    if fs == [] {
      NoFields(ts, k);
      SkipsNewlinesOnly(ts, a + 1);
      EmptyText(src, ps, a, z);
    } else {
      FieldsFollow(ts, k, 0);
      var i := FilledText(src, ps, a, z, fs[0].from - 1);
    }
  }

  /** No comma trails in a table that is not empty. */
  lemma {:induction false} TableTrails(src: string, ps: seq<Placed>, a: nat, z: nat, t: string, read: string -> Verdict)
    requires TakenForTable(src, ps, a, z, t, read) && !read(t).empty
    ensures z >= 1 && LastBefore(ToksOf(ps), z - 1) != TComma
  {
    hide LexFrom, TrimEnd, PlaceOf, LiteralAt, FieldsAt, LiteralFields, SkipNewlines, NoComment, Strict, Uncommented, LastBefore;
    TableIs(src, ps, a, z, t, read);
    StrictMeans(read, t);
    var ts := ToksOf(ps);
    if LastBefore(ts, z - 1) == TComma {
      var q := LastBeforeWhere(ts, a, z - 1);
      assert t[..|t| - 1] == src[PlaceOf(src, ps, a)..PlaceOf(src, ps, z - 1)];
      TrailingText(src, ps, a, z, q);
    }
  }

  // ---------- the new entry ----------

  ghost function InsertedToks(empty: bool, key: string, j: JVal): (ts: Toks)
    requires Readable(j)
  {
    (if empty then [] else [TComma]) + [TStr(key), TColon] + ToksFor(j)
  }

  lemma {:induction false} InsertionLexes(empty: bool, key: string, j: JVal, x: string)
    requires Readable(j) && Plain(key) && Punct(x)
    ensures LexToks(Insertion(empty, key, j) + x) == Prepend(InsertedToks(empty, key, j), LexToks(x))
  {
    hide LexToks, Render, ToksFor, Readable, Quote;
    RenderLexes(j, x);
    var z := Render(j) + x;
    SkipsBlanks(" ", z);
    PunctLexes(':', TColon, " " + z);
    var y := [':'] + (" " + z);
    StringLexes(key, y);
    PrependTwice([TColon], ToksFor(j), LexToks(x));
    PrependTwice([TStr(key)], [TColon] + ToksFor(j), LexToks(x));
    var es := [TStr(key)] + ([TColon] + ToksFor(j));
    var e := Quote(key) + y;
    if empty {
      assert Insertion(empty, key, j) + x == e;
      assert InsertedToks(empty, key, j) == es;
    } else {
      SkipsBlanks(" ", e);
      PunctLexes(',', TComma, " " + e);
      PrependTwice([TComma], es, LexToks(x));
      assert Insertion(empty, key, j) + x == [','] + (" " + e);
      assert InsertedToks(empty, key, j) == [TComma] + es;
    }
  }

  /** The tokens of the source with an entry put before the closing brace at token `p`. */
  lemma {:induction false} EntryInserted(src: string, ps: seq<Placed>, p: nat, empty: bool, key: string, j: JVal)
    requires LexFrom(src) == Some(ps) && 0 < p < |ps| && ps[p].tok == TRBrace && Readable(j) && Plain(key)
    requires empty ==> ps[p - 1].tok == TLBrace || ps[p - 1].tok == TNewline
    ensures var close := PlaceOf(src, ps, p); var ts := ToksOf(ps);
            LexToks(Spliced(src, close, close, Insertion(empty, key, j))) == Some(ts[..p] + InsertedToks(empty, key, j) + ts[p..])
  {
    hide LexFrom, LexToks, PlaceOf, Readable, Insertion, InsertedToks;
    var close := PlaceOf(src, ps, p);
    var x := src[close..];
    MarkChar(src, ps, p);
    InsertionStarts(empty, key, j);
    InsertionLexes(empty, key, j, x);
    Relexed'(src, ps, p, Insertion(empty, key, j), InsertedToks(empty, key, j));
  }

  lemma {:induction false} InsertionStarts(empty: bool, key: string, j: JVal)
    ensures Insertion(empty, key, j) != "" && Insertion(empty, key, j)[0] == if empty then '"' else ','
  {
    hide Render, EscapeAll;
  }

  /** Text that lexes as `ms`, put before token `p`. */
  lemma {:induction false} Relexed'(src: string, ps: seq<Placed>, p: nat, mid: string, ms: Toks)
    requires LexFrom(src) == Some(ps) && 0 < p < |ps| && ps[p].tok != TNewline
    requires HeadApart(ps[p - 1].tok, mid)
    requires LexToks(mid + src[PlaceOf(src, ps, p)..]) == Prepend(ms, LexToks(src[PlaceOf(src, ps, p)..]))
    ensures var close := PlaceOf(src, ps, p);
            LexToks(Spliced(src, close, close, mid)) == Some(ToksOf(ps)[..p] + ms + ToksOf(ps)[p..])
  {
    hide LexFrom, LexToks, PlaceOf;
    var close := PlaceOf(src, ps, p);
    var y := mid + src[close..];
    TailLex(src, ps, p, close);
    HeadLex(src, ps, p, y);
    assert Spliced(src, close, close, mid) == src[..close] + y;
    assert ToksOf(ps)[..p] + (ms + ToksOf(ps)[p..]) == ToksOf(ps)[..p] + ms + ToksOf(ps)[p..];
  }

  lemma {:induction false} SkipsTo(ts: Toks, us: Toks, i: nat, p: nat)
    requires i <= |ts| && SkipNewlines(ts, i) <= p < |ts| && p < |us| && Same(ts, us, 0, p, 0) && us[p] != TNewline
    ensures SkipNewlines(us, i) == SkipNewlines(ts, i)
  {
    hide SkipNewlines;
    var k := SkipNewlines(ts, i);
    SkipsNewlinesOnly(ts, i);
    forall l | i <= l < k ensures us[l] == TNewline { assert Peek(us, l + 0) == Peek(ts, l); }
    if k < p { assert Peek(us, k + 0) == Peek(ts, k); }
    SkipTo(us, i, k);
  }

  lemma {:induction false} InsertedReads(fs: seq<LField>, key: string, j: JVal, us: Toks, p: nat)
    requires Readable(j) && At(us, p, InsertedToks(fs == [], key, j))
    requires Peek(us, p + |InsertedToks(fs == [], key, j)|) == TRBrace
    ensures LastEntry(us, KeyAt(fs, p), key, ValueOf(j), p + |InsertedToks(fs == [], key, j)|)
    ensures p < |us| && us[p] != TNewline && (fs != [] ==> us[p] == TComma)
  {
    hide LiteralAt, At, Readable, ToksFor, ValueOf;
    var es := [TStr(key), TColon] + ToksFor(j);
    var h := if fs == [] then [] else [TComma];
    assert InsertedToks(fs == [], key, j) == h + es;
    AtSplit(us, p, h, es);
    if fs != [] { AtOne(us, p, TComma); }
    var i := p + |h|;
    AtSplit(us, i, [TStr(key), TColon], ToksFor(j));
    assert [TStr(key), TColon] == [TStr(key)] + [TColon];
    AtSplit(us, i, [TStr(key)], [TColon]);
    AtOne(us, i, TStr(key));
    AtOne(us, i + 1, TColon);
    LiteralReads(j, us, i + 2);
  }

  /** An entry's tokens put before the closing brace: they are read after the entries there are. */
  lemma {:induction false} FieldsAdded(ts: Toks, from: nat, key: string, j: JVal, us: Toks)
    requires from < |ts| && ts[from] == TLBrace && LiteralAt(ts, from).LYes? && Readable(j)
    requires var fs := FieldsAt(ts, from); var p := LiteralAt(ts, from).next - 1;
             && p < |ts| && us == ts[..p] + InsertedToks(fs == [], key, j) + ts[p..]
             && (fs != [] ==> LastBefore(ts, p) != TComma)
    ensures var fs := FieldsAt(ts, from); var p := LiteralAt(ts, from).next - 1; var q := p + |InsertedToks(fs == [], key, j)|;
            && from < p && from < |us| && us[from] == TLBrace && SkipNewlines(us, from + 1) <= |us|
            && LiteralFields(us, SkipNewlines(us, from + 1)) == LYes(fs + [LField(key, ValueOf(j), KeyAt(fs, p) + 2, q)], q + 1)
  {
    hide LiteralFields, SkipNewlines, MapOf, LiteralAt, FieldsAt, Same, Readable, ToksFor, ValueOf, LastBefore, InsertedToks, LastEntry;
    var fs := FieldsAt(ts, from);
    var p := LiteralAt(ts, from).next - 1;
    var ms := InsertedToks(fs == [], key, j);
    DocFacts(ts, from);
    var k := SkipNewlines(ts, from + 1);
    SpliceSame(ts, p, p, ms, us, |ms|);
    FieldsEnd(ts, k);
    SamePeek(ts, us, p, |ts| + 1, |ms|, p);
    InsertedReads(fs, key, j, us, p);
    SameFrom(ts, us, 0, k, p, 0);
    SkipsTo(ts, us, from + 1, p);
    SamePeek(ts, us, 0, p, 0, from);
    SpliceNewField(ts, us, k, key, ValueOf(j), p + |ms|);
  }

  /** The document with that entry added. */
  lemma {:induction false} EntryAdded(ts: Toks, from: nat, key: string, j: JVal, us: Toks)
    requires from < |ts| && ts[from] == TLBrace && LiteralAt(ts, from).LYes? && Readable(j)
    requires var fs := FieldsAt(ts, from); var p := LiteralAt(ts, from).next - 1;
             && p < |ts| && us == ts[..p] + InsertedToks(fs == [], key, j) + ts[p..]
             && (fs != [] ==> LastBefore(ts, p) != TComma)
    ensures var fs := FieldsAt(ts, from); var to := LiteralAt(ts, from).next; var d := |InsertedToks(fs == [], key, j)|;
            && to + d <= |us| && us == ts[..from] + us[from..to + d] + ts[to..]
            && LiteralAt(us, from) == LYes(Obj(MapOf(fs)[key := ValueOf(j)]), to + d)
  {
    hide LiteralFields, SkipNewlines, MapOf, LiteralAt, FieldsAt, Same, Readable, ToksFor, ValueOf, LastBefore, InsertedToks;
    var fs := FieldsAt(ts, from);
    var to := LiteralAt(ts, from).next;
    var ms := InsertedToks(fs == [], key, j);
    FieldsAdded(ts, from, key, j, us);
    Widened(ts, to - 1, to - 1, ms, us, from, to, |ms|);
    DocReads(us, from);
    MapOfExtended(fs, LField(key, ValueOf(j), KeyAt(fs, to - 1) + 2, to - 1 + |ms|));
  }

  lemma {:induction false} BraceToken(src: string, ps: seq<Placed>, k: nat)
    requires LexFrom(src) == Some(ps) && k < |ps| && PlaceOf(src, ps, k) < |src| && src[PlaceOf(src, ps, k)] == '{'
    ensures ps[k].tok == TLBrace
  {
    hide LexFrom, Reaches, Before, LexString, LexFString, NumOf, WordTok, Run;
    TokenReached(src, k);
    assert Rest(src, ps[k].rem)[0] == '{';
  }

  lemma {:induction false} NotJustBrace(ts: Toks, i: nat)
    requires i < |ts| && ts[i] == TLBrace && LiteralAt(ts, i).LYes?
    ensures LiteralAt(ts, i).next > i + 1
  {
    hide LiteralFields, LiteralItems, SkipNewlines, MapOf;
  }

  /** The constant `name` of the source, found as `c` among the lines of `p`. */
  ghost predicate Finds(src: string, name: string, p: Source, c: Item) {
    && ReadSource(src) == Some(p) && FindConst(p.items, name) < |p.items| && c == p.items[FindConst(p.items, name)]
    && c.from < c.to < |p.placed| && PlaceOf(src, p.placed, c.from) <= PlaceOf(src, p.placed, c.to)
  }

  /** Adding is splicing the new entry before the closing brace. */
  lemma {:induction false} AddSplices(src: string, name: string, key: string, j: JVal, read: string -> Verdict, p: Source, c: Item, t: string)
    requires Finds(src, name, p, c) && !WholeKey(key) && TakenForTable(src, p.placed, c.from, c.to, t, read)
    requires var fs := FieldsAt(ToksOf(p.placed), c.from); FindField(fs, key) == |fs|
    ensures var close := PlaceOf(src, p.placed, c.to - 1);
            SetLiteral(src, name, key, j, read) ==
            Checked(Spliced(src, close, close, Insertion(FieldsAt(ToksOf(p.placed), c.from) == [], key, j)))
  {
    hide ReadSource, LexFrom, LiteralAt, FindConst, PlaceOf, FieldsAt, FindField, TrimEnd, Strict, LiteralFields, NoComment, AddEntry, SetLiteral,
      Insertion, Checked, White, SkipNewlines, TakenForTable, Spliced, TableAt;
    TakenMeans(src, p.placed, c.from, c.to, t, read);
    SetAdds(src, name, key, j, read, p, c);
    AddInserts(src, PlaceOf(src, p.placed, c.from), PlaceOf(src, p.placed, c.to), key, j, read, t);
  }

  lemma {:induction false} TakenMeans(src: string, ps: seq<Placed>, a: nat, z: nat, t: string, read: string -> Verdict)
    requires TakenForTable(src, ps, a, z, t, read)
    ensures LexFrom(src) == Some(ps) && a < z < |ps| && PlaceOf(src, ps, a) <= PlaceOf(src, ps, z)
    ensures t == TrimEnd(src[PlaceOf(src, ps, a)..PlaceOf(src, ps, z)]) && read(t).Table?
    ensures ps[z - 1].tok == TRBrace && t != "" && t[|t| - 1] == '}' && PlaceOf(src, ps, a) + |t| - 1 == PlaceOf(src, ps, z - 1)
    ensures read(t).empty <==> FieldsAt(ToksOf(ps), a) == []
  {
    hide LexFrom, LiteralAt, PlaceOf, TrimEnd, NoComment, LiteralFields, FieldsAt, SkipNewlines, Strict, Uncommented, White;
    TableIs(src, ps, a, z, t, read);
    StrictMeans(read, t);
    TableEmpty(src, ps, a, z, t, read);
  }

  lemma {:induction false} SetAdds(src: string, name: string, key: string, j: JVal, read: string -> Verdict, p: Source, c: Item)
    requires Finds(src, name, p, c) && !WholeKey(key)
    requires var fs := FieldsAt(ToksOf(p.placed), c.from); FindField(fs, key) == |fs|
    ensures SetLiteral(src, name, key, j, read) ==
            AddEntry(src, PlaceOf(src, p.placed, c.from), PlaceOf(src, p.placed, c.to), key, j, read)
  {
    hide ReadSource, LexFrom, FindConst, PlaceOf, FieldsAt, FindField, AddEntry, ParseItems';
  }

  lemma {:induction false} AddInserts(src: string, start: nat, end: nat, key: string, j: JVal, read: string -> Verdict, t: string)
    requires start <= end <= |src| && t == TrimEnd(src[start..end]) && read(t).Table? && t != "" && t[|t| - 1] == '}'
    ensures start + |t| - 1 <= |src|
    ensures var close := start + |t| - 1;
            AddEntry(src, start, end, key, j, read) == Checked(Spliced(src, close, close, Insertion(read(t).empty, key, j)))
  {
    hide TrimEnd, LastBrace, Insertion, Checked;
    LastBraceIs(t);
  }

  /**
   * Adding a key to a table the strict reader lets through succeeds: the table then holds the new
   * entry beside the ones it had, it is read back, and nothing else in the program or the text changes.
   */
  lemma {:induction false} AddEdit(src: string, name: string, key: string, j: JVal, read: string -> Verdict, p: Source, c: Item, t: string)
    requires Finds(src, name, p, c) && !WholeKey(key) && TakenForTable(src, p.placed, c.from, c.to, t, read)
    requires Readable(j) && Plain(key)
    requires var fs := FieldsAt(ToksOf(p.placed), c.from); FindField(fs, key) == |fs|
    ensures var r := SetLiteral(src, name, key, j, read);
            var fs := FieldsAt(ToksOf(p.placed), c.from);
            var w := Obj(MapOf(fs)[key := ValueOf(j)]);
            var close := PlaceOf(src, p.placed, c.to - 1);
            && r.Done? && OnlyConst(src, r.text, name, w) && GetLiteral(r.text, name, key) == Some(ValueOf(j))
            && OnlyBetween(src, r.text, close, close, Insertion(fs == [], key, j))
  {
    hide ReadSource, LexFrom, LexToks, LiteralAt, FindConst, PlaceOf, FieldsAt, FindField, Insertion, Readable, ValueOf,
      MapOf, InsertedToks, TakenForTable, SetLiteral;
    var ts := ToksOf(p.placed);
    var fs := FieldsAt(ts, c.from);
    AddSplices(src, name, key, j, read, p, c, t);
    var close := PlaceOf(src, p.placed, c.to - 1);
    var out := Spliced(src, close, close, Insertion(fs == [], key, j));
    var ms := InsertedToks(fs == [], key, j);
    var us := ts[..c.to - 1] + ms + ts[c.to - 1..];
    AddRelexed(src, key, j, read, p.placed, c.from, c.to, t);
    var w := Obj(MapOf(fs)[key := ValueOf(j)]);
    ConstReplaced(src, name, out, us[c.from..c.to + |ms|], w);
    OnlyConstReads(src, out, name, w, key);
  }

  /** The tokens of the source with the new entry, and the document they read as. */
  lemma {:induction false} AddRelexed(src: string, key: string, j: JVal, read: string -> Verdict, ps: seq<Placed>, a: nat, z: nat, t: string)
    requires TakenForTable(src, ps, a, z, t, read) && Readable(j) && Plain(key)
    ensures var ts := ToksOf(ps); var fs := FieldsAt(ts, a); var close := PlaceOf(src, ps, z - 1);
            var ms := InsertedToks(fs == [], key, j);
            var us := ts[..z - 1] + ms + ts[z - 1..];
            && LexToks(Spliced(src, close, close, Insertion(fs == [], key, j))) == Some(us)
            && z + |ms| <= |us| && us == ts[..a] + us[a..z + |ms|] + ts[z..]
            && LiteralAt(us, a) == LYes(Obj(MapOf(fs)[key := ValueOf(j)]), z + |ms|)
  {
    hide LexFrom, LexToks, LiteralAt, PlaceOf, FieldsAt, Insertion, Readable, ValueOf,
      MapOf, InsertedToks, TrimEnd, Strict, LastBefore, LiteralFields, NoComment;
    var ts := ToksOf(ps);
    var fs := FieldsAt(ts, a);
    TableIs(src, ps, a, z, t, read);
    TableEmpty(src, ps, a, z, t, read);
    if fs != [] { TableTrails(src, ps, a, z, t, read); }
    EntryInserted(src, ps, z - 1, fs == [], key, j);
    EntryAdded(ts, a, key, j, ts[..z - 1] + InsertedToks(fs == [], key, j) + ts[z - 1..]);
  }
}
