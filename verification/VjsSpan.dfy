// What an edit of a literal replaces (core/src/vjs.rs): the text from the literal's first
// character up to the next token, without the blanks before it. That is the literal's own text,
// unless a comment stands between: then the comment goes with it.

module VjsSpan {
  import opened Wrappers
  import opened VjsSyntax
  import opened VjsParser
  import opened VjsProgram
  import opened VjsLocal
  import opened VjsSplice
  import opened VjsLexer
  import opened VjsRelex
  import opened VjsJson
  import opened VjsEdit
  import opened VjsEditProof
  import opened VjsEditAdd

  /** Where token `k` ends in the text. */
  ghost function TokenEnd(src: string, ps: seq<Placed>, k: nat): (i: nat)
    requires LexFrom(src) == Some(ps) && k < |ps| && ps[k].rem > 0
    ensures PlaceOf(src, ps, k) < i <= |src|
  {
    TokenReached(src, k);
    PlaceOf(src, ps, k) + LexOne(Rest(src, ps[k].rem)).n
  }

  /** Between token `k` and the next one the lexer skips a comment. */
  ghost predicate CommentAfter(src: string, ps: seq<Placed>, k: nat)
    requires LexFrom(src) == Some(ps) && k + 1 < |ps| && ps[k].rem > 0
  {
    !NoHash(src[TokenEnd(src, ps, k)..], ps[k + 1].rem)
  }

  // ---------- tokens end with a character of their own ----------

  lemma {:induction false} StringEnds(s: string)
    requires LexString(s).Some?
    ensures s[LexString(s).value.1 - 1] == '"'
  {
    if s[0] != '"' {
      var k := if s[0] == '\\' && |s| > 1 then 2 else 1;
      StringEnds(s[k..]);
    }
  }

  /** The tokens a literal can end with. */
  predicate LiteralEnd(t: Tok) {
    t.TStr? || t.TNum? || t.TTrue? || t.TFalse? || t.TNull? || t.TRBrack? || t.TRBrace?
  }

  lemma {:induction false} LastCharSolid(x: string)
    requires x != "" && LexOne(x).Token? && !LexOne(x).t.TFStr?
    ensures !Space(x[LexOne(x).n - 1])
  {
    hide LexFrom, LexString, LexFString, NumOf, WordTok, Run;
    if x[0] == '"' { StringEnds(x[1..]); }
  }

  // ---------- between two tokens ----------

  /** Where nothing is read and no comment skipped, there are only blanks. */
  lemma {:induction false} OnlyBlanks(g: string, r: nat)
    requires Reaches(g, r) && Before(g, r) == [] && NoHash(g, r)
    ensures r <= |g| && forall k :: 0 <= k < |g| - r ==> Space(g[k])
    decreases |g|
  {
    hide LexOne, Reaches, Before, NoHash;
    ReachesShorter(g, r);
    if r < |g| {
      ReachesStep(g, r);
      NoHashStep(g, r);
      BlankStep(g);
      var h := g[1..];
      OnlyBlanks(h, r);
      assert forall k :: 1 <= k < |g| ==> g[k] == h[k - 1];
    }
  }

  lemma {:induction false} BlankStep(g: string)
    requires g != "" && g[0] != '#' && LexOne(g).Blank?
    ensures LexOne(g).n == 1 && Space(g[0])
  {
    hide LexFrom, LexString, LexFString, NumOf, WordTok, Run;
  }

  /** After token `k` the lexer comes to the next one and reads nothing on the way. */
  lemma {:induction false} AfterToken(src: string, ps: seq<Placed>, k: nat)
    requires LexFrom(src) == Some(ps) && k + 1 < |ps| && ps[k].rem > 0
    ensures var g := src[TokenEnd(src, ps, k)..]; var r := ps[k + 1].rem;
            r <= |g| && Reaches(g, r) && Before(g, r) == [] && PlaceOf(src, ps, k + 1) == |src| - r
  {
    hide LexFrom, LexOne, Reaches, Before;
    TokenReached(src, k);
    var x := Rest(src, ps[k].rem);
    LexFromStep(x);
    var g := src[TokenEnd(src, ps, k)..];
    assert g == x[LexOne(x).n..];
    assert LexFrom(g).value == ([Placed(LexOne(x).t, |x|)] + LexFrom(g).value)[1..];
    assert ps[k..][1..] == ps[k + 1..];
    assert ps[k + 1..][0] == ps[k + 1];
    TokenReached(g, 0);
    assert ps[k + 1..][..0] == [];
  }

  /**
   * The span that is replaced ends at the last character of the token before it exactly when no
   * comment is skipped after that token.
   */
  lemma {:induction false} SpanExact(src: string, ps: seq<Placed>, k: nat, start: nat)
    requires LexFrom(src) == Some(ps) && k + 1 < |ps| && ps[k].rem > 0 && start <= PlaceOf(src, ps, k) && LiteralEnd(ps[k].tok)
    ensures Trimmed(src, start, PlaceOf(src, ps, k + 1)) == TokenEnd(src, ps, k) <==> !CommentAfter(src, ps, k)
  {
    hide LexFrom, LexOne, Reaches, Before, Trimmed, NoHash, TokenEnd, PlaceOf;
    AfterToken(src, ps, k);
    var e, z, r := TokenEnd(src, ps, k), PlaceOf(src, ps, k + 1), ps[k + 1].rem;
    var g := src[e..];
    var b := Trimmed(src, start, z);
    SolidEnd(src, ps, k);
    if NoHash(g, r) {
      OnlyBlanks(g, r);
      assert forall i :: e <= i < z ==> src[i] == g[i - e];
    } else {
      var i := HashAt(g, r);
      assert src[e + i] == '#' && e + i < z;
    }
  }

  lemma {:induction false} HashAt(g: string, r: nat) returns (i: nat)
    requires r <= |g| && !NoHash(g, r)
    ensures i < |g| - r && g[i] == '#'
  {
    var q: nat :| r < q <= |g| && Reaches(g, q) && Rest(g, q)[0] == '#';
    i := |g| - q;
  }

  lemma {:induction false} SolidEnd(src: string, ps: seq<Placed>, k: nat)
    requires LexFrom(src) == Some(ps) && k < |ps| && ps[k].rem > 0 && LiteralEnd(ps[k].tok)
    ensures !Space(src[TokenEnd(src, ps, k) - 1])
  {
    hide LexFrom, LexOne, Reaches, Before;
    TokenReached(src, k);
    LastCharSolid(Rest(src, ps[k].rem));
  }

  // ---------- constants and entries ----------

  lemma {:induction false} LiteralEndsSo(ts: Toks, i: nat)
    requires i <= |ts| && LiteralAt(ts, i).LYes?
    ensures i < LiteralAt(ts, i).next <= |ts| && LiteralEnd(ts[LiteralAt(ts, i).next - 1])
  {
    hide LiteralItems, LiteralFields, SkipNewlines, MapOf;
    match ts[i]
    case TLBrack => ItemsEnd(ts, SkipNewlines(ts, i + 1));
    case TLBrace => FieldsEnd(ts, SkipNewlines(ts, i + 1));
    case _ =>
  }

  lemma {:induction false} BeforeLast(src: string, ps: seq<Placed>, k: nat)
    requires LexFrom(src) == Some(ps) && k + 1 < |ps|
    ensures ps[k].rem > 0
  {
    hide LexFrom, LexOne, Reaches, Before;
    TokenReached(src, k);
  }

  /** For the literal between tokens `from` and `to`: its span ends with it exactly when no comment follows it. */
  ghost predicate ExactSpan(src: string, ps: seq<Placed>, from: nat, to: nat) {
    && LexFrom(src) == Some(ps) && 0 < to < |ps| && ps[to - 1].rem > 0
    && (Trimmed(src, PlaceOf(src, ps, from), PlaceOf(src, ps, to)) == TokenEnd(src, ps, to - 1) <==> !CommentAfter(src, ps, to - 1))
  }

  lemma {:induction false} LiteralSpan(src: string, ps: seq<Placed>, from: nat, to: nat)
    requires LexFrom(src) == Some(ps) && from < to < |ps| && LiteralAt(ToksOf(ps), from).LYes? && LiteralAt(ToksOf(ps), from).next == to
    ensures ExactSpan(src, ps, from, to)
  {
    hide LexFrom, LiteralAt, PlaceOf, Trimmed, TokenEnd, NoHash;
    BeforeLast(src, ps, to - 1);
    LiteralEndsSo(ToksOf(ps), from);
    PlacesOrdered(src, ps, from, to - 1);
    SpanExact(src, ps, to - 1, PlaceOf(src, ps, from));
  }

  /** Rewriting a whole constant replaces exactly the literal's own text, if and only if no comment follows it. */
  lemma {:induction false} ConstSpanExact(src: string, name: string)
    requires ReadSource(src).Some?
    requires var p := ReadSource(src).value; FindConst(p.items, name) < |p.items|
    ensures var p := ReadSource(src).value; var c := p.items[FindConst(p.items, name)];
            ExactSpan(src, p.placed, c.from, c.to)
  {
    hide ReadSource, LexFrom, LiteralAt, FindConst, PlaceOf, ExactSpan;
    ConstPlaced(src, name);
    var p := ReadSource(src).value;
    var c := p.items[FindConst(p.items, name)];
    LiteralSpan(src, p.placed, c.from, c.to);
  }

  /** The same for one entry of a document. */
  lemma {:induction false} EntrySpanExact(src: string, name: string, key: string)
    requires HasEntry(src, name, key)
    ensures var fs := EntriesOf(src, name); var f := fs[FindField(fs, key)];
            ExactSpan(src, ReadSource(src).value.placed, f.from, f.to)
  {
    hide ReadSource, LexFrom, LiteralAt, FindConst, PlaceOf, FieldsAt, FindField, Follower, ExactSpan;
    ConstPlaced(src, name);
    var p := ReadSource(src).value;
    var ts := ToksOf(p.placed);
    var c := p.items[FindConst(p.items, name)];
    var fs := FieldsAt(ts, c.from);
    EntryFacts(ts, c.from, FindField(fs, key));
    LiteralSpan(src, p.placed, fs[FindField(fs, key)].from, fs[FindField(fs, key)].to);
  }

  // ---------- it happens ----------

  const NOTED := "A = 1 # note"

  lemma {:induction false} LexesBlank(x: string)
    requires x != "" && x[0] == ' '
    ensures LexFrom(x) == LexFrom(x[1..])
  {
    hide LexFrom;
    LexFromStep(x);
    if LexFrom(x[1..]).Some? { assert [] + LexFrom(x[1..]).value == LexFrom(x[1..]).value; }
  }

  lemma {:induction false} LexesToken(x: string, t: Tok, n: nat, y: string, zs: seq<Placed>)
    requires x != "" && LexOne(x) == Token(t, n) && x[n..] == y && LexFrom(y) == Some(zs)
    ensures LexFrom(x) == Some([Placed(t, |x|)] + zs)
  {
    hide LexFrom, LexOne;
    LexFromStep(x);
  }

  lemma {:induction false} NoteLexes()
    ensures LexFrom(" # note") == Some([Placed(TNewline, 0)])
  {
    var x := "# note";
    assert LexFrom("") == Some([Placed(TNewline, 0)]);
    hide LexFrom, Run;
    RunIs(x, InLine, 6);
    LexRun(x);
    LexFromStep(x);
    assert x[6..] == "" && [] + [Placed(TNewline, 0)] == [Placed(TNewline, 0)];
    assert " # note"[1..] == x;
    LexesBlank(" # note");
  }

  lemma {:induction false} OneReads()
    ensures NumOf("1") == Some(1.0) && NumOf("2") == Some(2.0)
  {
    RunIs("1", Digit, 1);
    RunIs("2", Digit, 1);
    hide Run;
    assert "1"[..0] == "" && "2"[..0] == "";
    assert Whole("1") == 1 && Whole("2") == 2;
  }

  lemma {:induction false} ValueLexes()
    ensures LexFrom(" 1 # note") == Some([Placed(TNum(1.0), 8), Placed(TNewline, 0)])
  {
    hide LexFrom, Run, NumOf, LexOne;
    NoteLexes();
    OneReads();
    var x := "1 # note";
    RunIs(x, NumChar, 1);
    LexRun(x);
    assert x[..1] == "1";
    LexesToken(x, TNum(1.0), 1, " # note", [Placed(TNewline, 0)]);
    assert [Placed(TNum(1.0), 8)] + [Placed(TNewline, 0)] == [Placed(TNum(1.0), 8), Placed(TNewline, 0)];
    assert " 1 # note"[1..] == x;
    LexesBlank(" 1 # note");
  }

  lemma {:induction false} EqualsLexes()
    ensures LexFrom(" = 1 # note") == Some([Placed(TEq, 10), Placed(TNum(1.0), 8), Placed(TNewline, 0)])
  {
    hide LexFrom, Run, NumOf, LexString, LexFString, WordTok;
    ValueLexes();
    var y := "= 1 # note";
    assert LexOne(y) == Token(TEq, 1);
    var zs := [Placed(TNum(1.0), 8), Placed(TNewline, 0)];
    LexesToken(y, TEq, 1, " 1 # note", zs);
    assert [Placed(TEq, 10)] + zs == [Placed(TEq, 10), Placed(TNum(1.0), 8), Placed(TNewline, 0)];
    assert " = 1 # note"[1..] == y;
    LexesBlank(" = 1 # note");
  }

  lemma {:induction false} NotedLexes()
    ensures LexFrom(NOTED) == Some([Placed(TIdent("A"), 12), Placed(TEq, 10), Placed(TNum(1.0), 8), Placed(TNewline, 0)])
  {
    hide LexFrom, Run, LexOne;
    EqualsLexes();
    RunIs(NOTED, WordChar, 1);
    LexRun(NOTED);
    assert NOTED[..1] == "A" && WordTok("A") == TIdent("A");
    var zs := [Placed(TEq, 10), Placed(TNum(1.0), 8), Placed(TNewline, 0)];
    LexesToken(NOTED, TIdent("A"), 1, " = 1 # note", zs);
    assert [Placed(TIdent("A"), 12)] + zs == [Placed(TIdent("A"), 12), Placed(TEq, 10), Placed(TNum(1.0), 8), Placed(TNewline, 0)];
  }

  lemma {:induction false} NotedParses()
    ensures var ts := [TIdent("A"), TEq, TNum(1.0), TNewline]; ParseItems'(ts, 0) == Some([Const("A", Num(1.0), 2, 3)])
  {
    hide ParseStmt;
    var ts := [TIdent("A"), TEq, TNum(1.0), TNewline];
    assert "A"[0] == 'A' && SurfaceName("A");
    assert LiteralAt(ts, 2) == LYes(Num(1.0), 3);
    hide LiteralAt;
    SkipTo(ts, 0, 0);
    SkipTo(ts, 3, 4);
    ItemsStep(ts, 0);
    ItemsStep(ts, 3);
    assert ParseItem(ts, 0) == Yes(Const("A", Num(1.0), 2, 3), 3);
    assert [Const("A", Num(1.0), 2, 3)] + [] == [Const("A", Num(1.0), 2, 3)];
  }

  /** Setting `A` in `A = 1 # note` to 2 leaves `A = 2`: the comment is gone. */
  lemma {:induction false} CommentIsReplaced(read: string -> Verdict)
    ensures SetLiteral(NOTED, "A", "-", JNum(false, "2"), read) == Done("A = 2")
  {
    hide LexFrom, ReadSource, SetLiteral, PlaceOf, Trimmed, GetLiteral, OnlyConst, OnlyBetween, Readable, Render, ValueOf;
    NotedReads();
    NotedLexes();
    TwoReadable();
    var ps := [Placed(TIdent("A"), 12), Placed(TEq, 10), Placed(TNum(1.0), 8), Placed(TNewline, 0)];
    var c := Const("A", Num(1.0), 2, 3);
    assert FindConst([c], "A") == 0;
    hide FindConst;
    NotedSpan(ps);
    WholeEdit(NOTED, "A", "-", JNum(false, "2"), read);
    NotedText(SetLiteral(NOTED, "A", "-", JNum(false, "2"), read).text);
  }

  lemma {:induction false} NotedText(out: string)
    requires OnlyBetween(NOTED, out, 4, 12, "2")
    ensures out == "A = 2"
  {
    assert NOTED[..4] + "2" + NOTED[12..] == "A = 2";
  }

  lemma {:induction false} TwoReadable()
    ensures Readable(JNum(false, "2")) && Render(JNum(false, "2")) == "2"
  {
    hide NumOf, Run;
    OneReads();
    RunIs("2", NumChar, 1);
    assert "" + "2" == "2";
  }

  lemma {:induction false} NotedReads()
    ensures ReadSource(NOTED) ==
            Some(Source([Placed(TIdent("A"), 12), Placed(TEq, 10), Placed(TNum(1.0), 8), Placed(TNewline, 0)], [Const("A", Num(1.0), 2, 3)]))
  {
    hide LexFrom, ParseItems';
    NotedLexes();
    NotedParses();
    assert ToksOf([Placed(TIdent("A"), 12), Placed(TEq, 10), Placed(TNum(1.0), 8), Placed(TNewline, 0)]) == [TIdent("A"), TEq, TNum(1.0), TNewline];
  }

  lemma {:induction false} NotedSpan(ps: seq<Placed>)
    requires LexFrom(NOTED) == Some(ps) && ps == [Placed(TIdent("A"), 12), Placed(TEq, 10), Placed(TNum(1.0), 8), Placed(TNewline, 0)]
    ensures PlaceOf(NOTED, ps, 2) == 4 && PlaceOf(NOTED, ps, 3) == 12 && Trimmed(NOTED, 4, 12) == 12
  {
    hide LexFrom;
    assert NOTED[11] == 'e';
  }
}
