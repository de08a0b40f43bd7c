// How every token is spelled (core/src/vjs.rs): each keyword and symbol by its own characters, names,
// numbers, strings and f-strings by theirs. A text of spelled tokens with blanks between them lexes to
// exactly those tokens, and so a written program is read back from its text.

module VjsWords {
  import opened Wrappers
  import opened VjsSyntax
  import opened VjsParser
  import opened VjsProgram
  import opened VjsLexer
  import opened VjsRelex
  import opened VjsJson
  import opened VjsEdit
  import opened VjsProgramPrint

  // ---------- keywords and symbols ----------

  /** The characters of a token that has no content of its own. */
  function Spelling(t: Tok): (w: string) {
    match t
    case TTrue => "true" case TFalse => "false" case TNull => "null"
    case TIf => "if" case TElif => "elif" case TElse => "else" case TEnd => "end" case TFor => "for" case TIn => "in"
    case TAnd => "and" case TOr => "or" case TNot => "not" case TEmit => "emit" case TInvoke => "invoke"
    case TSource => "source" case TTool => "tool" case TDriver => "driver" case TApi => "api" case TRespond => "respond"
    case TNewline => "\n" case TColon => ":" case TComma => "," case TDot => "." case TQDot => "?." case TQQ => "??"
    case TLBrace => "{" case TRBrace => "}" case TLBrack => "[" case TRBrack => "]" case TLParen => "(" case TRParen => ")"
    case TEq => "=" case TEqEq => "==" case TNe => "!=" case TLt => "<" case TLe => "<=" case TGt => ">" case TGe => ">="
    case TPlus => "+" case TMinus => "-" case TStar => "*" case TSlash => "/"
    case _ => ""
  }

  predicate IsKeyword(t: Tok) {
    || t.TTrue? || t.TFalse? || t.TNull? || t.TIf? || t.TElif? || t.TElse? || t.TEnd? || t.TFor? || t.TIn? || t.TAnd? || t.TOr? || t.TNot?
    || t.TEmit? || t.TInvoke? || t.TSource? || t.TTool? || t.TDriver? || t.TApi? || t.TRespond?
  }

  predicate IsSymbol(t: Tok) {
    || t.TColon? || t.TComma? || t.TDot? || t.TQDot? || t.TQQ? || t.TLBrace? || t.TRBrace? || t.TLBrack? || t.TRBrack? || t.TLParen? || t.TRParen?
    || t.TEq? || t.TEqEq? || t.TNe? || t.TLt? || t.TLe? || t.TGt? || t.TGe? || t.TPlus? || t.TMinus? || t.TStar? || t.TSlash?
  }

  lemma {:induction false} KeywordIs(t: Tok)
    requires IsKeyword(t)
    ensures var w := Spelling(t); |w| > 1 && (forall k :: 0 <= k < |w| ==> 'a' <= w[k] <= 'z') && WordTok(w) == t
  {
  }

  lemma {:induction false} KeywordLexes(t: Tok, x: string)
    requires IsKeyword(t) && (x == "" || !WordChar(x[0]))
    ensures LexToks(Spelling(t) + x) == Prepend([t], LexToks(x))
  {
    KeywordIs(t);
    hide LexToks, WordTok, Spelling, IsKeyword;
    WordLexes(Spelling(t), x);
  }

  lemma {:induction false} OneCharIs(t: Tok, s: string)
    requires IsSymbol(t) && |Spelling(t)| == 1 && s != "" && s[0] == Spelling(t)[0] && (|s| > 1 ==> s[1] != '=')
    ensures LexOne(s) == Token(t, 1)
  {
    hide LexFrom, LexString, LexFString, NumOf, WordTok, Run, Symbol, Pair;
    OneCharSymbol(t, s);
  }

  lemma {:induction false} OneCharSymbol(t: Tok, s: string)
    requires IsSymbol(t) && |Spelling(t)| == 1 && s != "" && s[0] == Spelling(t)[0] && (|s| > 1 ==> s[1] != '=')
    ensures Symbol(s[0]) == Some(t) && (|s| > 1 ==> Pair(s[0], s[1]).None?)
    ensures !Space(s[0]) && s[0] != '\n' && s[0] != '#' && s[0] != '"' && !Digit(s[0]) && !Letter(s[0])
  {
  }

  lemma {:induction false} TwoCharsIs(t: Tok, s: string)
    requires IsSymbol(t) && |Spelling(t)| == 2 && |s| > 1 && s[0] == Spelling(t)[0] && s[1] == Spelling(t)[1]
    ensures LexOne(s) == Token(t, 2)
  {
    hide LexFrom, LexString, LexFString, NumOf, WordTok, Run, Symbol;
  }

  /** No character `=` behind it makes another symbol of it. */
  lemma {:induction false} SymbolIs(t: Tok, x: string)
    requires IsSymbol(t) && (x == "" || x[0] != '=')
    ensures Spelling(t) != "" && LexOne(Spelling(t) + x) == Token(t, |Spelling(t)|)
  {
    hide LexOne;
    SymbolSize(t);
    hide Spelling, IsSymbol;
    var s := Spelling(t) + x;
    assert s[0] == Spelling(t)[0];
    if |Spelling(t)| == 1 {
      assert |s| > 1 ==> s[1] == x[0];
      OneCharIs(t, s);
    } else {
      assert s[1] == Spelling(t)[1];
      TwoCharsIs(t, s);
    }
  }

  lemma {:induction false} SymbolSize(t: Tok)
    requires IsSymbol(t)
    ensures 1 <= |Spelling(t)| <= 2
  {
  }

  lemma {:induction false} SymbolLexes(t: Tok, x: string)
    requires IsSymbol(t) && (x == "" || x[0] != '=')
    ensures LexToks(Spelling(t) + x) == Prepend([t], LexToks(x))
  {
    SymbolIs(t, x);
    hide LexToks, LexOne, Spelling, IsSymbol;
    LexToksStep(Spelling(t) + x);
    assert (Spelling(t) + x)[|Spelling(t)|..] == x;
  }

  lemma {:induction false} NewlineLexes(x: string)
    ensures LexToks("\n" + x) == Prepend([TNewline], LexToks(x))
  {
    assert LexOne("\n" + x) == Token(TNewline, 1) by { hide LexFrom, LexString, LexFString, NumOf, WordTok, Run; }
    hide LexToks, LexOne;
    LexToksStep("\n" + x);
    assert ("\n" + x)[1..] == x;
  }

  /** Blanks, tabs and carriage returns are no tokens. */
  lemma {:induction false} BlankLexes(c: char, x: string)
    requires c in {' ', '\t', '\r'}
    ensures LexToks([c] + x) == LexToks(x)
  {
    assert LexOne([c] + x) == Blank(1) by { hide LexFrom, LexString, LexFString, NumOf, WordTok, Run; }
    hide LexToks, LexOne;
    LexToksStep([c] + x);
    assert ([c] + x)[1..] == x;
    EmptyPrefix(LexToks(x));
  }

  /** A comment goes to the end of its line, and is no token. */
  lemma {:induction false} CommentLexes(c: string, x: string)
    requires '\n' !in c && (x == "" || x[0] == '\n')
    ensures LexToks("#" + c + x) == LexToks(x)
  {
    var s := "#" + c + x;
    forall k | 0 <= k < 1 + |c| ensures InLine(s[k]) { if k > 0 { assert s[k] == c[k - 1]; } }
    hide LexToks, LexOne, Run;
    assert |c| + 1 < |s| ==> s[|c| + 1] == x[0];
    RunIs(s, InLine, 1 + |c|);
    LexRun(s);
    LexToksStep(s);
    assert s[1 + |c|..] == x;
    EmptyPrefix(LexToks(x));
  }

  // ---------- names and numbers ----------

  /** A name: it starts with a letter, goes on with letters and digits, and is no keyword. */
  ghost predicate IsName(s: string) {
    s != "" && Letter(s[0]) && (forall k :: 0 <= k < |s| ==> WordChar(s[k])) && !exists t :: IsKeyword(t) && s == Spelling(t)
  }

  lemma {:induction false} NameIs(s: string)
    requires IsName(s)
    ensures WordTok(s) == TIdent(s)
  {
    WordIs(s);
    hide WordTok, Spelling, IsKeyword;
  }

  lemma {:induction false} WordIs(s: string)
    ensures WordTok(s) == TIdent(s) || (IsKeyword(WordTok(s)) && s == Spelling(WordTok(s)))
  {
    KeywordsSpelled();
    VerbsSpelled();
    hide Spelling;
  }

  lemma {:induction false} KeywordsSpelled()
    ensures Spelling(TIf) == "if" && Spelling(TElif) == "elif" && Spelling(TElse) == "else" && Spelling(TEnd) == "end"
    ensures Spelling(TFor) == "for" && Spelling(TIn) == "in" && Spelling(TAnd) == "and" && Spelling(TOr) == "or" && Spelling(TNot) == "not"
    ensures Spelling(TTrue) == "true" && Spelling(TFalse) == "false" && Spelling(TNull) == "null"
  {
  }

  lemma {:induction false} VerbsSpelled()
    ensures Spelling(TEmit) == "emit" && Spelling(TInvoke) == "invoke" && Spelling(TSource) == "source" && Spelling(TTool) == "tool"
    ensures Spelling(TDriver) == "driver" && Spelling(TApi) == "api" && Spelling(TRespond) == "respond"
  {
  }

  lemma {:induction false} NameLexes(s: string, x: string)
    requires IsName(s) && (x == "" || (!WordChar(x[0]) && x[0] != '"'))
    ensures LexToks(s + x) == Prepend([TIdent(s)], LexToks(x))
  {
    NameIs(s);
    hide LexFrom, LexToks, LexOne, WordTok, Run, IsName;
    var z := s + x;
    NameChars(s);
    assert z[0] == s[0] && (|s| > 1 ==> z[1] == s[1]) && (|s| == 1 && x != "" ==> z[1] == x[0]);
    RunIs(z, WordChar, |s|);
    assert z[..|s|] == s && z[|s|..] == x;
    LexRun(z);
    LexToksStep(z);
  }

  lemma {:induction false} NameChars(s: string)
    requires IsName(s)
    ensures s != "" && Letter(s[0]) && forall k :: 0 <= k < |s| ==> WordChar(s[k])
  {
  }

  /** What digits stand for, place by place. */
  ghost function Digits(t: string): (n: nat)
    requires AllDigits(t)
  {
    if t == "" then 0 else (t[0] as int - '0' as int) * Ten(|t| - 1) + Digits(t[1..])
  }

  ghost function Ten(k: nat): (p: nat)
    ensures p > 0
  {
    if k == 0 then 1 else 10 * Ten(k - 1)
  }

  ghost predicate AllDigits(t: string) { forall k :: 0 <= k < |t| ==> '0' <= t[k] <= '9' }

  lemma {:induction false} WholeStep(t: string)
    requires AllDigits(t) && t != ""
    ensures Digits(t) == 10 * Digits(t[..|t| - 1]) + (t[|t| - 1] as int - '0' as int)
    decreases |t|
  {
    if |t| > 1 {
      var u := t[1..];
      WholeStep(u);
      assert u[..|u| - 1] == t[..|t| - 1][1..] && t[..|t| - 1][0] == t[0];
      var d, a := t[0] as int - '0' as int, Ten(|t| - 2);
      assert Ten(|t| - 1) == 10 * a;
      assert d * (10 * a) == 10 * (d * a);
    } else {
      assert t[1..] == "" && t[..0] == "";
    }
  }

  lemma {:induction false} WholeIs(t: string)
    requires AllDigits(t)
    ensures Whole(t) == Digits(t)
    decreases |t|
  {
    if t != "" {
      WholeStep(t);
      WholeIs(t[..|t| - 1]);
    }
  }

  lemma {:induction false} TenIs(k: nat)
    ensures PowerOfTen(k) == Ten(k)
  {
    if k > 0 { TenIs(k - 1); }
  }

  /** Digits are a number, and so are digits, a point, and digits: those behind the point count for less. */
  lemma {:induction false} NumberIs(a: string, b: string)
    requires AllDigits(a) && AllDigits(b)
    ensures NumOf(a) == Some(Digits(a) as real)
    ensures NumOf(a + "." + b) == Some(Digits(a) as real + Digits(b) as real / Ten(|b|) as real)
  {
    var t := a + "." + b;
    assert forall k :: 0 <= k < |a| ==> t[k] == a[k];
    assert t[|a|] == '.' && t[|a| + 1..] == b && t[..|a|] == a;
    RunIs(a, Digit, |a|);
    RunIs(t, Digit, |a|);
    RunIs(b, Digit, |b|);
    WholeIs(a);
    WholeIs(b);
    TenIs(|b|);
    hide Run, Whole, PowerOfTen, Digits, Ten;
  }

  // ---------- f-strings ----------

  /** A part of an f-string as it is written: text, or the text of a hole. */
  datatype FText = Plainly(s: string) | Braced(h: string)

  function SpellChar(c: char): (w: string) {
    if c == '{' then "{{" else if c == '}' then "}}" else if c == '"' then "\\\"" else if c == '\\' then "\\\\" else [c]
  }

  function SpellText(s: string): (w: string) { if s == "" then "" else SpellChar(s[0]) + SpellText(s[1..]) }

  function SpellPart(p: FText): (w: string) { if p.Plainly? then SpellText(p.s) else "{" + p.h + "}" }

  function SpellParts(ps: seq<FText>): (w: string) { if ps == [] then "" else SpellPart(ps[0]) + SpellParts(ps[1..]) }

  /** How many braces are open behind a text. */
  ghost function Open(h: string): (n: int) {
    if h == "" then 0 else (if h[0] == '{' then 1 else if h[0] == '}' then -1 else 0) + Open(h[1..])
  }

  ghost predicate Balanced(h: string) { Open(h) == 0 && forall k :: 0 <= k < |h| ==> Open(h[..k]) >= 0 }

  /** The text of a hole: it does not start with a brace, its braces balance, and it lexes. */
  ghost predicate IsHole(h: string) { (h == "" || h[0] != '{') && Balanced(h) && LexFrom(h).Some? }

  lemma {:induction false} OpenHead(h: string, k: nat)
    requires 0 < k <= |h|
    ensures Open(h[..k]) == Open(h[..1]) + Open(h[1..][..k - 1])
  {
    assert h[..k][1..] == h[1..][..k - 1] && h[..1][1..] == "";
  }

  /** Where the braces never close what is open before the text, and close it at its end, the hole ends there. */
  lemma {:induction false} HoleIs(h: string, depth: nat)
    requires depth > 0 && depth - 1 + Open(h) == 0 && forall k :: 0 <= k <= |h| ==> depth + Open(h[..k]) > 0
    ensures HoleLength(h + "}", depth) == Some(|h| + 1)
    decreases |h|
  {
    var s := h + "}";
    if h != "" {
      assert s[0] == h[0] && s[1..] == h[1..] + "}";
      OpenHead(h, |h|);
      assert h[..|h|] == h && h[1..][..|h| - 1] == h[1..] && h[..1] == [h[0]] && [h[0]][1..] == "";
      var d := depth + Open(h[..1]);
      forall k | 0 <= k <= |h[1..]| ensures d + Open(h[1..][..k]) > 0 {
        OpenHead(h, k + 1);
        assert depth + Open(h[..k + 1]) > 0;
      }
      HoleIs(h[1..], d);
    }
  }

  lemma {:induction false} HoleEnds(h: string)
    requires Balanced(h)
    ensures HoleLength(h + "}", 1) == Some(|h| + 1)
  {
    forall k | 0 <= k <= |h| ensures 1 + Open(h[..k]) > 0 { if k == |h| { assert h[..k] == h; } }
    HoleIs(h, 1);
  }

  ghost predicate IsPart(p: FText) { if p.Plainly? then p.s != "" else IsHole(p.h) }

  /** Texts are not empty, and there are no two in a row. */
  ghost predicate IsParts(ps: seq<FText>) {
    (forall k :: 0 <= k < |ps| ==> IsPart(ps[k])) && forall k :: 0 <= k < |ps| - 1 ==> ps[k].Plainly? ==> ps[k + 1].Braced?
  }

  ghost function PartsOf(ps: seq<FText>): (ts: seq<TPart>)
    requires forall k :: 0 <= k < |ps| ==> IsPart(ps[k])
  {
    if ps == [] then []
    else
      assert IsPart(ps[0]);
      [if ps[0].Plainly? then TLit(ps[0].s) else THole(ToksOf(LexFrom(ps[0].h).value))] + PartsOf(ps[1..])
  }

  lemma {:induction false} CharReads(c: char, z: string, lit: string)
    ensures LexFString(SpellChar(c) + z, lit) == Further(LexFString(z, lit + [c]), [], |SpellChar(c)|)
  {
    var s := SpellChar(c) + z;
    hide LexFrom, HoleLength, LexFString;
    FStringStep(s, lit);
    if |SpellChar(c)| == 2 { assert s[0] == SpellChar(c)[0] && s[1] == SpellChar(c)[1] && s[2..] == z; } else { assert s[0] == c && s[1..] == z; }
  }

  lemma {:induction false} TextReads(t: string, z: string, lit: string)
    ensures LexFString(SpellText(t) + z, lit) == Further(LexFString(z, lit + t), [], |SpellText(t)|)
    decreases |t|
  {
    hide LexFString, SpellChar;
    if t == "" {
      assert "" + z == z && lit + "" == lit;
      NothingFurther(LexFString(z, lit));
    } else {
      var y := SpellText(t[1..]) + z;
      CharReads(t[0], y, lit);
      TextReads(t[1..], z, lit + [t[0]]);
      assert SpellText(t) + z == SpellChar(t[0]) + y;
      assert lit + [t[0]] + t[1..] == lit + t;
      FurtherTwice(LexFString(z, lit + t), |SpellText(t[1..])|, |SpellChar(t[0])|);
    }
  }

  lemma {:induction false} NothingFurther(r: Option<(seq<TPart>, nat)>)
    ensures Further(r, [], 0) == r
  {
    if r.Some? { assert [] + r.value.0 == r.value.0; }
  }

  lemma {:induction false} FurtherTwice(r: Option<(seq<TPart>, nat)>, m: nat, n: nat)
    ensures Further(Further(r, [], m), [], n) == Further(r, [], m + n)
  {
    if r.Some? { assert [] + ([] + r.value.0) == [] + r.value.0; }
  }

  /** A hole is as long in front of more text. */
  lemma {:induction false} HoleIn(a: string, z: string, depth: nat)
    requires depth > 0 && HoleLength(a, depth).Some?
    ensures HoleLength(a + z, depth) == HoleLength(a, depth)
    decreases |a|
  {
    assert (a + z)[0] == a[0] && (a + z)[1..] == a[1..] + z;
    var d := if a[0] == '{' then depth + 1 else if a[0] == '}' then depth - 1 else depth;
    if d > 0 { HoleIn(a[1..], z, d); }
  }

  lemma {:induction false} HoleReads(h: string, z: string, lit: string)
    requires IsHole(h)
    ensures LexFString("{" + h + "}" + z, lit) == Further(LexFString(z, ""), Flush(lit) + [THole(ToksOf(LexFrom(h).value))], |h| + 2)
  {
    var s := "{" + h + "}" + z;
    HoleEnds(h);
    HoleIn(h + "}", z, 1);
    hide LexFString, LexFrom, HoleLength, Flush;
    assert s[1..] == h + "}" + z && s[0] == '{' && s[1] == (h + "}")[0];
    assert s[1..|h| + 1] == h && s[|h| + 2..] == z;
    FStringStep(s, lit);
  }

  lemma {:induction false} PartsRead(ps: seq<FText>, x: string)
    requires IsParts(ps)
    ensures LexFString(SpellParts(ps) + "\"" + x, "") == Some((PartsOf(ps), |SpellParts(ps)| + 1))
    decreases |ps|
  {
    hide LexFString, LexFrom, SpellPart, IsPart;
    if ps == [] {
      QuoteCloses(x, "");
      assert "" + "\"" + x == "\"" + x;
    } else {
      assert IsPart(ps[0]);
      PartsTail(ps);
      var y := SpellParts(ps[1..]) + "\"" + x;
      assert SpellParts(ps) + "\"" + x == SpellPart(ps[0]) + y;
      if ps[0].Braced? {
        PartsRead(ps[1..], x);
        BracedFirst(ps[0], y);
        BracedJoins(ps);
      } else if |ps| == 1 {
        PlainLast(ps[0], x);
        assert ps[1..] == [] && SpellParts([]) == "" && PartsOf([]) == [];
        PlainAlone(ps[0]);
        assert ps == [ps[0]];
        assert "" + "\"" + x == "\"" + x;
      } else {
        PartsTail(ps[1..]);
        PartsRead(ps[2..], x);
        assert ps[1..][1..] == ps[2..] && ps[1..][0] == ps[1];
        var z := SpellParts(ps[2..]) + "\"" + x;
        assert y == SpellPart(ps[1]) + z;
        assert IsPart(ps[1]) && ps[0 + 1].Braced?;
        PlainThenHole(ps[0], ps[1], z);
        assert PartsOf(ps) == PartsOf([ps[0]]) + PartsOf(ps[1..]) by { assert [ps[0]][1..] == []; }
        PlainJoins(ps);
      }
    }
  }

  lemma {:induction false} PartsTail(ps: seq<FText>)
    requires IsParts(ps) && ps != []
    ensures IsParts(ps[1..])
  {
    hide IsPart;
    forall k | 0 <= k < |ps[1..]| - 1 ensures ps[1..][k].Plainly? ==> ps[1..][k + 1].Braced? { assert ps[1..][k] == ps[k + 1] && ps[1..][k + 1] == ps[k + 1 + 1]; }
  }

  lemma {:induction false} QuoteCloses(x: string, lit: string)
    ensures LexFString("\"" + x, lit) == Some((Flush(lit), 1))
  {
    hide LexFrom, HoleLength;
    FStringStep("\"" + x, lit);
  }

  lemma {:induction false} BracedFirst(p: FText, y: string)
    requires p.Braced? && IsPart(p)
    ensures LexFString(SpellPart(p) + y, "") == Further(LexFString(y, ""), [THole(ToksOf(LexFrom(p.h).value))], |SpellPart(p)|)
  {
    hide LexFString, LexFrom, HoleLength, SpellPart;
    HoleNext(p, y, "");
    assert [] + [THole(ToksOf(LexFrom(p.h).value))] == [THole(ToksOf(LexFrom(p.h).value))];
  }

  lemma {:induction false} BracedJoins(ps: seq<FText>)
    requires ps != [] && (forall k :: 0 <= k < |ps| ==> IsPart(ps[k])) && ps[0].Braced?
    ensures IsPart(ps[0]) && PartsOf(ps) == [THole(ToksOf(LexFrom(ps[0].h).value))] + PartsOf(ps[1..])
    ensures |SpellParts(ps)| == |SpellPart(ps[0])| + |SpellParts(ps[1..])|
  {
    hide LexFrom, SpellPart, HoleLength;
    assert IsPart(ps[0]);
  }

  lemma {:induction false} PlainLast(p: FText, x: string)
    requires p.Plainly? && IsPart(p)
    ensures LexFString(SpellPart(p) + ("\"" + x), "") == Some(([TLit(p.s)], |SpellPart(p)| + 1))
  {
    hide LexFString, LexFrom;
    TextReads(p.s, "\"" + x, "");
    QuoteCloses(x, p.s);
    assert "" + p.s == p.s;
    assert [] + [TLit(p.s)] == [TLit(p.s)];
  }

  lemma {:induction false} PlainAlone(p: FText)
    requires p.Plainly? && IsPart(p)
    ensures PartsOf([p]) == [TLit(p.s)] && SpellParts([p]) == SpellPart(p)
  {
    hide SpellPart;
    assert [p][1..] == [];
    assert PartsOf([]) == [] && SpellParts([]) == "" && SpellPart(p) + "" == SpellPart(p);
  }

  lemma {:induction false} PlainThenHole(p: FText, q: FText, z: string)
    requires p.Plainly? && IsPart(p) && q.Braced? && IsPart(q)
    ensures LexFString(SpellPart(p) + (SpellPart(q) + z), "") ==
            Further(LexFString(z, ""), [TLit(p.s), THole(ToksOf(LexFrom(q.h).value))], |SpellPart(p)| + |SpellPart(q)|)
  {
    assert IsHole(q.h) && LexFrom(q.h).Some?;
    hide LexFString, LexFrom, HoleLength, IsHole, SpellText, Further, SpellPart;
    PlainFirst(p, SpellPart(q) + z);
    HoleNext(q, z, p.s);
    FlushText(p.s, THole(ToksOf(LexFrom(q.h).value)));
    hide Flush, IsPart;
    FurtherJoins(LexFString(z, ""), [TLit(p.s), THole(ToksOf(LexFrom(q.h).value))], |SpellPart(q)|, |SpellPart(p)|);
  }

  lemma {:induction false} FlushText(s: string, hole: TPart)
    requires s != ""
    ensures Flush(s) + [hole] == [TLit(s), hole]
  {
  }

  lemma {:induction false} PlainFirst(p: FText, y: string)
    requires p.Plainly?
    ensures LexFString(SpellPart(p) + y, "") == Further(LexFString(y, p.s), [], |SpellPart(p)|)
  {
    hide LexFString, SpellText, Further;
    TextReads(p.s, y, "");
    assert "" + p.s == p.s;
  }

  lemma {:induction false} HoleNext(q: FText, z: string, lit: string)
    requires q.Braced? && IsPart(q)
    ensures LexFString(SpellPart(q) + z, lit) == Further(LexFString(z, ""), Flush(lit) + [THole(ToksOf(LexFrom(q.h).value))], |SpellPart(q)|)
  {
    assert IsHole(q.h) && LexFrom(q.h).Some?;
    hide LexFString, LexFrom, HoleLength, IsHole, Further, Flush;
    HoleReads(q.h, z, lit);
    assert "{" + q.h + "}" + z == SpellPart(q) + z;
  }

  lemma {:induction false} FurtherJoins(r: Option<(seq<TPart>, nat)>, ps: seq<TPart>, m: nat, n: nat)
    ensures Further(Further(r, ps, m), [], n) == Further(r, ps, n + m)
  {
    if r.Some? { assert [] + (ps + r.value.0) == ps + r.value.0; }
  }

  lemma {:induction false} PlainJoins(ps: seq<FText>)
    requires |ps| > 1 && (forall k :: 0 <= k < |ps| ==> IsPart(ps[k])) && ps[0].Plainly? && ps[1].Braced?
    ensures IsPart(ps[1]) && PartsOf(ps) == [TLit(ps[0].s), THole(ToksOf(LexFrom(ps[1].h).value))] + PartsOf(ps[2..])
    ensures |SpellParts(ps)| == |SpellPart(ps[0])| + |SpellPart(ps[1])| + |SpellParts(ps[2..])|
  {
    hide LexFrom, SpellPart, HoleLength, IsHole;
    assert IsPart(ps[0]) && IsPart(ps[1]);
    var qs := ps[1..];
    assert qs[1..] == ps[2..] && qs[0] == ps[1];
    assert forall k :: 0 <= k < |qs| ==> qs[k] == ps[k + 1];
  }

  /** An f-string is read as its texts, braces and quotes undone, and its holes, each lexed by itself. */
  lemma {:induction false} FStringLexes(ps: seq<FText>, x: string)
    requires IsParts(ps)
    ensures LexToks("f\"" + SpellParts(ps) + "\"" + x) == Prepend([TFStr(PartsOf(ps))], LexToks(x))
  {
    PartsRead(ps, x);
    var y := SpellParts(ps);
    Around(y, x);
    hide LexFString, SpellParts, IsParts, LexToks, LexOne, PartsOf;
    LexQuoted("f\"" + y + "\"" + x);
    LexToksStep("f\"" + y + "\"" + x);
  }

  lemma {:induction false} Around(y: string, x: string)
    ensures var s := "f\"" + y + "\"" + x; |s| == |y| + |x| + 3 && s[0] == 'f' && s[1] == '"' && s[2..] == y + "\"" + x && s[|y| + 3..] == x
  {
  }

  // ---------- a whole text ----------

  /** `w` spells the token. */
  ghost predicate Spells(w: string, t: Tok) {
    || ((IsKeyword(t) || IsSymbol(t) || t == TNewline) && w == Spelling(t))
    || (t.TIdent? && w == t.s && IsName(w))
    || (t.TStr? && Plain(t.s) && w == Quote(t.s))
    || (t.TNum? && Readable(JNum(false, w)) && NumOf(w) == Some(t.n))
    || (t.TFStr? && exists ps :: IsParts(ps) && t.parts == PartsOf(ps) && w == "f\"" + SpellParts(ps) + "\"")
  }

  lemma {:induction false} TokenLexes(w: string, t: Tok, x: string)
    requires Spells(w, t) && x != "" && x[0] == ' '
    ensures LexToks(w + x) == Prepend([t], LexToks(x))
  {
    hide LexToks, Spelling, IsKeyword, IsSymbol, IsName, Plain, Quote, Readable, NumOf, IsPart, PartsOf, SpellParts;
    FixedWord(w, t);
    if IsKeyword(t) { KeywordLexes(t, x); }
    else if IsSymbol(t) { SymbolLexes(t, x); }
    else if t == TNewline { NewlineSpelled(); NewlineLexes(x); }
    else if t.TIdent? { NameLexes(w, x); }
    else if t.TStr? { StringLexes(t.s, x); }
    else if t.TNum? { NumLexes(w, x); }
    else {
      var ps :| IsParts(ps) && t.parts == PartsOf(ps) && w == "f\"" + SpellParts(ps) + "\"";
      FStringLexes(ps, x);
      assert "f\"" + SpellParts(ps) + "\"" + x == w + x;
    }
  }

  lemma {:induction false} FixedWord(w: string, t: Tok)
    requires Spells(w, t)
    ensures IsKeyword(t) || IsSymbol(t) || t == TNewline ==> w == Spelling(t)
  {
    hide Spelling, IsName, Plain, Quote, Readable, NumOf, IsParts, PartsOf, SpellParts;
  }

  lemma {:induction false} NewlineSpelled()
    ensures Spelling(TNewline) == "\n"
  {
  }

  /** The words of a text, a blank behind each. */
  function Spaced(ws: seq<string>): (s: string) { if ws == [] then "" else ws[0] + " " + Spaced(ws[1..]) }

  /** The lexer round trip: a text in which each token is spelled out lexes to exactly those tokens, and the end of the last line. */
  lemma {:induction false} LexRoundTrip(ws: seq<string>, ts: Toks)
    requires |ws| == |ts| && forall k :: 0 <= k < |ws| ==> Spells(ws[k], ts[k])
    ensures LexToks(Spaced(ws)) == Some(ts + [TNewline])
    decreases |ws|
  {
    hide Spells, LexToks;
    if ws == [] {
      assert ts == [] && [] + [TNewline] == [TNewline];
      NothingLexes();
    } else {
      var rest := Spaced(ws[1..]);
      LexRoundTrip(ws[1..], ts[1..]);
      assert ws[0] + " " + rest == ws[0] + (" " + rest);
      TokenLexes(ws[0], ts[0], " " + rest);
      SkipsBlanks(" ", rest);
      assert [ts[0]] + (ts[1..] + [TNewline]) == ts + [TNewline];
    }
  }

  lemma {:induction false} NothingLexes()
    ensures LexToks("") == Some([TNewline])
  {
    assert ToksOf([Placed(TNewline, 0)]) == [TNewline];
  }

  /**
   * From text to program. Lines written out token by token, in spelled words with blanks between, parse to
   * the program they say.
   */
  lemma {:induction false} TextRoundTrip(ls: seq<Written>, ws: seq<string>)
    requires forall k :: 0 <= k < |ls| ==> WritableLine(ls[k])
    requires |ws| == |PrintProgram(ls)| && forall k :: 0 <= k < |ws| ==> Spells(ws[k], PrintProgram(ls)[k])
    ensures Parse(Spaced(ws)) == Ok(Program(Stmts(ls), Constants(ls)))
  {
    hide LexFrom, Spells, WritableLine, PrintProgram, Stmts, Constants, ParseProgram;
    LexRoundTrip(ws, PrintProgram(ls));
    TokensAre(Spaced(ws));
    ProgramRoundTrip(ls, [TNewline]);
  }

  lemma {:induction false} TokensAre(src: string)
    ensures LexToks(src).Some? ==> Parse(src) == ParseProgram(LexToks(src).value)
  {
    hide LexFrom, ParseProgram;
  }
}
