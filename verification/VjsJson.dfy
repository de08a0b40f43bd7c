// JSON text as an edit writes it into a VejasScript source (core/src/vjs.rs): the compact form,
// the tokens the VejasScript lexer reads from it, and the literal the parser makes of them.

module VjsJson {
  import opened Wrappers
  import opened VjsSyntax
  import opened VjsParser
  import opened VjsProgram
  import opened VjsLocal
  import opened VjsSplice
  import opened VjsLexer
  import opened VjsRelex
  import opened VjsPratt

  /** A JSON document in the order it is written. A number is its sign and its text. */
  datatype JVal =
    | JNull
    | JBool(b: bool)
    | JNum(minus: bool, text: string)
    | JStr(s: string)
    | JArr(items: seq<JVal>)
    | JObj(fields: seq<JField>)

  datatype JField = JField(key: string, value: JVal)

  // ---------- strings ----------

  function Hex(d: nat): (c: char) requires d < 16 { "0123456789abcdef"[d] }

  function Escape(c: char): (e: string) {
    if c == '"' then "\\\""
    else if c == '\\' then "\\\\"
    else if c == '\n' then "\\n"
    else if c == '\t' then "\\t"
    else if c == '\r' then "\\r"
    else if c as int == 8 then "\\b"
    else if c as int == 12 then "\\f"
    else if c < ' ' then "\\u00" + [Hex(c as int / 16), Hex(c as int % 16)]
    else [c]
  }

  function EscapeAll(s: string): (e: string) {
    if s == "" then "" else Escape(s[0]) + EscapeAll(s[1..])
  }

  function Quote(s: string): (q: string) { "\"" + EscapeAll(s) + "\"" }

  /** What the VejasScript lexer makes of an escaped character. */
  function Garble(c: char): (g: string)
    ensures |g| >= 1
  {
    if c == '\r' then "r"
    else if c as int == 8 then "b"
    else if c as int == 12 then "f"
    else if c < ' ' && c != '\n' && c != '\t' then "u00" + [Hex(c as int / 16), Hex(c as int % 16)]
    else [c]
  }

  function GarbleAll(s: string): (g: string)
    ensures |g| >= |s|
  {
    if s == "" then "" else Garble(s[0]) + GarbleAll(s[1..])
  }

  predicate PlainChar(c: char) { c >= ' ' || c == '\n' || c == '\t' }

  predicate Plain(s: string) { forall k :: 0 <= k < |s| ==> PlainChar(s[k]) }

  /** The lexer reads a string back exactly when it holds no control character but newline and tab. */
  lemma {:induction false} ReadBackIffPlain(s: string)
    ensures GarbleAll(s) == s <==> Plain(s)
  {
    if s != "" {
      var g := Garble(s[0]) + GarbleAll(s[1..]);
      ReadBackIffPlain(s[1..]);
      if PlainChar(s[0]) {
        assert s == [s[0]] + s[1..];
        assert g[1..] == GarbleAll(s[1..]);
        assert Plain(s[1..]) ==> Plain(s) by {
          forall k | 1 <= k < |s| && Plain(s[1..]) ensures PlainChar(s[k]) { assert s[k] == s[1..][k - 1]; }
        }
      } else {
        assert Garble(s[0])[0] != s[0];
        assert g[0] == Garble(s[0])[0];
      }
    }
  }

  /** `c` in front of what a string still holds. */
  function Lead(c: string, r: Option<(string, nat)>, k: nat): (r': Option<(string, nat)>) {
    match r case None => None case Some((t, n)) => Some((c + t, n + k))
  }

  lemma {:induction false} PlainStep(c: char, z: string)
    requires c != '"' && c != '\\'
    ensures LexString([c] + z) == Lead([c], LexString(z), 1)
  {
    assert ([c] + z)[1..] == z;
  }

  lemma {:induction false} BackslashStep(c: char, z: string)
    ensures LexString("\\" + [c] + z) == Lead([Unescape(c)], LexString(z), 2)
  {
    var s := "\\" + [c] + z;
    assert s[0] == '\\' && s[1] == c && s[2..] == z;
  }

  lemma {:induction false} ControlStep(a: char, b: char, z: string)
    requires a != '"' && a != '\\' && b != '"' && b != '\\'
    ensures LexString("\\u00" + [a, b] + z) == Lead("u00" + [a, b], LexString(z), 6)
  {
    hide LexString;
    var z1 := [b] + z;
    var z2 := [a] + z1;
    var z3 := ['0'] + z2;
    var z4 := ['0'] + z3;
    PlainStep(b, z);
    PlainStep(a, z1);
    PlainStep('0', z2);
    PlainStep('0', z3);
    BackslashStep('u', z4);
    assert "\\u00" + [a, b] + z == "\\" + ['u'] + z4;
    if LexString(z).Some? {
      var t := LexString(z).value.0;
      assert ['u'] + (['0'] + (['0'] + ([a] + ([b] + t)))) == "u00" + [a, b] + t;
    }
  }

  lemma {:induction false} EscapeStep(c: char, z: string)
    ensures LexString(Escape(c) + z) == Lead(Garble(c), LexString(z), |Escape(c)|)
  {
    hide LexString;
    var e := Escape(c);
    if |e| == 1 {
      PlainStep(c, z);
    } else if |e| == 2 {
      BackslashStep(e[1], z);
      assert e == "\\" + [e[1]];
    } else {
      ControlStep(Hex(c as int / 16), Hex(c as int % 16), z);
    }
  }

  lemma {:induction false} EscapesLex(s: string, x: string)
    ensures LexString(EscapeAll(s) + "\"" + x) == Some((GarbleAll(s), |EscapeAll(s)| + 1))
  {
    hide LexString, Escape, Garble;
    if s == "" {
      QuoteEnds(x);
      assert EscapeAll(s) + "\"" + x == "\"" + x;
    } else {
      var z := EscapeAll(s[1..]) + "\"" + x;
      EscapesLex(s[1..], x);
      EscapeStep(s[0], z);
      assert EscapeAll(s) + "\"" + x == Escape(s[0]) + z;
    }
  }

  lemma {:induction false} QuoteEnds(x: string)
    ensures LexString("\"" + x) == Some(("", 1))
  {
  }

  lemma {:induction false} QuoteLexes(s: string, x: string)
    ensures LexOne(Quote(s) + x) == Token(TStr(GarbleAll(s)), |Quote(s)|)
  {
    hide LexString, EscapeAll, GarbleAll;
    EscapesLex(s, x);
    assert (Quote(s) + x)[1..] == EscapeAll(s) + "\"" + x;
  }

  // ---------- documents ----------

  function Render(j: JVal): (s: string) {
    match j
    case JNull => "null"
    case JBool(b) => if b then "true" else "false"
    case JNum(minus, text) => (if minus then "-" else "") + text
    case JStr(s) => Quote(s)
    case JArr(items) => "[" + RenderItems(items) + "]"
    case JObj(fields) => "{" + RenderFields(fields) + "}"
  }

  function RenderItems(js: seq<JVal>): (s: string) {
    if js == [] then ""
    else if |js| == 1 then Render(js[0])
    else Render(js[0]) + "," + RenderItems(js[1..])
  }

  function RenderFields(fs: seq<JField>): (s: string) {
    if fs == [] then ""
    else
      assert fs[0].value < fs[0];
      if |fs| == 1 then Quote(fs[0].key) + ":" + Render(fs[0].value)
      else Quote(fs[0].key) + ":" + Render(fs[0].value) + "," + RenderFields(fs[1..])
  }

  /** Does the VejasScript lexer read the JSON text back: plain strings, and numbers without exponent? */
  predicate Readable(j: JVal) {
    match j
    case JNull => true
    case JBool(_) => true
    case JNum(_, text) => text != "" && Digit(text[0]) && Run(text, NumChar) == |text| && NumOf(text).Some?
    case JStr(s) => Plain(s)
    case JArr(items) => forall k :: 0 <= k < |items| ==> Readable(items[k])
    case JObj(fields) => forall k :: 0 <= k < |fields| ==>
        Plain(fields[k].key) && (assert fields[k].value < fields[k]; Readable(fields[k].value))
  }

  /** The document, as a value. */
  function ValueOf(j: JVal): (v: Value)
    requires Readable(j)
  {
    match j
    case JNull => Null
    case JBool(b) => Bool(b)
    case JNum(minus, text) => Num(if minus then 0.0 - NumOf(text).value else NumOf(text).value)
    case JStr(s) => Str(s)
    case JArr(items) => Arr(seq(|items|, k requires 0 <= k < |items| => ValueOf(items[k])))
    case JObj(fields) => Obj(FieldMap(fields))
  }

  function FieldMap(fs: seq<JField>): (m: Vars)
    requires forall k :: 0 <= k < |fs| ==> Plain(fs[k].key) && Readable(fs[k].value)
  {
    if fs == [] then map[]
    else
      assert fs[0].value < fs[0];
      map[fs[0].key := ValueOf(fs[0].value)] + FieldMap(fs[1..])
  }

  function ToksFor(j: JVal): (ts: Toks)
    requires Readable(j)
    ensures |ts| > 0
  {
    match j
    case JNull => [TNull]
    case JBool(b) => [if b then TTrue else TFalse]
    case JNum(minus, text) => (if minus then [TMinus] else []) + [TNum(NumOf(text).value)]
    case JStr(s) => [TStr(s)]
    case JArr(items) => [TLBrack] + ToksForItems(items) + [TRBrack]
    case JObj(fields) => [TLBrace] + ToksForFields(fields) + [TRBrace]
  }

  function ToksForItems(js: seq<JVal>): (ts: Toks)
    requires forall k :: 0 <= k < |js| ==> Readable(js[k])
  {
    if js == [] then []
    else if |js| == 1 then ToksFor(js[0])
    else ToksFor(js[0]) + [TComma] + ToksForItems(js[1..])
  }

  function ToksForFields(fs: seq<JField>): (ts: Toks)
    requires forall k :: 0 <= k < |fs| ==> Plain(fs[k].key) && Readable(fs[k].value)
  {
    if fs == [] then []
    else
      assert fs[0].value < fs[0];
      if |fs| == 1 then [TStr(fs[0].key), TColon] + ToksFor(fs[0].value)
      else [TStr(fs[0].key), TColon] + ToksFor(fs[0].value) + [TComma] + ToksForFields(fs[1..])
  }

  // ---------- the lexer reads the text back ----------

  lemma {:induction false} PunctLexes(c: char, t: Tok, x: string)
    requires Symbol(c) == Some(t) && c != '=' && c != '<' && c != '>'
    ensures LexToks([c] + x) == Prepend([t], LexToks(x))
  {
    hide LexToks, LexOne;
    PunctStep(c, t, x);
    LexToksStep([c] + x);
    assert ([c] + x)[1..] == x;
  }

  lemma {:induction false} PunctStep(c: char, t: Tok, x: string)
    requires Symbol(c) == Some(t) && c != '=' && c != '<' && c != '>'
    ensures LexOne([c] + x) == Token(t, 1)
  {
    hide LexFrom, LexString, LexFString, NumOf, WordTok, Run;
  }

  lemma {:induction false} WordLexes(w: string, x: string)
    requires |w| > 1 && Letter(w[0]) && (forall k :: 0 <= k < |w| ==> WordChar(w[k]))
    requires x == "" || !WordChar(x[0])
    ensures LexToks(w + x) == Prepend([WordTok(w)], LexToks(x))
  {
    hide LexFrom, LexToks, LexOne, WordTok, Run;
    var s := w + x;
    assert s[0] == w[0] && s[1] == w[1];
    RunIs(s, WordChar, |w|);
    assert s[..|w|] == w && s[|w|..] == x;
    LexRun(s);
    LexToksStep(s);
  }

  lemma {:induction false} NumLexes(text: string, x: string)
    requires Readable(JNum(false, text)) && (x == "" || !NumChar(x[0]))
    ensures LexToks(text + x) == Prepend([TNum(NumOf(text).value)], LexToks(x))
  {
    hide LexFrom, LexToks, LexOne, NumOf, Run;
    var s := text + x;
    assert s[0] == text[0];
    RunIs(s, NumChar, |text|);
    assert s[..|text|] == text && s[|text|..] == x;
    LexRun(s);
    LexToksStep(s);
  }

  lemma {:induction false} StringLexes(s: string, x: string)
    requires Plain(s)
    ensures LexToks(Quote(s) + x) == Prepend([TStr(s)], LexToks(x))
  {
    hide LexFrom, LexToks, LexOne, GarbleAll, EscapeAll;
    QuoteLexes(s, x);
    ReadBackIffPlain(s);
    LexToksStep(Quote(s) + x);
    assert (Quote(s) + x)[|Quote(s)|..] == x;
  }

  /** What follows does not run together with the text of `j`. */
  predicate Detached(j: JVal, x: string) {
    match j
    case JNull => x == "" || !WordChar(x[0])
    case JBool(_) => x == "" || !WordChar(x[0])
    case JNum(_, _) => x == "" || !NumChar(x[0])
    case _ => true
  }

  predicate Punct(x: string) { x != "" && x[0] in [',', ']', '}'] }

  lemma {:induction false} MinusSign()
    ensures Symbol('-') == Some(TMinus)
  {
  }

  lemma {:induction false} NumberLexes(minus: bool, text: string, x: string)
    requires Readable(JNum(minus, text)) && (x == "" || !NumChar(x[0]))
    ensures LexToks(Render(JNum(minus, text)) + x) == Prepend(ToksFor(JNum(minus, text)), LexToks(x))
  {
    hide LexToks, NumOf;
    NumLexes(text, x);
    if minus {
      MinusSign();
      PunctLexes('-', TMinus, text + x);
      assert ['-'] + (text + x) == "-" + text + x;
      PrependTwice([TMinus], [TNum(NumOf(text).value)], LexToks(x));
    } else {
      assert "" + text == text;
      assert [] + [TNum(NumOf(text).value)] == [TNum(NumOf(text).value)];
    }
  }

  /** The lexer reads the JSON text of a readable document as its tokens, and goes on after it. */
  lemma {:induction false} RenderLexes(j: JVal, x: string)
    requires Readable(j) && Detached(j, x)
    ensures LexToks(Render(j) + x) == Prepend(ToksFor(j), LexToks(x))
    decreases j, 1
  {
    hide LexToks, RenderItems, RenderFields, ToksForItems, ToksForFields, Quote, NumOf, Run;
    match j
    case JNull => WordLexes("null", x);
    case JBool(b) => WordLexes(if b then "true" else "false", x);
    case JNum(minus, text) => NumberLexes(minus, text, x);
    case JStr(s) => StringLexes(s, x);
    case JArr(items) =>
      ItemsLex(items, "]" + x);
      Enclosed('[', TLBrack, RenderItems(items), ToksForItems(items), ']', TRBrack, x);
    case JObj(fields) =>
      FieldsLex(fields, "}" + x);
      Enclosed('{', TLBrace, RenderFields(fields), ToksForFields(fields), '}', TRBrace, x);
  }

  lemma {:induction false} Enclosed(open: char, ot: Tok, s: string, ts: Toks, close: char, ct: Tok, x: string)
    requires Symbol(open) == Some(ot) && open != '=' && open != '<' && open != '>'
    requires Symbol(close) == Some(ct) && close != '=' && close != '<' && close != '>'
    requires LexToks(s + ([close] + x)) == Prepend(ts, LexToks([close] + x))
    ensures LexToks([open] + s + [close] + x) == Prepend([ot] + ts + [ct], LexToks(x))
  {
    hide LexToks, Symbol;
    PunctLexes(close, ct, x);
    PunctLexes(open, ot, s + ([close] + x));
    assert [open] + s + [close] + x == [open] + (s + ([close] + x));
    PrependTwice(ts, [ct], LexToks(x));
    PrependTwice([ot], ts + [ct], LexToks(x));
    assert [ot] + (ts + [ct]) == [ot] + ts + [ct];
  }

  /** An element, and the elements after its comma. */
  lemma {:induction false} Listed(e: string, et: Toks, s: string, ts: Toks, x: string)
    requires LexToks(s + x) == Prepend(ts, LexToks(x))
    requires LexToks(e + ("," + (s + x))) == Prepend(et, LexToks("," + (s + x)))
    ensures LexToks(e + "," + s + x) == Prepend(et + [TComma] + ts, LexToks(x))
  {
    hide LexToks;
    PunctLexes(',', TComma, s + x);
    assert [','] + (s + x) == "," + (s + x);
    assert e + "," + s + x == e + ("," + (s + x));
    PrependTwice([TComma], ts, LexToks(x));
    PrependTwice(et, [TComma] + ts, LexToks(x));
    assert et + ([TComma] + ts) == et + [TComma] + ts;
  }

  lemma {:induction false} ItemsLex(js: seq<JVal>, x: string)
    requires (forall k :: 0 <= k < |js| ==> Readable(js[k])) && Punct(x)
    ensures LexToks(RenderItems(js) + x) == Prepend(ToksForItems(js), LexToks(x))
    decreases js, 0
  {
    hide LexToks, Render, ToksFor, Readable;
    if js == [] {
      assert "" + x == x;
      EmptyPrefix(LexToks(x));
    } else if |js| == 1 {
      RenderLexes(js[0], x);
    } else {
      ItemsLex(js[1..], x);
      RenderLexes(js[0], "," + (RenderItems(js[1..]) + x));
      Listed(Render(js[0]), ToksFor(js[0]), RenderItems(js[1..]), ToksForItems(js[1..]), x);
    }
  }

  lemma {:induction false} EntryLexes(f: JField, x: string)
    requires Plain(f.key) && Readable(f.value) && Punct(x)
    ensures LexToks(Quote(f.key) + ":" + Render(f.value) + x) == Prepend([TStr(f.key), TColon] + ToksFor(f.value), LexToks(x))
    decreases f, 2
  {
    hide LexToks, Render, ToksFor, Readable, Quote;
    RenderLexes(f.value, x);
    var z := Render(f.value) + x;
    PunctLexes(':', TColon, z);
    StringLexes(f.key, [':'] + z);
    assert Quote(f.key) + ":" + Render(f.value) + x == Quote(f.key) + ([':'] + z);
    PrependTwice([TColon], ToksFor(f.value), LexToks(x));
    PrependTwice([TStr(f.key)], [TColon] + ToksFor(f.value), LexToks(x));
    assert [TStr(f.key)] + ([TColon] + ToksFor(f.value)) == [TStr(f.key), TColon] + ToksFor(f.value);
  }

  lemma {:induction false} FieldsLex(fs: seq<JField>, x: string)
    requires (forall k :: 0 <= k < |fs| ==> Plain(fs[k].key) && Readable(fs[k].value)) && Punct(x)
    ensures LexToks(RenderFields(fs) + x) == Prepend(ToksForFields(fs), LexToks(x))
    decreases fs, 0
  {
    hide LexToks, Render, ToksFor, Readable, Quote;
    if fs == [] {
      assert "" + x == x;
      EmptyPrefix(LexToks(x));
    } else if |fs| == 1 {
      EntryLexes(fs[0], x);
    } else {
      var e, et := Quote(fs[0].key) + ":" + Render(fs[0].value), [TStr(fs[0].key), TColon] + ToksFor(fs[0].value);
      FieldsLex(fs[1..], x);
      EntryLexes(fs[0], "," + (RenderFields(fs[1..]) + x));
      Listed(e, et, RenderFields(fs[1..]), ToksForFields(fs[1..]), x);
    }
  }

  // ---------- the parser reads the tokens back ----------

  function Values(js: seq<JVal>): (vs: seq<Value>)
    requires forall k :: 0 <= k < |js| ==> Readable(js[k])
  {
    seq(|js|, k requires 0 <= k < |js| => ValueOf(js[k]))
  }

  lemma {:induction false} FirstTok(j: JVal)
    requires Readable(j)
    ensures var t := ToksFor(j)[0]; !t.TNewline? && !t.TRBrack? && !t.TRBrace? && !t.TComma?
  {
    hide ToksForItems, ToksForFields, NumOf, Run;
  }

  /** A literal list goes on to its next element. */
  lemma {:induction false} NextElement(us: Toks, q: nat)
    requires q < |us| && us[q] != TNewline
    requires us[q] == TComma ==> q + 1 < |us| && us[q + 1] != TNewline
    ensures AfterItem(us, q) == if us[q] == TComma then q + 1 else q
  {
    SkipTo(us, q, q);
    if us[q] == TComma { SkipTo(us, q + 1, q + 1); }
  }

  /** The parser reads the tokens of a readable document as its value. */
  lemma {:induction false} LiteralReads(j: JVal, us: Toks, i: nat)
    requires Readable(j) && At(us, i, ToksFor(j))
    ensures LiteralAt(us, i) == LYes(ValueOf(j), i + |ToksFor(j)|)
    decreases j, 1
  {
    hide LiteralItems, LiteralFields, ToksForItems, ToksForFields, FieldMap, MapOf, At, NumOf, Run, Readable;
    match j
    case JNull => AtOne(us, i, TNull);
    case JBool(b) => AtOne(us, i, if b then TTrue else TFalse);
    case JNum(minus, text) => NumberReads(minus, text, us, i);
    case JStr(s) => AtOne(us, i, TStr(s));
    case JArr(items) => ArrayReads(items, us, i);
    case JObj(fields) => ObjectReads(fields, us, i);
  }

  lemma {:induction false} NumberReads(minus: bool, text: string, us: Toks, i: nat)
    requires Readable(JNum(minus, text)) && At(us, i, ToksFor(JNum(minus, text)))
    ensures LiteralAt(us, i) == LYes(ValueOf(JNum(minus, text)), i + |ToksFor(JNum(minus, text))|)
  {
    hide LiteralItems, LiteralFields, At, NumOf, Run;
    var n := TNum(NumOf(text).value);
    if minus {
      AtSplit(us, i, [TMinus], [n]);
      AtOne(us, i, TMinus);
      AtOne(us, i + 1, n);
    } else {
      assert [] + [n] == [n];
      AtOne(us, i, n);
    }
  }

  lemma {:induction false} ArrayReads(items: seq<JVal>, us: Toks, i: nat)
    requires Readable(JArr(items)) && At(us, i, ToksFor(JArr(items)))
    ensures LiteralAt(us, i) == LYes(ValueOf(JArr(items)), i + |ToksFor(JArr(items))|)
    decreases items, 3
  {
    hide LiteralItems, LiteralFields, ToksForItems, At, NumOf, Run, SkipNewlines;
    var ts := ToksForItems(items) + [TRBrack];
    assert [TLBrack] + ToksForItems(items) + [TRBrack] == [TLBrack] + ts;
    AtSplit(us, i, [TLBrack], ts);
    AtOne(us, i, TLBrack);
    ItemsRead(items, us, i + 1);
    SkipTo(us, i + 1, i + 1);
  }

  lemma {:induction false} ObjectReads(fields: seq<JField>, us: Toks, i: nat)
    requires Readable(JObj(fields)) && At(us, i, ToksFor(JObj(fields)))
    ensures LiteralAt(us, i) == LYes(ValueOf(JObj(fields)), i + |ToksFor(JObj(fields))|)
    decreases fields, 3
  {
    hide LiteralItems, LiteralFields, ToksForFields, FieldMap, MapOf, At, NumOf, Run, SkipNewlines;
    var ts := ToksForFields(fields) + [TRBrace];
    assert [TLBrace] + ToksForFields(fields) + [TRBrace] == [TLBrace] + ts;
    AtSplit(us, i, [TLBrace], ts);
    AtOne(us, i, TLBrace);
    FieldsRead(fields, us, i + 1);
    SkipTo(us, i + 1, i + 1);
  }

  lemma {:induction false} ItemsRead(js: seq<JVal>, us: Toks, i: nat)
    requires (forall k :: 0 <= k < |js| ==> Readable(js[k])) && At(us, i, ToksForItems(js) + [TRBrack])
    ensures i < |us| && us[i] != TNewline && us[i] != TComma
    ensures LiteralItems(us, i) == LYes(Values(js), i + |ToksForItems(js)| + 1)
    decreases js, 2
  {
    hide LiteralAt, At, AfterItem, ToksFor, Readable, ValueOf;
    if js == [] {
      assert [] + [TRBrack] == [TRBrack];
      AtOne(us, i, TRBrack);
      assert Values(js) == [];
    } else {
      var e := ToksFor(js[0]);
      var q := i + |e|;
      FirstTok(js[0]);
      if |js| == 1 {
        AtSplit(us, i, e, [TRBrack]);
        AtFirst(us, i, e);
        AtOne(us, q, TRBrack);
        LiteralReads(js[0], us, i);
        NextElement(us, q);
        assert LiteralItems(us, q) == LYes([], q + 1);
        assert Values(js) == [ValueOf(js[0])] + [];
      } else {
        AtFour(us, i, e, TComma, ToksForItems(js[1..]), TRBrack);
        AtFirst(us, i, e);
        LiteralReads(js[0], us, i);
        ItemsRead(js[1..], us, q + 1);
        NextElement(us, q);
        assert Values(js) == [ValueOf(js[0])] + Values(js[1..]);
      }
    }
  }

  lemma {:induction false} EntryReads(f: JField, us: Toks, i: nat)
    requires Plain(f.key) && Readable(f.value) && At(us, i, [TStr(f.key), TColon] + ToksFor(f.value))
    ensures EntryHead(us, i) && Peek(us, i) == TStr(f.key) && i + 2 <= |us|
    ensures LiteralAt(us, i + 2) == LYes(ValueOf(f.value), i + 2 + |ToksFor(f.value)|)
    decreases f, 3
  {
    hide LiteralAt, At, ToksFor, Readable, ValueOf;
    AtSplit(us, i, [TStr(f.key), TColon], ToksFor(f.value));
    assert [TStr(f.key), TColon] == [TStr(f.key)] + [TColon];
    AtSplit(us, i, [TStr(f.key)], [TColon]);
    AtOne(us, i, TStr(f.key));
    AtOne(us, i + 1, TColon);
    LiteralReads(f.value, us, i + 2);
  }

  /** An entry stands first, and the rest reads: the whole reads, the entry first. */
  lemma {:induction false} LedBy(f: JField, us: Toks, i: nat)
    requires Plain(f.key) && Readable(f.value) && At(us, i, [TStr(f.key), TColon] + ToksFor(f.value))
    ensures var q := i + 2 + |ToksFor(f.value)|;
            && i < |us| && us[i] != TNewline && us[i] != TComma && q <= |us|
            && var r := LiteralFields(us, AfterItem(us, q));
               r.LYes? ==> && LiteralFields(us, i).LYes? && LiteralFields(us, i).next == r.next
                           && MapOf(LiteralFields(us, i).value) == map[f.key := ValueOf(f.value)] + MapOf(r.value)
    decreases f, 4
  {
    hide LiteralAt, At, AfterItem, ToksFor, Readable, ValueOf, LiteralFields, MapOf, Plain, WordOf;
    EntryReads(f, us, i);
    LedStep(us, i, f.key, ValueOf(f.value), i + 2 + |ToksFor(f.value)|);
  }

  lemma {:induction false} LedStep(us: Toks, i: nat, key: string, v: Value, q: nat)
    requires i + 2 <= |us| && EntryHead(us, i) && Peek(us, i) == TStr(key) && LiteralAt(us, i + 2) == LYes(v, q)
    ensures q <= |us|
    ensures var r := LiteralFields(us, AfterItem(us, q));
            r.LYes? ==> && LiteralFields(us, i).LYes? && LiteralFields(us, i).next == r.next
                        && MapOf(LiteralFields(us, i).value) == map[key := v] + MapOf(r.value)
  {
    assert q <= |us|;
    assert WordOf(TStr(key)) == Some(key);
    hide LiteralAt, AfterItem, LiteralFields, MapOf, WordOf;
    FieldsStep(us, i);
    var r := LiteralFields(us, AfterItem(us, q));
    if r.LYes? { MapOfStep(LField(key, v, i + 2, q), r.value); }
  }

  lemma {:induction false} FieldsRead(fs: seq<JField>, us: Toks, i: nat)
    requires forall k :: 0 <= k < |fs| ==> Plain(fs[k].key) && Readable(fs[k].value)
    requires At(us, i, ToksForFields(fs) + [TRBrace])
    ensures i < |us| && us[i] != TNewline && us[i] != TComma
    ensures LiteralFields(us, i).LYes? && LiteralFields(us, i).next == i + |ToksForFields(fs)| + 1
    ensures MapOf(LiteralFields(us, i).value) == FieldMap(fs)
    decreases fs, 2
  {
    hide LiteralAt, At, AfterItem, ToksFor, Readable, ValueOf, LiteralFields, Plain;
    if fs == [] {
      assert [] + [TRBrace] == [TRBrace];
      AtOne(us, i, TRBrace);
      NoEntries(us, i);
    } else {
      var e := [TStr(fs[0].key), TColon] + ToksFor(fs[0].value);
      var q := i + |e|;
      if |fs| == 1 {
        AtSplit(us, i, e, [TRBrace]);
        AtOne(us, q, TRBrace);
        NextElement(us, q);
        NoEntries(us, q);
      } else {
        AtFour(us, i, e, TComma, ToksForFields(fs[1..]), TRBrace);
        FieldsRead(fs[1..], us, q + 1);
        NextElement(us, q);
      }
      LedBy(fs[0], us, i);
    }
  }

  lemma {:induction false} NoEntries(us: Toks, i: nat)
    requires i < |us| && us[i] == TRBrace
    ensures LiteralFields(us, i) == LYes([], i + 1)
  {
    hide LiteralAt;
  }

  lemma {:induction false} MapOfStep(f: LField, fs: seq<LField>)
    ensures MapOf([f] + fs) == map[f.key := f.value] + MapOf(fs)
  {
    assert ([f] + fs)[1..] == fs;
  }
}
