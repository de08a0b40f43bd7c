// Values whose JSON text the VejasScript lexer does not read back (core/src/vjs.rs): strings with
// control characters come back as other strings, and a number with an exponent falls apart into
// a number and a word, which no literal holds. Rewriting a constant with one of them may succeed,
// but it never reads back.

module VjsUnreadable {
  import opened Wrappers
  import opened VjsSyntax
  import opened VjsParser
  import opened VjsPratt
  import opened VjsProgram
  import opened VjsLocal
  import opened VjsBrackets
  import opened VjsSplice
  import opened VjsLexer
  import opened VjsRelex
  import opened VjsJson
  import opened VjsEdit
  import opened VjsEditProof
  import opened VjsSpan

  // ---------- what a JSON writer writes ----------

  predicate AllDigits(s: string) { s != "" && forall k :: 0 <= k < |s| ==> Digit(s[k]) }

  /** Digits, with no sign before them: the exponent is one word. */
  predicate Unsigned(x: string) { |x| > 1 && AllDigits(x[1..]) }

  predicate Signed(x: string) { |x| > 1 && (x[1] == '-' || x[1] == '+') && AllDigits(x[2..]) }

  /** Nothing, or an exponent as in section 6 of RFC 8259: `e` or `E`, perhaps a sign, and digits. */
  predicate Exponent(x: string) {
    x == "" || ((x[0] == 'e' || x[0] == 'E') && (Unsigned(x) || Signed(x)))
  }

  /** The part of a number's text before its exponent. */
  function Mantissa(text: string): (m: string) { text[..Run(text, NumChar)] }

  function ExponentOf(text: string): (x: string) { text[Run(text, NumChar)..] }

  predicate NumberText(text: string) {
    var m := Mantissa(text);
    m != "" && Digit(m[0]) && NumOf(m).Some? && Exponent(ExponentOf(text))
  }

  /** Numbers as they are written, and no key twice in one object. */
  predicate Sound(j: JVal) {
    match j
    case JNum(_, text) => NumberText(text)
    case JArr(items) => forall k :: 0 <= k < |items| ==> Sound(items[k])
    case JObj(fields) =>
      && (forall k :: 0 <= k < |fields| ==> (assert fields[k].value < fields[k]; Sound(fields[k].value)))
      && (forall k, l :: 0 <= k < l < |fields| ==> fields[k].key != fields[l].key)
    case _ => true
  }

  /** The power of ten an exponent stands for. */
  function Scale(x: string): (r: real)
    requires Exponent(x)
  {
    if x == "" then 1.0
    else if Unsigned(x) then PowerOfTen(Whole(x[1..])) as real
    else if x[1] == '+' then PowerOfTen(Whole(x[2..])) as real
    else 1.0 / PowerOfTen(Whole(x[2..])) as real
  }

  /** The document a text stands for, by the rules of JSON. */
  function Meaning(j: JVal): (v: Value)
    requires Sound(j)
  {
    match j
    case JNull => Null
    case JBool(b) => Bool(b)
    case JNum(minus, text) =>
      var n := NumOf(Mantissa(text)).value * Scale(ExponentOf(text));
      Num(if minus then 0.0 - n else n)
    case JStr(s) => Str(s)
    case JArr(items) => Arr(seq(|items|, k requires 0 <= k < |items| => Meaning(items[k])))
    case JObj(fields) => Obj(MeaningMap(fields))
  }

  function MeaningMap(fs: seq<JField>): (m: Vars)
    requires forall k :: 0 <= k < |fs| ==> Sound(fs[k].value)
  {
    if fs == [] then map[]
    else
      assert fs[0].value < fs[0];
      map[fs[0].key := Meaning(fs[0].value)] + MeaningMap(fs[1..])
  }

  /** No number with an exponent anywhere. */
  predicate Plainly(j: JVal) {
    match j
    case JNum(_, text) => ExponentOf(text) == ""
    case JArr(items) => forall k :: 0 <= k < |items| ==> Plainly(items[k])
    case JObj(fields) => forall k :: 0 <= k < |fields| ==> (assert fields[k].value < fields[k]; Plainly(fields[k].value))
    case _ => true
  }

  /** Every string and key is one the lexer reads back. */
  predicate PlainStrings(j: JVal) {
    match j
    case JStr(s) => Plain(s)
    case JArr(items) => forall k :: 0 <= k < |items| ==> PlainStrings(items[k])
    case JObj(fields) => forall k :: 0 <= k < |fields| ==>
        Plain(fields[k].key) && (assert fields[k].value < fields[k]; PlainStrings(fields[k].value))
    case _ => true
  }

  lemma {:induction false} ReadableIs(j: JVal)
    requires Sound(j)
    ensures Readable(j) <==> Plainly(j) && PlainStrings(j)
  {
    hide NumOf, Run;
    match j
    case JNum(_, text) => assert Run(text, NumChar) == |text| <==> ExponentOf(text) == "";
      if ExponentOf(text) == "" { assert Mantissa(text) == text; }
    case JArr(items) => forall k | 0 <= k < |items| ensures Readable(items[k]) <==> Plainly(items[k]) && PlainStrings(items[k]) { ReadableIs(items[k]); }
    case JObj(fields) =>
      forall k | 0 <= k < |fields| ensures Readable(fields[k].value) <==> Plainly(fields[k].value) && PlainStrings(fields[k].value) {
        assert fields[k].value < fields[k];
        ReadableIs(fields[k].value);
      }
    case _ =>
  }

  // ---------- what the lexer makes of it ----------

  function ExponentToks(x: string): (ts: Toks)
    requires Exponent(x)
  {
    if x == "" then []
    else if Unsigned(x) then [TIdent(x)]
    else [TIdent(x[..1]), if x[1] == '-' then TMinus else TPlus, TNum(Whole(x[2..]) as real)]
  }

  function RawToks(j: JVal): (ts: Toks)
    requires Sound(j)
  {
    match j
    case JNull => [TNull]
    case JBool(b) => [if b then TTrue else TFalse]
    case JNum(minus, text) => (if minus then [TMinus] else []) + [TNum(NumOf(Mantissa(text)).value)] + ExponentToks(ExponentOf(text))
    case JStr(s) => [TStr(GarbleAll(s))]
    case JArr(items) => [TLBrack] + RawItems(items) + [TRBrack]
    case JObj(fields) => [TLBrace] + RawFields(fields) + [TRBrace]
  }

  function RawItems(js: seq<JVal>): (ts: Toks)
    requires forall k :: 0 <= k < |js| ==> Sound(js[k])
  {
    if js == [] then []
    else if |js| == 1 then RawToks(js[0])
    else RawToks(js[0]) + [TComma] + RawItems(js[1..])
  }

  function RawFields(fs: seq<JField>): (ts: Toks)
    requires forall k :: 0 <= k < |fs| ==> Sound(fs[k].value)
  {
    if fs == [] then []
    else
      assert fs[0].value < fs[0];
      if |fs| == 1 then [TStr(GarbleAll(fs[0].key)), TColon] + RawToks(fs[0].value)
      else [TStr(GarbleAll(fs[0].key)), TColon] + RawToks(fs[0].value) + [TComma] + RawFields(fs[1..])
  }

  /** What follows does not run together with the text of `j`. */
  predicate Free(j: JVal, y: string) {
    y == "" ||
    match j
    case JNull => !WordChar(y[0])
    case JBool(_) => !WordChar(y[0])
    case JNum(_, text) => !NumChar(y[0]) && (Unsigned(ExponentOf(text)) ==> !WordChar(y[0]))
    case _ => true
  }

  lemma {:induction false} GarbledLexes(s: string, x: string)
    ensures LexToks(Quote(s) + x) == Prepend([TStr(GarbleAll(s))], LexToks(x))
  {
    hide LexFrom, LexToks, LexOne, GarbleAll, EscapeAll;
    QuoteLexes(s, x);
    LexToksStep(Quote(s) + x);
    assert (Quote(s) + x)[|Quote(s)|..] == x;
  }

  lemma {:induction false} DigitsNumber(s: string)
    requires AllDigits(s)
    ensures NumOf(s) == Some(Whole(s) as real) && Run(s, NumChar) == |s|
  {
    RunIs(s, Digit, |s|);
    RunIs(s, NumChar, |s|);
  }

  lemma {:induction false} WordE(x: string)
    requires Unsigned(x) && Letter(x[0])
    ensures Digit(x[1]) && WordTok(x) == TIdent(x) && (forall k :: 0 <= k < |x| ==> WordChar(x[k]))
  {
    hide WordTok;
    assert Digit(x[1]) by { assert x[1] == x[1..][0]; }
    forall k | 1 <= k < |x| ensures WordChar(x[k]) { assert x[k] == x[1..][k - 1]; }
    NoKeyword(x);
  }

  lemma {:induction false} NoKeyword(x: string)
    requires |x| > 1 && Digit(x[1])
    ensures WordTok(x) == TIdent(x)
  {
  }

  lemma {:induction false} LoneE(c: char, x: string)
    requires (c == 'e' || c == 'E') && x != "" && (x[0] == '-' || x[0] == '+')
    ensures LexToks([c] + x) == Prepend([TIdent([c])], LexToks(x))
  {
    hide LexFrom, LexToks, LexOne, Run;
    var s := [c] + x;
    assert s[0] == c && s[1] == x[0];
    RunIs(s, WordChar, 1);
    assert s[..1] == [c] && s[1..] == x && WordTok([c]) == TIdent([c]);
    LexRun(s);
    LexToksStep(s);
  }

  function SignTok(c: char): (t: Tok) { if c == '-' then TMinus else TPlus }

  lemma {:induction false} SignLexes(c: char, x: string)
    requires c == '-' || c == '+'
    ensures LexToks([c] + x) == Prepend([SignTok(c)], LexToks(x))
  {
    hide LexToks;
    PunctLexes(c, SignTok(c), x);
  }

  lemma {:induction false} SignedLexes(x: string, y: string)
    requires x != "" && (x[0] == 'e' || x[0] == 'E') && Signed(x) && !Unsigned(x) && (y == "" || !NumChar(y[0]))
    ensures LexToks(x + y) == Prepend(ExponentToks(x), LexToks(y))
  {
    hide LexToks, Run, NumOf, Whole, WordTok, SignTok;
    var d := x[2..];
    var n := [TNum(Whole(d) as real)];
    DigitsNumber(d);
    NumLexes(d, y);
    SignLexes(x[1], d + y);
    LoneE(x[0], [x[1]] + (d + y));
    assert x + y == [x[0]] + ([x[1]] + (d + y));
    PrependTwice([SignTok(x[1])], n, LexToks(y));
    PrependTwice([TIdent([x[0]])], [SignTok(x[1])] + n, LexToks(y));
    SignedToks(x);
    assert [TIdent([x[0]])] + ([SignTok(x[1])] + n) == ExponentToks(x);
  }

  lemma {:induction false} SignedToks(x: string)
    requires x != "" && (x[0] == 'e' || x[0] == 'E') && Signed(x) && !Unsigned(x)
    ensures ExponentToks(x) == [TIdent([x[0]]), SignTok(x[1]), TNum(Whole(x[2..]) as real)]
  {
    assert x[..1] == [x[0]];
  }

  lemma {:induction false} ExponentLexes(x: string, y: string)
    requires Exponent(x) && (y == "" || (!NumChar(y[0]) && (Unsigned(x) ==> !WordChar(y[0]))))
    ensures LexToks(x + y) == Prepend(ExponentToks(x), LexToks(y))
  {
    hide LexToks, Run, NumOf, Whole, WordTok;
    if x == "" {
      assert x + y == y;
      EmptyPrefix(LexToks(y));
    } else if Unsigned(x) {
      WordE(x);
      WordLexes(x, y);
    } else {
      SignedLexes(x, y);
    }
  }

  lemma {:induction false} RawNumber(minus: bool, text: string, y: string)
    requires NumberText(text) && Free(JNum(minus, text), y)
    ensures LexToks(Render(JNum(minus, text)) + y) == Prepend(RawToks(JNum(minus, text)), LexToks(y))
  {
    hide LexToks, NumOf, Run, ExponentToks, Exponent;
    var m, x := Mantissa(text), ExponentOf(text);
    assert text == m + x;
    MantissaReads(text);
    ExponentLexes(x, y);
    ExponentStarts(x);
    assert x + y == "" || (x + y)[0] == if x == "" then y[0] else x[0];
    NumLexes(m, x + y);
    var n := [TNum(NumOf(m).value)];
    PrependTwice(n, ExponentToks(x), LexToks(y));
    if minus {
      MinusSign();
      PunctLexes('-', TMinus, m + (x + y));
      assert "-" + text + y == ['-'] + (m + (x + y));
      PrependTwice([TMinus], n + ExponentToks(x), LexToks(y));
      assert [TMinus] + (n + ExponentToks(x)) == [TMinus] + n + ExponentToks(x);
    } else {
      assert "" + text + y == m + (x + y);
      assert n + ExponentToks(x) == [] + n + ExponentToks(x);
    }
  }

  lemma {:induction false} ExponentStarts(x: string)
    requires Exponent(x)
    ensures x == "" || (Letter(x[0]) && !NumChar(x[0]))
  {
  }

  lemma {:induction false} MantissaReads(text: string)
    requires NumberText(text)
    ensures Readable(JNum(false, Mantissa(text)))
  {
    hide Run, NumOf;
    var m := Mantissa(text);
    RunIs(m, NumChar, |m|);
  }

  /** Every sound document lexes, readable or not. */
  lemma {:induction false} RawLexes(j: JVal, x: string)
    requires Sound(j) && Free(j, x)
    ensures LexToks(Render(j) + x) == Prepend(RawToks(j), LexToks(x))
    decreases j, 1
  {
    hide LexToks, RenderItems, RenderFields, RawItems, RawFields, Quote, NumOf, Run, NumberText;
    match j
    case JNull => WordLexes("null", x);
    case JBool(b) => WordLexes(if b then "true" else "false", x);
    case JNum(minus, text) => RawNumber(minus, text, x);
    case JStr(s) => GarbledLexes(s, x);
    case JArr(items) =>
      RawItemsLex(items, "]" + x);
      Enclosed('[', TLBrack, RenderItems(items), RawItems(items), ']', TRBrack, x);
    case JObj(fields) =>
      RawFieldsLex(fields, "}" + x);
      Enclosed('{', TLBrace, RenderFields(fields), RawFields(fields), '}', TRBrace, x);
  }

  lemma {:induction false} RawItemsLex(js: seq<JVal>, x: string)
    requires (forall k :: 0 <= k < |js| ==> Sound(js[k])) && Punct(x)
    ensures LexToks(RenderItems(js) + x) == Prepend(RawItems(js), LexToks(x))
    decreases js, 0
  {
    hide LexToks, Render, RawToks, Sound;
    if js == [] {
      assert "" + x == x;
      EmptyPrefix(LexToks(x));
    } else if |js| == 1 {
      RawLexes(js[0], x);
    } else {
      RawItemsLex(js[1..], x);
      RawLexes(js[0], "," + (RenderItems(js[1..]) + x));
      Listed(Render(js[0]), RawToks(js[0]), RenderItems(js[1..]), RawItems(js[1..]), x);
    }
  }

  lemma {:induction false} RawEntryLexes(f: JField, x: string)
    requires Sound(f.value) && Punct(x)
    ensures LexToks(Quote(f.key) + ":" + Render(f.value) + x) == Prepend([TStr(GarbleAll(f.key)), TColon] + RawToks(f.value), LexToks(x))
    decreases f, 2
  {
    hide LexToks, Render, RawToks, Sound, Quote, GarbleAll;
    RawLexes(f.value, x);
    var z := Render(f.value) + x;
    PunctLexes(':', TColon, z);
    GarbledLexes(f.key, [':'] + z);
    assert Quote(f.key) + ":" + Render(f.value) + x == Quote(f.key) + ([':'] + z);
    PrependTwice([TColon], RawToks(f.value), LexToks(x));
    PrependTwice([TStr(GarbleAll(f.key))], [TColon] + RawToks(f.value), LexToks(x));
    assert [TStr(GarbleAll(f.key))] + ([TColon] + RawToks(f.value)) == [TStr(GarbleAll(f.key)), TColon] + RawToks(f.value);
  }

  lemma {:induction false} RawFieldsLex(fs: seq<JField>, x: string)
    requires (forall k :: 0 <= k < |fs| ==> Sound(fs[k].value)) && Punct(x)
    ensures LexToks(RenderFields(fs) + x) == Prepend(RawFields(fs), LexToks(x))
    decreases fs, 0
  {
    hide LexToks, Render, RawToks, Sound, Quote, GarbleAll;
    if fs == [] {
      assert "" + x == x;
      EmptyPrefix(LexToks(x));
    } else if |fs| == 1 {
      RawEntryLexes(fs[0], x);
    } else {
      var e, et := Quote(fs[0].key) + ":" + Render(fs[0].value), [TStr(GarbleAll(fs[0].key)), TColon] + RawToks(fs[0].value);
      RawFieldsLex(fs[1..], x);
      RawEntryLexes(fs[0], "," + (RenderFields(fs[1..]) + x));
      Listed(e, et, RenderFields(fs[1..]), RawFields(fs[1..]), x);
    }
  }

  // ---------- strings with control characters: another value is read ----------

  /** The document the lexer takes it for. */
  function Garbled(j: JVal): (g: JVal) {
    match j
    case JStr(s) => JStr(GarbleAll(s))
    case JArr(items) => JArr(seq(|items|, k requires 0 <= k < |items| => Garbled(items[k])))
    case JObj(fields) => JObj(seq(|fields|, k requires 0 <= k < |fields| =>
        (assert fields[k].value < fields[k]; JField(GarbleAll(fields[k].key), Garbled(fields[k].value)))))
    case _ => j
  }

  function GarbledItems(js: seq<JVal>): (gs: seq<JVal>) { seq(|js|, k requires 0 <= k < |js| => Garbled(js[k])) }

  function GarbledFields(fs: seq<JField>): (gs: seq<JField>) {
    seq(|fs|, k requires 0 <= k < |fs| => JField(GarbleAll(fs[k].key), Garbled(fs[k].value)))
  }

  lemma {:induction false} GarbledIsPlain(s: string)
    ensures Plain(GarbleAll(s))
  {
    if s != "" {
      GarbledIsPlain(s[1..]);
      GarbleIsPlain(s[0]);
      hide Garble, PlainChar;
      PlainJoins(Garble(s[0]), GarbleAll(s[1..]));
    }
  }

  lemma {:induction false} GarbleIsPlain(c: char)
    ensures Plain(Garble(c))
  {
  }

  lemma {:induction false} PlainJoins(x: string, y: string)
    requires Plain(x) && Plain(y)
    ensures Plain(x + y)
  {
    hide PlainChar;
  }

  lemma {:induction false} GarbledReadable(j: JVal)
    requires Sound(j) && Plainly(j)
    ensures Readable(Garbled(j))
  {
    hide NumOf, Run, GarbleAll;
    match j
    case JNum(_, text) => PlainNumberReadable(j);
    case JStr(s) => GarbledIsPlain(s);
    case JArr(items) => forall k | 0 <= k < |items| ensures Readable(Garbled(items[k])) { GarbledReadable(items[k]); }
    case JObj(fields) =>
      forall k | 0 <= k < |fields| ensures Plain(GarbleAll(fields[k].key)) && Readable(Garbled(fields[k].value)) {
        assert fields[k].value < fields[k];
        GarbledIsPlain(fields[k].key);
        GarbledReadable(fields[k].value);
      }
    case _ =>
  }

  lemma {:induction false} PlainNumberReadable(j: JVal)
    requires j.JNum? && Sound(j) && Plainly(j)
    ensures Readable(j) && Mantissa(j.text) == j.text && ExponentOf(j.text) == "" && ValueOf(j) == Meaning(j) && RawToks(j) == ToksFor(j)
  {
    hide NumOf, Run;
    var m := Mantissa(j.text);
    assert j.text == m + ExponentOf(j.text) == m;
    var n := NumOf(m).value;
    assert n * 1.0 == n;
    var front := if j.minus then [TMinus] else [];
    assert front + [TNum(n)] + [] == front + [TNum(n)];
  }

  lemma {:induction false} GarbledToks(j: JVal)
    requires Sound(j) && Plainly(j) && Readable(Garbled(j))
    ensures RawToks(j) == ToksFor(Garbled(j))
    decreases j, 1
  {
    hide NumOf, Run, GarbleAll, RawItems, RawFields, ToksForItems, ToksForFields;
    match j
    case JNum(_, text) => PlainNumberReadable(j);
    case JArr(items) =>
      assert Garbled(j) == JArr(GarbledItems(items));
      forall k | 0 <= k < |items| ensures Readable(Garbled(items[k])) { assert GarbledItems(items)[k] == Garbled(items[k]); }
      GarbledItemToks(items);
    case JObj(fields) =>
      var gs := GarbledFields(fields);
      assert Garbled(j) == JObj(gs);
      ReadableFields(gs);
      forall k | 0 <= k < |fields| ensures Plain(GarbleAll(fields[k].key)) && Readable(Garbled(fields[k].value)) {
        assert gs[k] == JField(GarbleAll(fields[k].key), Garbled(fields[k].value));
      }
      GarbledFieldToks(fields);
    case _ =>
  }

  lemma {:induction false} GarbledItemToks(js: seq<JVal>)
    requires forall k :: 0 <= k < |js| ==> Sound(js[k]) && Plainly(js[k]) && Readable(Garbled(js[k]))
    ensures RawItems(js) == ToksForItems(GarbledItems(js))
    decreases js, 0
  {
    hide RawToks, ToksFor, Garbled, Sound, Plainly, Readable;
    var gs := GarbledItems(js);
    if js != [] {
      GarbledToks(js[0]);
      if |js| > 1 {
        assert gs[1..] == GarbledItems(js[1..]);
        GarbledItemToks(js[1..]);
      }
    }
  }

  lemma {:induction false} GarbledFieldToks(fs: seq<JField>)
    requires forall k :: 0 <= k < |fs| ==> Sound(fs[k].value) && Plainly(fs[k].value) && Readable(Garbled(fs[k].value)) && Plain(GarbleAll(fs[k].key))
    ensures RawFields(fs) == ToksForFields(GarbledFields(fs))
    decreases fs, 0
  {
    hide RawToks, ToksFor, Garbled, Sound, Plainly, Readable, GarbleAll, Plain;
    var gs := GarbledFields(fs);
    if fs != [] {
      assert fs[0].value < fs[0];
      GarbledToks(fs[0].value);
      if |fs| > 1 {
        assert gs[1..] == GarbledFields(fs[1..]);
        GarbledFieldToks(fs[1..]);
      }
    }
  }

  lemma {:induction false} MeaningAt(fs: seq<JField>, k: nat)
    requires k < |fs| && (forall i :: 0 <= i < |fs| ==> Sound(fs[i].value)) && (forall i, l :: 0 <= i < l < |fs| ==> fs[i].key != fs[l].key)
    ensures fs[k].key in MeaningMap(fs) && MeaningMap(fs)[fs[k].key] == Meaning(fs[k].value)
    ensures forall key :: key in MeaningMap(fs) ==> exists i :: 0 <= i < |fs| && fs[i].key == key
  {
    hide Meaning, Sound;
    MeaningKeys(fs);
    if k == 0 {
      MeaningKeys(fs[1..]);
    } else {
      MeaningAt(fs[1..], k - 1);
    }
  }

  lemma {:induction false} MeaningKeys(fs: seq<JField>)
    requires forall i :: 0 <= i < |fs| ==> Sound(fs[i].value)
    ensures forall key :: key in MeaningMap(fs) ==> exists i :: 0 <= i < |fs| && fs[i].key == key
  {
    hide Meaning, Sound;
    if fs != [] {
      MeaningKeys(fs[1..]);
      forall key | key in MeaningMap(fs) ensures exists i :: 0 <= i < |fs| && fs[i].key == key {
        if key == fs[0].key {
          assert fs[0].key == key;
        } else {
          assert key in MeaningMap(fs[1..]);
          var i :| 0 <= i < |fs[1..]| && fs[1..][i].key == key;
          assert fs[i + 1].key == key;
        }
      }
    }
  }

  lemma {:induction false} FieldMapAt(fs: seq<JField>, k: nat)
    requires k < |fs| && (forall i :: 0 <= i < |fs| ==> Plain(fs[i].key) && Readable(fs[i].value))
    requires forall i, l :: 0 <= i < l < |fs| ==> fs[i].key != fs[l].key
    ensures fs[k].key in FieldMap(fs) && FieldMap(fs)[fs[k].key] == ValueOf(fs[k].value)
  {
    hide ValueOf, Readable, Plain;
    if k == 0 {
      FieldKeys(fs[1..]);
    } else {
      FieldMapAt(fs[1..], k - 1);
    }
  }

  lemma {:induction false} FieldKeys(fs: seq<JField>)
    requires forall i :: 0 <= i < |fs| ==> Plain(fs[i].key) && Readable(fs[i].value)
    ensures forall key :: key in FieldMap(fs) ==> exists i :: 0 <= i < |fs| && fs[i].key == key
  {
    hide ValueOf, Readable, Plain;
    if fs != [] {
      FieldKeys(fs[1..]);
      forall key | key in FieldMap(fs) ensures exists i :: 0 <= i < |fs| && fs[i].key == key {
        if key == fs[0].key {
          assert fs[0].key == key;
        } else {
          assert key in FieldMap(fs[1..]);
          var i :| 0 <= i < |fs[1..]| && fs[1..][i].key == key;
          assert fs[i + 1].key == key;
        }
      }
    }
  }

  /** Without exponents, what is read is what was meant exactly when every string is plain. */
  lemma {:induction false} GarbledDiffers(j: JVal)
    requires Sound(j) && Plainly(j) && Readable(Garbled(j))
    ensures ValueOf(Garbled(j)) == Meaning(j) <==> PlainStrings(j)
    decreases j, 1
  {
    hide NumOf, Run, GarbleAll, FieldMap, MeaningMap;
    match j
    case JNum(_, text) => PlainNumberReadable(j);
    case JStr(s) => ReadBackIffPlain(s);
    case JArr(items) => GarbledItemsDiffer(items);
    case JObj(fields) =>
      assert Garbled(j) == JObj(GarbledFields(fields));
      GarbledFieldsDiffer(fields);
    case _ =>
  }

  lemma {:induction false} GarbledItemsDiffer(items: seq<JVal>)
    requires Sound(JArr(items)) && Plainly(JArr(items)) && Readable(Garbled(JArr(items)))
    ensures ValueOf(Garbled(JArr(items))) == Meaning(JArr(items)) <==> PlainStrings(JArr(items))
    decreases items, 0
  {
    var g := Garbled(JArr(items));
    forall k | 0 <= k < |items| ensures Readable(Garbled(items[k])) && (ValueOf(Garbled(items[k])) == Meaning(items[k]) <==> PlainStrings(items[k])) {
      assert g.items[k] == Garbled(items[k]);
      GarbledDiffers(items[k]);
    }
    var x, y := ValueOf(g).items, Meaning(JArr(items)).items;
    assert forall k :: 0 <= k < |items| ==> x[k] == ValueOf(Garbled(items[k])) && y[k] == Meaning(items[k]);
    if PlainStrings(JArr(items)) { assert x == y; }
  }

  lemma {:induction false} GarbledFieldsDiffer(fs: seq<JField>)
    requires Sound(JObj(fs)) && Plainly(JObj(fs)) && Readable(JObj(GarbledFields(fs)))
    ensures FieldMap(GarbledFields(fs)) == MeaningMap(fs) <==> PlainStrings(JObj(fs))
    decreases fs, 0
  {
    hide NumOf, Run, GarbleAll, FieldMap, MeaningMap, Garbled, ValueOf, Meaning, Plain;
    var gs := GarbledFields(fs);
    forall k | 0 <= k < |fs|
      ensures Sound(fs[k].value) && Plainly(fs[k].value) && Readable(Garbled(fs[k].value))
      ensures ValueOf(Garbled(fs[k].value)) == Meaning(fs[k].value) <==> PlainStrings(fs[k].value)
    {
      assert fs[k].value < fs[k];
      assert gs[k].value == Garbled(fs[k].value);
      GarbledDiffers(fs[k].value);
    }
    if forall k :: 0 <= k < |fs| ==> Plain(fs[k].key) {
      SameKeysDiffer(fs, gs);
    } else {
      var k :| 0 <= k < |fs| && !Plain(fs[k].key);
      LostKey(fs, gs, k);
    }
  }

  /** A key that is not plain is in the document and not in what is read. */
  lemma {:induction false} LostKey(fs: seq<JField>, gs: seq<JField>, k: nat)
    requires Sound(JObj(fs)) && gs == GarbledFields(fs) && Readable(JObj(gs)) && k < |fs| && !Plain(fs[k].key)
    ensures FieldMap(gs) != MeaningMap(fs)
  {
    hide NumOf, Run, GarbleAll, FieldMap, MeaningMap, Garbled, ValueOf, Meaning, Plain;
    MeaningAt(fs, k);
    FieldKeys(gs);
    forall i | 0 <= i < |gs| ensures gs[i].key != fs[k].key { GarbledIsPlain(fs[i].key); }
    assert fs[k].key !in FieldMap(gs);
  }

  lemma {:induction false} SameKeysDiffer(fs: seq<JField>, gs: seq<JField>)
    requires Sound(JObj(fs)) && gs == GarbledFields(fs) && Readable(JObj(gs)) && forall k :: 0 <= k < |fs| ==> Plain(fs[k].key)
    requires forall k :: 0 <= k < |fs| ==> Readable(Garbled(fs[k].value))
    requires forall k :: 0 <= k < |fs| ==> (ValueOf(Garbled(fs[k].value)) == Meaning(fs[k].value) <==> PlainStrings(fs[k].value))
    ensures FieldMap(gs) == MeaningMap(fs) <==> forall k :: 0 <= k < |fs| ==> PlainStrings(fs[k].value)
  {
    hide NumOf, Run, GarbleAll, FieldMap, MeaningMap, Garbled, ValueOf, Meaning, PlainStrings, Readable, Sound;
    forall k | 0 <= k < |fs| ensures gs[k].key == fs[k].key && gs[k].value == Garbled(fs[k].value) { ReadBackIffPlain(fs[k].key); }
    SoundFields(fs);
    ReadableFields(gs);
    var x, y := FieldMap(gs), MeaningMap(fs);
    forall k: nat | k < |fs|
      ensures fs[k].key in x && fs[k].key in y && x[fs[k].key] == ValueOf(Garbled(fs[k].value)) && y[fs[k].key] == Meaning(fs[k].value)
    {
      FieldMapAt(gs, k);
      MeaningAt(fs, k);
    }
    FieldKeys(gs);
    MeaningKeys(fs);
    if forall k :: 0 <= k < |fs| ==> PlainStrings(fs[k].value) {
      forall key | key in x ensures key in y && x[key] == y[key] {
        var i :| 0 <= i < |gs| && gs[i].key == key;
        assert fs[i].key == key;
      }
      forall key | key in y ensures key in x {
        var i :| 0 <= i < |fs| && fs[i].key == key;
      }
      assert x == y;
    }
  }

  lemma {:induction false} SoundFields(fs: seq<JField>)
    requires Sound(JObj(fs))
    ensures (forall k :: 0 <= k < |fs| ==> Sound(fs[k].value)) && (forall k, l :: 0 <= k < l < |fs| ==> fs[k].key != fs[l].key)
  {
  }

  lemma {:induction false} ReadableFields(fs: seq<JField>)
    requires Readable(JObj(fs))
    ensures forall k :: 0 <= k < |fs| ==> Plain(fs[k].key) && Readable(fs[k].value)
  {
  }

  // ---------- numbers with an exponent: no literal is read ----------

  /** In a literal every identifier is a key, with its colon. */
  ghost predicate WordsAreKeys(ts: Toks, i: nat, n: nat) {
    forall p: nat :: i <= p < n && Peek(ts, p).TIdent? ==> Peek(ts, p + 1) == TColon
  }

  lemma {:induction false} SkipWords(ts: Toks, i: nat)
    requires i <= |ts|
    ensures WordsAreKeys(ts, i, SkipNewlines(ts, i))
    decreases |ts| - i
  {
    if i < |ts| && ts[i] == TNewline { SkipWords(ts, i + 1); }
  }

  lemma {:induction false} AfterItemWords(ts: Toks, i: nat)
    requires i <= |ts|
    ensures WordsAreKeys(ts, i, AfterItem(ts, i))
  {
    hide SkipNewlines;
    SkipWords(ts, i);
    var k := SkipNewlines(ts, i);
    if Peek(ts, k) == TComma { SkipWords(ts, k + 1); }
  }

  lemma {:induction false} LiteralWords(ts: Toks, i: nat)
    requires i <= |ts| && LiteralAt(ts, i).LYes?
    ensures WordsAreKeys(ts, i, LiteralAt(ts, i).next)
    decreases |ts| - i, 1
  {
    hide LiteralItems, LiteralFields, SkipNewlines, MapOf;
    var k := SkipNewlines(ts, i + 1);
    match ts[i]
    case TLBrack =>
      SkipWords(ts, i + 1);
      ItemWords(ts, k);
    case TLBrace =>
      SkipWords(ts, i + 1);
      FieldWords(ts, k);
    case _ =>
  }

  lemma {:induction false} ItemWords(ts: Toks, i: nat)
    requires i <= |ts| && LiteralItems(ts, i).LYes?
    ensures WordsAreKeys(ts, i, LiteralItems(ts, i).next)
    decreases |ts| - i, 2
  {
    hide LiteralAt, AfterItem;
    if Peek(ts, i) != TRBrack {
      var j := LiteralAt(ts, i).next;
      LiteralWords(ts, i);
      AfterItemWords(ts, j);
      ItemWords(ts, AfterItem(ts, j));
    }
  }

  lemma {:induction false} FieldWords(ts: Toks, i: nat)
    requires i <= |ts| && LiteralFields(ts, i).LYes?
    ensures WordsAreKeys(ts, i, LiteralFields(ts, i).next)
    decreases |ts| - i, 2
  {
    hide LiteralAt, AfterItem, WordOf;
    if Peek(ts, i) != TRBrace {
      var j := LiteralAt(ts, i + 2).next;
      LiteralWords(ts, i + 2);
      AfterItemWords(ts, j);
      FieldWords(ts, AfterItem(ts, j));
    }
  }

  // the tokens of such a document

  ghost predicate NoNewline(ts: Toks) { forall k :: 0 <= k < |ts| ==> ts[k] != TNewline }

  /** A word stands at `p`, and no colon behind it. */
  ghost predicate Loose(ts: Toks, p: nat) { p < |ts| && ts[p].TIdent? && (p + 1 < |ts| ==> ts[p + 1] != TColon) }

  lemma {:induction false} LooseInside(xs: Toks, ts: Toks, ys: Toks, p: nat)
    requires Loose(ts, p) && (ys != [] ==> ys[0] != TColon)
    ensures Loose(xs + ts + ys, |xs| + p)
  {
    var all := xs + ts + ys;
    assert all[|xs| + p] == ts[p];
    if |xs| + p + 1 < |all| { assert all[|xs| + p + 1] == if p + 1 < |ts| then ts[p + 1] else ys[0]; }
  }

  lemma {:induction false} RawNoNewline(j: JVal)
    requires Sound(j)
    ensures NoNewline(RawToks(j)) && RawToks(j) != []
    decreases j, 1
  {
    hide NumOf, Run, RawItems, RawFields, GarbleAll, ExponentToks, Exponent;
    match j
    case JNum(minus, text) => NumberNoNewline(minus, text);
    case JArr(items) =>
      ItemsNoNewline(items);
      EnclosedNoNewline(TLBrack, RawItems(items), TRBrack);
    case JObj(fields) =>
      FieldsNoNewline(fields);
      EnclosedNoNewline(TLBrace, RawFields(fields), TRBrace);
    case _ =>
  }

  lemma {:induction false} NumberNoNewline(minus: bool, text: string)
    requires NumberText(text)
    ensures NoNewline(RawToks(JNum(minus, text))) && RawToks(JNum(minus, text)) != []
  {
    hide NumOf, Run;
  }

  lemma {:induction false} EnclosedNoNewline(open: Tok, ts: Toks, close: Tok)
    requires open != TNewline && close != TNewline && NoNewline(ts)
    ensures NoNewline([open] + ts + [close])
  {
  }

  lemma {:induction false} ItemsNoNewline(js: seq<JVal>)
    requires forall k :: 0 <= k < |js| ==> Sound(js[k])
    ensures NoNewline(RawItems(js))
    decreases js, 0
  {
    hide RawToks, Sound;
    if js != [] {
      RawNoNewline(js[0]);
      if |js| > 1 { ItemsNoNewline(js[1..]); }
    }
  }

  lemma {:induction false} FieldsNoNewline(fs: seq<JField>)
    requires forall k :: 0 <= k < |fs| ==> Sound(fs[k].value)
    ensures NoNewline(RawFields(fs))
    decreases fs, 0
  {
    hide RawToks, Sound, GarbleAll;
    if fs != [] {
      assert fs[0].value < fs[0];
      RawNoNewline(fs[0].value);
      if |fs| > 1 { FieldsNoNewline(fs[1..]); }
    }
  }

  lemma {:induction false} ExponentLoose(x: string)
    requires Exponent(x) && x != ""
    ensures Loose(ExponentToks(x), 0)
  {
  }

  lemma {:induction false} LooseNumber(j: JVal) returns (p: nat)
    requires Sound(j) && !Plainly(j) && j.JNum?
    ensures Loose(RawToks(j), p)
  {
    hide NumOf, Run, Loose, ExponentToks, Exponent, RawToks, Sound, Plainly;
    var x, n := NumberShape(j);
    var front := (if j.minus then [TMinus] else []) + [TNum(n)];
    ExponentLoose(x);
    LooseInside(front, ExponentToks(x), [], 0);
    p := |front|;
    assert front + ExponentToks(x) + [] == RawToks(j);
  }

  lemma {:induction false} LooseWord(j: JVal) returns (p: nat)
    requires Sound(j) && !Plainly(j)
    ensures Loose(RawToks(j), p)
    decreases j, 1
  {
    hide NumOf, Run, RawItems, RawFields, GarbleAll, Loose, NumberText, ExponentToks, Exponent, ExponentOf;
    match j
    case JNum(minus, text) => p := LooseNumber(j);
    case JArr(items) =>
      var q := LooseItem(items);
      LooseInside([TLBrack], RawItems(items), [TRBrack], q);
      p := 1 + q;
    case JObj(fields) =>
      var q := LooseField(fields);
      LooseInside([TLBrace], RawFields(fields), [TRBrace], q);
      p := 1 + q;
  }

  lemma {:induction false} LooseItem(js: seq<JVal>) returns (p: nat)
    requires (forall k :: 0 <= k < |js| ==> Sound(js[k])) && exists k :: 0 <= k < |js| && !Plainly(js[k])
    ensures Loose(RawItems(js), p)
    decreases js, 0
  {
    hide RawToks, Sound, Plainly, Loose;
    if |js| == 1 {
      p := LooseWord(js[0]);
    } else if !Plainly(js[0]) {
      var q := LooseWord(js[0]);
      LooseInside([], RawToks(js[0]), [TComma] + RawItems(js[1..]), q);
      assert [] + RawToks(js[0]) + ([TComma] + RawItems(js[1..])) == RawItems(js);
      p := q;
    } else {
      var k :| 0 <= k < |js| && !Plainly(js[k]);
      assert js[1..][k - 1] == js[k];
      var q := LooseItem(js[1..]);
      var xs := RawToks(js[0]) + [TComma];
      LooseInside(xs, RawItems(js[1..]), [], q);
      assert xs + RawItems(js[1..]) + [] == RawItems(js);
      p := |xs| + q;
    }
  }

  lemma {:induction false} LooseField(fs: seq<JField>) returns (p: nat)
    requires (forall k :: 0 <= k < |fs| ==> Sound(fs[k].value)) && exists k :: 0 <= k < |fs| && !Plainly(fs[k].value)
    ensures Loose(RawFields(fs), p)
    decreases fs, 0
  {
    hide RawToks, Sound, Plainly, Loose, GarbleAll;
    var head := [TStr(GarbleAll(fs[0].key)), TColon];
    assert fs[0].value < fs[0];
    if |fs| == 1 {
      var q := LooseWord(fs[0].value);
      LooseInside(head, RawToks(fs[0].value), [], q);
      assert head + RawToks(fs[0].value) + [] == RawFields(fs);
      p := |head| + q;
    } else if !Plainly(fs[0].value) {
      var q := LooseWord(fs[0].value);
      LooseInside(head, RawToks(fs[0].value), [TComma] + RawFields(fs[1..]), q);
      assert head + RawToks(fs[0].value) + ([TComma] + RawFields(fs[1..])) == RawFields(fs);
      p := |head| + q;
    } else {
      var k :| 0 <= k < |fs| && !Plainly(fs[k].value);
      assert fs[1..][k - 1] == fs[k];
      var q := LooseField(fs[1..]);
      var xs := head + RawToks(fs[0].value) + [TComma];
      LooseInside(xs, RawFields(fs[1..]), [], q);
      assert xs + RawFields(fs[1..]) + [] == RawFields(fs);
      p := |xs| + q;
    }
  }

  // their brackets

  lemma {:induction false} RawLevel(j: JVal, us: Toks, i: nat)
    requires Sound(j) && At(us, i, RawToks(j))
    ensures Level(us, i, i + |RawToks(j)|)
    ensures j.JArr? || j.JObj? ==> forall k: nat :: i < k < i + |RawToks(j)| ==> Depth(us, k) > Depth(us, i)
    decreases j, 1
  {
    hide NumOf, Run, RawItems, RawFields, At, Level, Shut, GarbleAll, Depth, ExponentToks;
    match j
    case JArr(items) =>
      var ts := RawItems(items) + [TRBrack];
      assert [TLBrack] + RawItems(items) + [TRBrack] == [TLBrack] + ts;
      AtSplit(us, i, [TLBrack], ts);
      AtOne(us, i, TLBrack);
      ItemsShut(items, us, i + 1);
      LevelBracket(us, i, i + 1 + |ts|);
    case JObj(fields) =>
      var ts := RawFields(fields) + [TRBrace];
      assert [TLBrace] + RawFields(fields) + [TRBrace] == [TLBrace] + ts;
      AtSplit(us, i, [TLBrace], ts);
      AtOne(us, i, TLBrace);
      FieldsShut(fields, us, i + 1);
      LevelBracket(us, i, i + 1 + |ts|);
    case JNum(minus, text) =>
      NumberFlat(minus, text);
      FlatLevel(us, i, RawToks(j));
    case _ => FlatLevel(us, i, RawToks(j));
  }

  lemma {:induction false} NumberFlat(minus: bool, text: string)
    requires NumberText(text)
    ensures Flat(RawToks(JNum(minus, text)))
  {
    hide NumOf, Run;
  }

  /** Tokens without brackets. */
  ghost predicate Flat(ts: Toks) { forall k :: 0 <= k < |ts| ==> Weight(ts[k]) == 0 }

  lemma {:induction false} FlatLevel(us: Toks, i: nat, ts: Toks)
    requires At(us, i, ts) && Flat(ts)
    ensures Level(us, i, i + |ts|)
    decreases |ts|
  {
    hide Level, Depth, At;
    LevelStep(us, i);
    if ts != [] {
      assert ts == [ts[0]] + ts[1..];
      AtSplit(us, i, [ts[0]], ts[1..]);
      AtOne(us, i, ts[0]);
      FlatLevel(us, i + 1, ts[1..]);
      LevelThen(us, i, i + 1, i + |ts|);
    }
  }

  lemma {:induction false} ItemsShut(js: seq<JVal>, us: Toks, i: nat)
    requires (forall k :: 0 <= k < |js| ==> Sound(js[k])) && At(us, i, RawItems(js) + [TRBrack])
    ensures Shut(us, i, i + |RawItems(js)| + 1)
    decreases js, 0
  {
    hide RawToks, Sound, At, Level, Shut, Depth;
    if js == [] {
      assert [] + [TRBrack] == [TRBrack];
      AtOne(us, i, TRBrack);
      LevelStep(us, i);
    } else if |js| == 1 {
      var n := i + |RawToks(js[0])|;
      AtSplit(us, i, RawToks(js[0]), [TRBrack]);
      AtOne(us, n, TRBrack);
      RawLevel(js[0], us, i);
      LevelStep(us, n);
      LevelThen(us, i, n, n + 1);
    } else {
      var n := i + |RawToks(js[0])|;
      AtFour(us, i, RawToks(js[0]), TComma, RawItems(js[1..]), TRBrack);
      RawLevel(js[0], us, i);
      LevelStep(us, n);
      LevelThen(us, i, n, n + 1);
      ItemsShut(js[1..], us, n + 1);
      LevelThen(us, i, n + 1, n + 1 + |RawItems(js[1..])| + 1);
    }
  }

  lemma {:induction false} EntryLevel(f: JField, us: Toks, i: nat)
    requires Sound(f.value) && At(us, i, [TStr(GarbleAll(f.key)), TColon] + RawToks(f.value))
    ensures Level(us, i, i + 2 + |RawToks(f.value)|)
    decreases f, 2
  {
    hide RawToks, Sound, At, Level, Shut, Depth, GarbleAll;
    var head := [TStr(GarbleAll(f.key)), TColon];
    AtSplit(us, i, head, RawToks(f.value));
    FlatLevel(us, i, head);
    RawLevel(f.value, us, i + 2);
    LevelThen(us, i, i + 2, i + 2 + |RawToks(f.value)|);
  }

  lemma {:induction false} FieldsShut(fs: seq<JField>, us: Toks, i: nat)
    requires (forall k :: 0 <= k < |fs| ==> Sound(fs[k].value)) && At(us, i, RawFields(fs) + [TRBrace])
    ensures Shut(us, i, i + |RawFields(fs)| + 1)
    decreases fs, 0
  {
    hide RawToks, Sound, At, Level, Shut, Depth, GarbleAll;
    if fs == [] {
      assert [] + [TRBrace] == [TRBrace];
      AtOne(us, i, TRBrace);
      LevelStep(us, i);
    } else {
      var e := [TStr(GarbleAll(fs[0].key)), TColon] + RawToks(fs[0].value);
      var n := i + |e|;
      if |fs| == 1 {
        AtSplit(us, i, e, [TRBrace]);
        AtOne(us, n, TRBrace);
        EntryLevel(fs[0], us, i);
        LevelStep(us, n);
        LevelThen(us, i, n, n + 1);
      } else {
        AtFour(us, i, e, TComma, RawFields(fs[1..]), TRBrace);
        EntryLevel(fs[0], us, i);
        LevelStep(us, n);
        LevelThen(us, i, n, n + 1);
        FieldsShut(fs[1..], us, n + 1);
        LevelThen(us, i, n + 1, n + 1 + |RawFields(fs[1..])| + 1);
      }
    }
  }

  // the program

  /** With a loose word among the tokens up to the end of the line, a literal read from them does not end there. */
  lemma {:induction false} NoLiteral(us: Toks, k: nat, w: Toks, p: nat)
    requires k <= |us| && At(us, k, w) && NoNewline(w) && Loose(w, p) && Peek(us, k + |w|) == TNewline && LiteralAt(us, k).LYes?
    ensures Peek(us, LiteralAt(us, k).next) != TNewline
  {
    hide LiteralAt;
    var n := LiteralAt(us, k).next;
    LiteralWords(us, k);
    forall l | 0 <= l < |w| ensures us[k + l] == w[l] { assert us[k..k + |w|][l] == w[l]; }
    assert Peek(us, k + p) == w[p];
    assert Peek(us, k + p + 1) != TColon by { if p + 1 < |w| { assert Peek(us, k + p + 1) == w[p + 1]; } }
    if n < k + |w| { assert us[n] == w[n - k]; }
  }

  /** A line `NAME = ` with such tokens up to its end is no constant. */
  lemma {:induction false} NoConst(us: Toks, i: nat, j: JVal)
    requires Sound(j) && !Plainly(j) && i + 2 <= |us| && At(us, i + 2, RawToks(j)) && Peek(us, i + 2 + |RawToks(j)|) == TNewline
    ensures !StartsConst(us, i)
  {
    hide RawToks, LiteralAt, Sound, Plainly, SurfaceName, Loose, At;
    var p := LooseWord(j);
    RawNoNewline(j);
    if LiteralAt(us, i + 2).LYes? { NoLiteral(us, i + 2, RawToks(j), p); }
  }

  /** A bracket that opens at `k` is closed for the first time at `n`. */
  ghost predicate FirstClosed(us: Toks, k: nat, n: nat) {
    k < n && Level(us, k, n) && forall l: nat :: k < l < n ==> Depth(us, l) > Depth(us, k)
  }

  lemma {:induction false} ClosedOnce(us: Toks, k: nat, m: nat, n: nat)
    requires FirstClosed(us, k, m) && FirstClosed(us, k, n)
    ensures m == n
  {
    hide Depth, Inside;
  }

  lemma {:induction false} RawClosed(j: JVal, us: Toks, k: nat)
    requires Sound(j) && (j.JArr? || j.JObj?) && At(us, k, RawToks(j))
    ensures FirstClosed(us, k, k + |RawToks(j)|)
  {
    RawOpens(j);
    hide RawToks, Sound, Depth, Level, At;
    RawLevel(j, us, k);
  }

  lemma {:induction false} PrefixClosed(us: Toks, k: nat)
    requires k < |us| && Opening(us[k]) && ParsePrefix(us, k).Yes?
    ensures FirstClosed(us, k, ParsePrefix(us, k).next)
  {
    hide ParsePrefix, Depth, Level;
    EnclosedBalanced(us, k);
  }

  lemma {:induction false} BracketEnds(us: Toks, k: nat, n: nat)
    requires k < |us| && Opening(us[k]) && FirstClosed(us, k, n) && Peek(us, n) == TNewline && ParseExpr(us, k, 0).Yes?
    ensures ParseExpr(us, k, 0).next == n
  {
    hide ParseExpr, ParsePrefix, FirstClosed, ParsePostfix, ParseBinary;
    PrefixOf(us, k);
    PrefixClosed(us, k);
    var p := ParsePrefix(us, k);
    ClosedOnce(us, k, p.next, n);
    NewlineStops(us, p.next, p.value);
    ExprOf(us, k);
  }

  /** What opens with a bracket is an expression up to where that closes. */
  lemma {:induction false} LineEnds(us: Toks, i: nat, n: nat)
    requires i + 2 < |us| && Opening(us[i + 2]) && us[i + 2] != TInvoke && FirstClosed(us, i + 2, n) && Peek(us, n) == TNewline
    requires NamesConst(us, i) && !StartsConst(us, i) && ParseItem(us, i).Yes?
    ensures ParseItem(us, i).value.Line? && ParseItem(us, i).next == n
  {
    hide LiteralAt, NamesConst, StartsConst, ParseExpr, ParseItem, ParseStmt, Opening, FirstClosed;
    AssignsExpr(us, i);
    BracketEnds(us, i + 2, n);
  }

  lemma {:induction false} RawOpens(j: JVal)
    requires Sound(j) && (j.JArr? || j.JObj?)
    ensures RawToks(j) != [] && Opening(RawToks(j)[0]) && RawToks(j)[0] != TInvoke
  {
    hide RawItems, RawFields;
  }

  lemma {:induction false} PrefixOf(us: Toks, k: nat)
    requires k <= |us| && ParseExpr(us, k, 0).Yes?
    ensures ParsePrefix(us, k).Yes?
  {
    hide ParsePrefix, ParsePostfix, ParseBinary;
  }

  lemma {:induction false} ExprOf(us: Toks, k: nat)
    requires k <= |us| && ParsePrefix(us, k).Yes?
    requires var p := ParsePrefix(us, k); ParsePostfix(us, p.next, p.value) == Yes(p.value, p.next) && ParseBinary(us, p.next, p.value, 0) == Yes(p.value, p.next)
    ensures ParseExpr(us, k, 0) == ParsePrefix(us, k)
  {
    hide ParsePrefix, ParsePostfix, ParseBinary;
  }

  lemma {:induction false} NewlineStops(us: Toks, i: nat, lhs: Expr)
    requires i <= |us| && (Peek(us, i).TNewline? || Peek(us, i).TIdent?)
    ensures ParsePostfix(us, i, lhs) == Yes(lhs, i) && forall bp: nat :: ParseBinary(us, i, lhs, bp) == Yes(lhs, i)
  {
    hide ParseExpr;
  }

  lemma {:induction false} AssignsExpr(us: Toks, i: nat)
    requires i + 2 < |us| && NamesConst(us, i) && !StartsConst(us, i) && ParseItem(us, i).Yes? && us[i + 2] != TInvoke
    ensures ParseExpr(us, i + 2, 0).Yes?
    ensures ParseItem(us, i) == Yes(Line(Assign([us[i].s], ParseExpr(us, i + 2, 0).value)), ParseExpr(us, i + 2, 0).next)
  {
    hide LiteralAt, ParseExpr, ParseInvoke, SurfaceName;
    assert ParsePath(us, i + 1, [us[i].s]) == Yes([us[i].s], i + 1);
  }

  /** Where the tokens of a number with an exponent stand: a sign, the number, and the word. */
  lemma {:induction false} NumberStands(us: Toks, k: nat, j: JVal) returns (m: nat)
    requires Sound(j) && j.JNum? && !Plainly(j) && At(us, k, RawToks(j)) && k + |RawToks(j)| < |us| && us[k + |RawToks(j)|] == TNewline
    ensures m == (if j.minus then k + 1 else k) && m + 2 < |us| && us[m].TNum? && us[m + 1].TIdent?
    ensures j.minus ==> us[k] == TMinus
    ensures Peek(us, m + 2) != TEq && Peek(us, m + 2) != TDot
  {
    hide NumOf, Run, At, RawToks, ExponentToks, Exponent, NumberText, Sound, Plainly;
    var x, n := NumberShape(j);
    var front := if j.minus then [TMinus] else [];
    m := k + |front|;
    AtSplit(us, k, front, [TNum(n)] + ExponentToks(x));
    if j.minus { AtOne(us, k, TMinus); }
    PoweredStands(us, m, n, x);
  }

  lemma {:induction false} PoweredStands(us: Toks, m: nat, n: Amount, x: string)
    requires Exponent(x) && x != "" && At(us, m, [TNum(n)] + ExponentToks(x))
    requires m + 1 + |ExponentToks(x)| < |us| && us[m + 1 + |ExponentToks(x)|] == TNewline
    ensures m + 2 < |us| && us[m].TNum? && us[m + 1].TIdent? && Peek(us, m + 2) != TEq && Peek(us, m + 2) != TDot
  {
    hide At, ExponentToks, Exponent;
    ExponentHead(x);
    AtSplit(us, m, [TNum(n)], ExponentToks(x));
    AtOne(us, m, TNum(n));
    AtFirst(us, m + 1, ExponentToks(x));
    AfterE(us, m + 1, x, m + 1 + |ExponentToks(x)|);
  }

  lemma {:induction false} NumberShape(j: JVal) returns (x: string, n: Amount)
    requires Sound(j) && j.JNum? && !Plainly(j)
    ensures x != "" && Exponent(x) && RawToks(j) == (if j.minus then [TMinus] else []) + ([TNum(n)] + ExponentToks(x))
  {
    hide NumOf, Run, ExponentToks, Exponent;
    x, n := ExponentOf(j.text), NumOf(Mantissa(j.text)).value;
    var front := if j.minus then [TMinus] else [];
    assert front + [TNum(n)] + ExponentToks(x) == front + ([TNum(n)] + ExponentToks(x));
  }

  lemma {:induction false} ExponentHead(x: string)
    requires Exponent(x) && x != ""
    ensures ExponentToks(x) != [] && ExponentToks(x)[0].TIdent?
  {
  }

  /** A bare number with an exponent leaves a line that does not parse. */
  lemma {:induction false} NumberFails(us: Toks, i: nat, j: JVal)
    requires Sound(j) && j.JNum? && !Plainly(j) && At(us, i + 2, RawToks(j)) && i + 2 + |RawToks(j)| < |us| && us[i + 2 + |RawToks(j)|] == TNewline
    requires NamesConst(us, i) && !StartsConst(us, i) && ParseItem(us, i).Yes?
    ensures ParseItems'(us, ParseItem(us, i).next).None?
  {
    hide RawToks, LiteralAt, SurfaceName, ParseExpr, ParseItems', ParseItem, Sound, Plainly, At;
    var m := NumberStands(us, i + 2, j);
    AssignsExpr(us, i);
    NumberStops(us, m, UNARY_POWER);
    NumberStops(us, m, 0);
    if j.minus { SignedStops(us, i + 2); }
    WordFails(us, m + 1);
  }

  lemma {:induction false} AfterE(us: Toks, i: nat, x: string, n: nat)
    requires Exponent(x) && x != "" && At(us, i, ExponentToks(x)) && n == i + |ExponentToks(x)| && Peek(us, n) == TNewline
    ensures Peek(us, i + 1) != TEq && Peek(us, i + 1) != TDot
  {
    var ts := ExponentToks(x);
    if |ts| > 1 { assert us[i..i + |ts|][1] == ts[1]; }
  }

  lemma {:induction false} NumberStops(us: Toks, i: nat, bp: nat)
    requires i + 1 < |us| && us[i].TNum? && us[i + 1].TIdent?
    ensures ParseExpr(us, i, bp) == Yes(Lit(Num(us[i].n)), i + 1)
  {
    NewlineStops(us, i + 1, Lit(Num(us[i].n)));
    hide ParseItems, ParseFields, ParseArgs, ParseInvoke, ParseParts, ParsePostfix, ParseBinary;
    assert ParsePrefix(us, i) == Yes(Lit(Num(us[i].n)), i + 1);
  }

  lemma {:induction false} SignedStops(us: Toks, i: nat)
    requires i + 2 < |us| && us[i] == TMinus && us[i + 1].TNum? && us[i + 2].TIdent?
    requires ParseExpr(us, i + 1, UNARY_POWER) == Yes(Lit(Num(us[i + 1].n)), i + 2)
    ensures ParseExpr(us, i, 0) == Yes(Unary(Neg, Lit(Num(us[i + 1].n))), i + 2)
  {
    var e := Unary(Neg, Lit(Num(us[i + 1].n)));
    NewlineStops(us, i + 2, e);
    PrefixMinus(us, i);
    hide ParsePrefix, ParsePostfix, ParseBinary;
  }

  lemma {:induction false} PrefixMinus(us: Toks, i: nat)
    requires i < |us| && us[i] == TMinus
    ensures ParsePrefix(us, i) == match ParseExpr(us, i + 1, UNARY_POWER) case No => No case Yes(e, j) => Yes(Unary(Neg, e), j)
  {
    hide ParseExpr;
  }

  lemma {:induction false} WordFails(us: Toks, i: nat)
    requires i + 1 < |us| && us[i].TIdent? && Peek(us, i + 1) != TEq && Peek(us, i + 1) != TDot
    ensures ParseItems'(us, i).None?
  {
    hide LiteralAt, ParseExpr, ParseInvoke, SurfaceName;
    SkipTo(us, i, i);
    assert ParsePath(us, i + 1, [us[i].s]) == Yes([us[i].s], i + 1);
    assert ParseItem(us, i).No?;
    ItemsStep(us, i);
  }

  /** What was read before the edited constant is read again, up to its line. */
  lemma {:induction false} SameUntil(ts: Toks, us: Toks, i: nat, m: nat) returns (q: nat)
    requires i <= |ts| && ParseItems'(ts, i).Some? && m < |ParseItems'(ts, i).value| && ParseItems'(ts, i).value[m].Const?
    requires var c := ParseItems'(ts, i).value[m]; Same(ts, us, i, c.from, 0) && c.from <= |us|
    ensures var a := ParseItems'(ts, i).value; var c := a[m];
            && 2 <= c.from && q <= |us| && SkipNewlines(us, q) == c.from - 2 && !AtEnd(us, c.from - 2)
            && i <= |us| && (ParseItems'(us, i).Some? <==> ParseItems'(us, q).Some?)
            && (ParseItems'(us, i).Some? ==> ParseItems'(us, i).value == a[..m] + ParseItems'(us, q).value)
            && NamesConst(us, c.from - 2) && Peek(us, c.from - 2) == TIdent(c.name)
    decreases m
  {
    hide SkipNewlines, ParseItem, LiteralAt, ParseItems', Same;
    ItemsStep(ts, i);
    var k := SkipNewlines(ts, i);
    var a := ParseItems'(ts, i).value;
    var c := a[m];
    var j := ParseItem(ts, k).next;
    ConstsFollow(ts, i, m);
    if m == 0 { ConstSpan(ts, k); } else { ConstsFollow(ts, j, m - 1); }
    SkipSame(ts, us, i, c.from, 0);
    ItemsStep(us, i);
    if m == 0 {
      q := i;
      SamePeek(ts, us, i, c.from, 0, k);
      SamePeek(ts, us, i, c.from, 0, k + 1);
      if ParseItems'(us, i).Some? { assert a[..0] + ParseItems'(us, i).value == ParseItems'(us, i).value; }
    } else {
      SameFrom(ts, us, i, k, c.from, 0);
      ItemSame(ts, us, k, c.from, 0);
      ItemMovedNowhere(a[0], ParseItem(us, k).value);
      SameFrom(ts, us, i, j, c.from, 0);
      q := SameUntil(ts, us, j, m - 1);
      if ParseItems'(us, i).Some? {
        var rest := ParseItems'(ts, j).value;
        assert a == [a[0]] + rest && a[..m] == [a[0]] + rest[..m - 1];
      }
    }
  }

  /** `w` stands in the place of constant `m`'s literal, and the line of the constant is read from `q` on. */
  ghost predicate OnLine(ts: Toks, us: Toks, m: nat, w: Toks, q: nat) {
    && ParseItems'(ts, 0).Some? && m < |ParseItems'(ts, 0).value| && ParseItems'(ts, 0).value[m].Const?
    && var a := ParseItems'(ts, 0).value; var c := a[m]; var i := c.from - 2; var d := |w| - (c.to - c.from);
       && 2 <= c.from && c.to <= |ts| && At(us, c.from, w) && c.from + |w| < |us| && us[c.from + |w|] == TNewline && NamesConst(us, i)
       && q <= |us| && SkipNewlines(us, q) == i && !AtEnd(us, i)
       && (ParseItems'(us, 0).Some? ==> ParseItems'(us, q).Some? && ParseItems'(us, 0).value == a[..m] + ParseItems'(us, q).value)
       && Same(ts, us, c.to, |ts| + 1, d) && |us| == |ts| + d
  }

  lemma {:induction false} EditedLine(ts: Toks, us: Toks, m: nat, w: Toks) returns (q: nat)
    requires ParseItems'(ts, 0).Some? && m < |ParseItems'(ts, 0).value| && ParseItems'(ts, 0).value[m].Const?
    requires var c := ParseItems'(ts, 0).value[m];
             && c.from < c.to < |ts| && ts[c.to] == TNewline && us == ts[..c.from] + w + ts[c.to..]
    ensures OnLine(ts, us, m, w, q)
  {
    hide ParseItems', Same, SkipNewlines, SurfaceName;
    var c := ParseItems'(ts, 0).value[m];
    var d := |w| - (c.to - c.from);
    SpliceSame(ts, c.from, c.to, w, us, d);
    SamePeek(ts, us, c.to, |ts| + 1, d, c.to);
    q := SameUntil(ts, us, 0, m);
  }

  /** The line is no constant; a bare number cannot stand there. */
  lemma {:induction false} LineIs(ts: Toks, us: Toks, m: nat, j: JVal, q: nat)
    requires Sound(j) && !Plainly(j) && OnLine(ts, us, m, RawToks(j), q) && ParseItems'(us, 0).Some?
    ensures !StartsConst(us, ParseItems'(ts, 0).value[m].from - 2) && (j.JArr? || j.JObj?)
  {
    hide RawToks, LiteralAt, ParseItems', ParseItem, ParseStmt, Same, SkipNewlines, Sound, Plainly, At, NamesConst, StartsConst;
    var i := ParseItems'(ts, 0).value[m].from - 2;
    NoConst(us, i, j);
    ItemsStep(us, q);
    if j.JNum? { NumberFails(us, i, j); } else { JustBrackets(j); }
  }

  /** What is read of a name among these lines. */
  function Reading(items: seq<Item>, name: string, key: string): (r: Option<Value>) {
    var m := FindConst(items, name);
    if m == |items| then None else Look(items[m].value, key)
  }

  /** The tokens `w` in the place of constant `m` open with a bracket that closes with them. */
  ghost predicate Enclosing(us: Toks, i: nat, w: Toks) {
    i < |us| && Opening(us[i]) && us[i] != TInvoke && FirstClosed(us, i, i + |w|)
  }

  lemma {:induction false} LeavesAfter(ts: Toks, us: Toks, m: nat, name: string, key: string, w: Toks, q: nat)
    requires OnLine(ts, us, m, w, q) && ParseItems'(us, 0).Some? && Enclosing(us, ParseItems'(ts, 0).value[m].from, w)
    requires var a := ParseItems'(ts, 0).value; m == FindConst(a, name) && !StartsConst(us, a[m].from - 2)
    ensures Reading(ParseItems'(us, 0).value, name, key) == Reading(ParseItems'(ts, 0).value[m + 1..], name, key)
  {
    hide LiteralAt, ParseItems', ParseItem, ParseStmt, Same, SkipNewlines, At, NamesConst, StartsConst, Reading, FindConst, FirstClosed;
    var a := ParseItems'(ts, 0).value;
    var c := a[m];
    var i := c.from - 2;
    var d := |w| - (c.to - c.from);
    ItemsStep(us, q);
    LineEnds(us, i, c.from + |w|);
    RestFollows(ts, m);
    SuffixSame(ts, us, c.to, d);
    NextIsRead(a, ParseItems'(us, 0).value, m, name, key, ParseItem(us, i).value, ParseItems'(us, c.to + d).value, d);
  }

  /** The constant leaves the surface: what is read of its name is what the lines behind it say. */
  lemma {:induction false} Leaves(ts: Toks, us: Toks, m: nat, name: string, key: string, j: JVal)
    requires Sound(j) && !Plainly(j) && ParseItems'(ts, 0).Some? && m < |ParseItems'(ts, 0).value|
    requires m == FindConst(ParseItems'(ts, 0).value, name)
    requires var c := ParseItems'(ts, 0).value[m];
             && c.from < c.to < |ts| && ts[c.to] == TNewline && us == ts[..c.from] + RawToks(j) + ts[c.to..]
    requires ParseItems'(us, 0).Some?
    ensures Reading(ParseItems'(us, 0).value, name, key) == Reading(ParseItems'(ts, 0).value[m + 1..], name, key)
  {
    hide RawToks, ParseItems', Sound, Plainly, StartsConst, Reading, FindConst, OnLine, Enclosing;
    var q := EditedLine(ts, us, m, RawToks(j));
    LineIs(ts, us, m, j, q);
    RawEnclosing(ts, us, m, j, q);
    LeavesAfter(ts, us, m, name, key, RawToks(j), q);
  }

  lemma {:induction false} RawEnclosing(ts: Toks, us: Toks, m: nat, j: JVal, q: nat)
    requires Sound(j) && (j.JArr? || j.JObj?) && OnLine(ts, us, m, RawToks(j), q)
    ensures Enclosing(us, ParseItems'(ts, 0).value[m].from, RawToks(j))
  {
    hide RawToks, ParseItems', Sound, SkipNewlines, Same, NamesConst, FirstClosed, At;
    var k := ParseItems'(ts, 0).value[m].from;
    RawOpens(j);
    AtFirst(us, k, RawToks(j));
    RawClosed(j, us, k);
  }

  lemma {:induction false} JustBrackets(j: JVal)
    requires Sound(j) && !Plainly(j) && !j.JNum?
    ensures j.JArr? || j.JObj?
  {
  }

  /** What follows constant `m` is what is parsed from its end. */
  lemma {:induction false} RestFollowsFrom(ts: Toks, i: nat, m: nat)
    requires i <= |ts| && ParseItems'(ts, i).Some? && m < |ParseItems'(ts, i).value| && ParseItems'(ts, i).value[m].Const?
    ensures var a := ParseItems'(ts, i).value; a[m].to <= |ts| && ParseItems'(ts, a[m].to) == Some(a[m + 1..])
    decreases m
  {
    hide SkipNewlines, ParseItem, LiteralAt, ParseItems';
    ItemsStep(ts, i);
    var k := SkipNewlines(ts, i);
    var a := ParseItems'(ts, i).value;
    var j := ParseItem(ts, k).next;
    var rest := ParseItems'(ts, j).value;
    assert a[1..] == rest;
    if m == 0 {
      ConstSpan(ts, k);
    } else {
      RestFollowsFrom(ts, j, m - 1);
      assert rest[m..] == a[m + 1..];
    }
  }

  lemma {:induction false} RestFollows(ts: Toks, m: nat)
    requires ParseItems'(ts, 0).Some? && m < |ParseItems'(ts, 0).value| && ParseItems'(ts, 0).value[m].Const?
    ensures var a := ParseItems'(ts, 0).value; a[m].to <= |ts| && ParseItems'(ts, a[m].to) == Some(a[m + 1..])
  {
    hide ParseItems';
    RestFollowsFrom(ts, 0, m);
  }

  /** Of the lines in front none has the name, and the line itself is no constant. */
  lemma {:induction false} NextIsRead(a: seq<Item>, b: seq<Item>, m: nat, name: string, key: string, line: Item, rest: seq<Item>, d: int)
    requires m < |a| && m == FindConst(a, name) && line.Line? && ItemsMoved(a[m + 1..], rest, d) && b == a[..m] + ([line] + rest)
    ensures Reading(b, name, key) == Reading(a[m + 1..], name, key)
  {
    hide FindConst;
    var x := a[m + 1..];
    var k := FindConst(x, name);
    var n := m + 1 + k;
    forall l | 0 <= l < n ensures !(b[l].Const? && b[l].name == name) {
      if l < m {
        assert b[l] == a[l];
      } else if l > m {
        assert b[l] == rest[l - m - 1] && ItemMoved(x[l - m - 1], rest[l - m - 1], d);
      }
    }
    if k < |x| {
      assert b[n] == rest[k] && ItemMoved(x[k], rest[k], d);
      FoundFirst(b, name, n);
    } else {
      NotFound(b, name);
    }
  }

  lemma {:induction false} FoundFirst(items: seq<Item>, name: string, n: nat)
    requires n < |items| && items[n].Const? && items[n].name == name
    requires forall l :: 0 <= l < n ==> !(items[l].Const? && items[l].name == name)
    ensures FindConst(items, name) == n
  {
    hide FindConst;
  }

  lemma {:induction false} NotFound(items: seq<Item>, name: string)
    requires forall k :: 0 <= k < |items| ==> !(items[k].Const? && items[k].name == name)
    ensures FindConst(items, name) == |items|
  {
    hide FindConst;
  }

  // ---------- the edit ----------

  /** The tokens of the source with any sound document's in the place of a constant's literal. */
  lemma {:induction false} RawRelexed(src: string, name: string, j: JVal)
    requires ReadSource(src).Some? && Sound(j)
    requires var p := ReadSource(src).value; FindConst(p.items, name) < |p.items|
    ensures var p := ReadSource(src).value; var ts := ToksOf(p.placed); var c := p.items[FindConst(p.items, name)];
            var start := PlaceOf(src, p.placed, c.from);
            var b := Trimmed(src, start, PlaceOf(src, p.placed, c.to));
            && start <= b && c.from < c.to < |ts| && ts[c.to] == TNewline
            && LexToks(Spliced(src, start, b, Render(j))) == Some(ts[..c.from] + RawToks(j) + ts[c.to..])
  {
    hide ReadSource, LexFrom, LexToks, LiteralAt, FindConst, PlaceOf, Trimmed, Render, Sound, RawToks;
    var p := ReadSource(src).value;
    var c := p.items[FindConst(p.items, name)];
    var start := PlaceOf(src, p.placed, c.from);
    var b := Trimmed(src, start, PlaceOf(src, p.placed, c.to));
    ConstTail(src, name);
    RawLexes(j, src[b..]);
    RawStarts(j);
    Relexed(src, p.placed, c.from, c.to, b, Render(j), RawToks(j));
  }

  lemma {:induction false} RawStarts(j: JVal)
    requires Sound(j)
    ensures Render(j) != "" && Render(j)[0] != '='
  {
    hide RenderItems, RenderFields, EscapeAll, NumOf, Run, Exponent;
  }

  lemma {:induction false} SetWhole(src: string, name: string, key: string, j: JVal, read: string -> Verdict)
    requires WholeKey(key) && ReadSource(src).Some?
    requires var p := ReadSource(src).value; FindConst(p.items, name) < |p.items|
    ensures var p := ReadSource(src).value; var c := p.items[FindConst(p.items, name)]; var start := PlaceOf(src, p.placed, c.from);
            SetLiteral(src, name, key, j, read) ==
            Checked(Spliced(src, start, Trimmed(src, start, PlaceOf(src, p.placed, c.to)), Render(j)))
  {
    hide ReadSource, LexFrom, FindConst, PlaceOf, FieldsAt, FindField, Trimmed, Render, Checked;
  }

  /** Without exponents the constant reads as what the lexer takes the document for. */
  lemma {:induction false} PlainlyReads(src: string, name: string, key: string, j: JVal, out: string)
    requires ReadSource(src).Some? && Sound(j) && Plainly(j) && WholeKey(key) && Readable(Garbled(j))
    requires var p := ReadSource(src).value; FindConst(p.items, name) < |p.items|
    requires var p := ReadSource(src).value; var ts := ToksOf(p.placed); var c := p.items[FindConst(p.items, name)];
             c.from < c.to < |ts| && LexToks(out) == Some(ts[..c.from] + RawToks(j) + ts[c.to..])
    ensures GetLiteral(out, name, key) == Some(ValueOf(Garbled(j)))
  {
    hide ReadSource, LexFrom, LexToks, LiteralAt, FindConst, Sound, Plainly, Readable, Garbled, ValueOf, RawToks, ToksFor, At;
    GarbledToks(j);
    var g := Garbled(j);
    var p := ReadSource(src).value;
    var ts := ToksOf(p.placed);
    var c := p.items[FindConst(p.items, name)];
    var us := ts[..c.from] + ToksFor(g) + ts[c.to..];
    SpliceSame(ts, c.from, c.to, ToksFor(g), us, |ToksFor(g)| - (c.to - c.from));
    StandsThere(us, c.from, ToksFor(g));
    LiteralReads(g, us, c.from);
    ConstReplaced(src, name, out, ToksFor(g), ValueOf(g));
    OnlyConstReads(src, out, name, ValueOf(g), key);
  }

  lemma {:induction false} StandsThere(us: Toks, i: nat, w: Toks)
    requires i + |w| <= |us| && us[i..i + |w|] == w
    ensures At(us, i, w)
  {
  }

  /** What the first constant of this name behind the one that is found says. */
  function Later(src: string, name: string, key: string): (r: Option<Value>) {
    match ReadSource(src)
    case None => None
    case Some(p) =>
      var m := FindConst(p.items, name);
      if m == |p.items| then None else Reading(p.items[m + 1..], name, key)
  }

  /** The constant of this name is the only one. */
  ghost predicate OnlyOne(items: seq<Item>, name: string) {
    forall k, l :: 0 <= k < l < |items| ==> !(Named(items[k], name) && Named(items[l], name))
  }

  predicate Named(it: Item, name: string) { it.Const? && it.name == name }

  lemma {:induction false} NoneLater(src: string, name: string, key: string)
    requires ReadSource(src).Some? && OnlyOne(ReadSource(src).value.items, name)
    ensures Later(src, name, key) == None
  {
    hide ReadSource, FindConst;
    var a := ReadSource(src).value.items;
    var m := FindConst(a, name);
    if m < |a| {
      var x := a[m + 1..];
      forall k | 0 <= k < |x| ensures !Named(x[k], name) { assert x[k] == a[m + 1 + k]; }
      NotFound(x, name);
    }
  }

  /** With one, what is read of the name is what a later constant says. */
  lemma {:induction false} ExponentLeaves(src: string, name: string, key: string, j: JVal, out: string)
    requires ReadSource(src).Some? && ReadSource(out).Some? && Sound(j) && !Plainly(j)
    requires var p := ReadSource(src).value; FindConst(p.items, name) < |p.items|
    requires var p := ReadSource(src).value; var ts := ToksOf(p.placed); var c := p.items[FindConst(p.items, name)];
             c.from < c.to < |ts| && ts[c.to] == TNewline && LexToks(out) == Some(ts[..c.from] + RawToks(j) + ts[c.to..])
    ensures GetLiteral(out, name, key) == Later(src, name, key)
  {
    hide LexFrom, ParseItems', FindConst, Sound, Plainly, RawToks, Reading;
    var p := ReadSource(src).value;
    var ts := ToksOf(p.placed);
    Leaves(ts, LexToks(out).value, FindConst(p.items, name), name, key, j);
    GetReads(out, name, key);
  }

  lemma {:induction false} GetReads(src: string, name: string, key: string)
    requires ReadSource(src).Some?
    ensures GetLiteral(src, name, key) == Reading(ReadSource(src).value.items, name, key)
  {
    hide ReadSource, FindConst;
  }

  /**
   * When a whole constant reads back. For every document a JSON writer writes: if the edit
   * succeeds and no number has an exponent, the document is read back exactly when no string in it
   * has a control character other than newline and tab. With an exponent the constant is no longer
   * on the surface, and what is read of the name is what a later constant says, if there is one.
   */
  lemma {:induction false} WholeReadBack(src: string, name: string, key: string, j: JVal, read: string -> Verdict)
    requires WholeKey(key) && Sound(j) && SetLiteral(src, name, key, j, read).Done?
    ensures var out := SetLiteral(src, name, key, j, read).text;
            if Plainly(j) then GetLiteral(out, name, key) == Some(Meaning(j)) <==> PlainStrings(j)
            else GetLiteral(out, name, key) == Later(src, name, key)
  {
    hide ReadSource, LexFrom, LexToks, FindConst, PlaceOf, Trimmed, Render, Sound, Plainly, PlainStrings, Readable, Garbled, ValueOf, Meaning,
      RawToks, GetLiteral, SetLiteral, Later;
    SetFinds(src, name, key, j, read);
    SetWhole(src, name, key, j, read);
    RawRelexed(src, name, j);
    var out := SetLiteral(src, name, key, j, read).text;
    if Plainly(j) {
      GarbledReadable(j);
      PlainlyReads(src, name, key, j, out);
      GarbledDiffers(j);
    } else {
      ExponentLeaves(src, name, key, j, out);
    }
  }

  // ---------- it happens ----------

  /** `[1e16]`, `[1e+16]`, `[1E-7]` and so on, for an exponent `x`. */
  function Powered(x: string): (j: JVal) { JArr([JNum(false, "1" + x)]) }

  lemma {:induction false} PoweredNumber(x: string)
    requires Exponent(x) && x != ""
    ensures var n := JNum(false, "1" + x); Sound(n) && !Plainly(n) && RawToks(n) == [TNum(1.0)] + ExponentToks(x)
  {
    var text := "1" + x;
    ExponentStarts(x);
    assert text[0] == '1' && text[1] == x[0];
    RunIs(text, NumChar, 1);
    OneReads();
    hide Run, NumOf, ExponentToks, Exponent;
    assert text[..1] == "1" && text[1..] == x;
    assert Mantissa(text) == "1" && ExponentOf(text) == x;
    assert RawToks(JNum(false, text)) == [] + [TNum(1.0)] + ExponentToks(x);
    assert [] + [TNum(1.0)] == [TNum(1.0)];
  }

  lemma {:induction false} PoweredToks(x: string)
    requires Exponent(x) && x != ""
    ensures Sound(Powered(x)) && !Plainly(Powered(x)) && RawToks(Powered(x)) == [TLBrack, TNum(1.0)] + ExponentToks(x) + [TRBrack]
  {
    hide NumOf, Run, ExponentToks, Exponent, NumberText;
    PoweredNumber(x);
    var n := JNum(false, "1" + x);
    assert Powered(x).items[0] == n;
    assert RawItems([n]) == RawToks(n);
    assert [TLBrack] + ([TNum(1.0)] + ExponentToks(x)) + [TRBrack] == [TLBrack, TNum(1.0)] + ExponentToks(x) + [TRBrack];
  }

  /** The tokens of an exponent are an expression: a word, or a word and a number with a sign between. */
  lemma {:induction false} ExponentReads(us: Toks, i: nat, x: string)
    requires Exponent(x) && x != "" && At(us, i, ExponentToks(x)) && Peek(us, i + |ExponentToks(x)|) == TRBrack
    ensures i <= |us| && ParseExpr(us, i, 0).Yes? && ParseExpr(us, i, 0).next == i + |ExponentToks(x)|
  {
    var ts := ExponentToks(x);
    hide Whole, ParseExpr;
    forall l | 0 <= l < |ts| ensures us[i + l] == ts[l] { assert us[i..i + |ts|][l] == ts[l]; }
    assert us[i] == ts[0];
    if Unsigned(x) {
      WordReads(us, i);
    } else {
      assert |ts| == 3 && us[i + 1] == ts[1] && us[i + 2] == ts[2];
      SignedReads(us, i);
    }
  }

  lemma {:induction false} WordReads(us: Toks, i: nat)
    requires i < |us| && us[i].TIdent? && Peek(us, i + 1) == TRBrack
    ensures ParseExpr(us, i, 0) == Yes(Var(us[i].s), i + 1)
  {
    hide ParseItems, ParseFields, ParseArgs, ParseInvoke, ParseParts;
    assert ParsePrefix(us, i) == Yes(Var(us[i].s), i + 1);
  }

  lemma {:induction false} SignedReads(us: Toks, i: nat)
    requires i + 2 < |us| && us[i].TIdent? && (us[i + 1] == TMinus || us[i + 1] == TPlus) && us[i + 2].TNum? && Peek(us, i + 3) == TRBrack
    ensures ParseExpr(us, i, 0).Yes? && ParseExpr(us, i, 0).next == i + 3
  {
    hide ParseItems, ParseFields, ParseArgs, ParseInvoke, ParseParts;
    var n := Lit(Num(us[i + 2].n));
    assert ParsePrefix(us, i + 2) == Yes(n, i + 3) && ParsePrefix(us, i) == Yes(Var(us[i].s), i + 1);
    BracketStops(us, i + 3, n, 5);
    assert ParseExpr(us, i + 2, 5) == Yes(n, i + 3);
    hide ParsePrefix;
    var e := Bin(if us[i + 1] == TMinus then Sub else Add, Var(us[i].s), n);
    BracketStops(us, i + 3, e, 0);
    assert ParsePostfix(us, i + 1, Var(us[i].s)) == Yes(Var(us[i].s), i + 1);
    assert ParseBinary(us, i + 1, Var(us[i].s), 0) == Yes(e, i + 3);
  }

  lemma {:induction false} BracketStops(us: Toks, i: nat, lhs: Expr, bp: nat)
    requires i <= |us| && Peek(us, i) == TRBrack
    ensures ParsePostfix(us, i, lhs) == Yes(lhs, i) && ParseBinary(us, i, lhs, bp) == Yes(lhs, i)
  {
    hide ParseExpr;
  }

  lemma {:induction false} ItemsOf(us: Toks, i: nat)
    requires i <= |us| && Peek(us, i) != TRBrack && ParseExpr(us, i, 0).Yes? && ParseItems(us, AfterItem(us, ParseExpr(us, i, 0).next)).Yes?
    ensures var r := ParseItems(us, AfterItem(us, ParseExpr(us, i, 0).next));
            ParseItems(us, i) == Yes([ParseExpr(us, i, 0).value] + r.value, r.next)
  {
    hide ParseExpr, AfterItem;
  }

  lemma {:induction false} AtOnce(us: Toks, i: nat)
    requires i < |us| && us[i] != TNewline && us[i] != TComma
    ensures AfterItem(us, i) == i && SkipNewlines(us, i) == i
  {
    SkipTo(us, i, i);
  }

  lemma {:induction false} ItemsClose(us: Toks, i: nat)
    requires i < |us| && us[i] == TRBrack
    ensures ParseItems(us, i) == Yes([], i + 1)
  {
    hide ParseExpr;
  }

  lemma {:induction false} ListPrefix(us: Toks, i: nat)
    requires i < |us| && us[i] == TLBrack && SkipNewlines(us, i + 1) == i + 1 && ParseItems(us, i + 1).Yes?
    ensures ParsePrefix(us, i) == Yes(Array(ParseItems(us, i + 1).value), ParseItems(us, i + 1).next)
  {
    hide ParseItems, ParseFields, ParseArgs, ParseInvoke, ParseParts, SkipNewlines, ParseExpr;
  }

  /** `[`, a number, the tokens of an exponent and `]`, up to the end of the line, are a list of two elements. */
  lemma {:induction false} PoweredReads(us: Toks, i: nat, x: string)
    requires Exponent(x) && x != "" && i + 2 < |us| && us[i] == TLBrack && us[i + 1].TNum? && At(us, i + 2, ExponentToks(x))
    requires var n := i + 2 + |ExponentToks(x)|; n + 1 < |us| && us[n] == TRBrack && us[n + 1] == TNewline
    ensures ParseExpr(us, i, 0).Yes? && ParseExpr(us, i, 0).next == i + 3 + |ExponentToks(x)|
  {
    hide ParseExpr, ParseItems, ParsePrefix, ParsePostfix, ParseBinary, SkipNewlines, AfterItem, At, ExponentToks, Exponent;
    var n := i + 2 + |ExponentToks(x)|;
    ExponentHead(x);
    AtFirst(us, i + 2, ExponentToks(x));
    AtOnce(us, i + 1);
    AtOnce(us, i + 2);
    AtOnce(us, n);
    NumberStops(us, i + 1, 0);
    ExponentReads(us, i + 2, x);
    ItemsClose(us, n);
    ItemsOf(us, i + 2);
    ItemsOf(us, i + 1);
    ListPrefix(us, i);
    var p := ParsePrefix(us, i);
    NewlineStops(us, n + 1, p.value);
    ExprOf(us, i);
  }

  lemma {:induction false} PlainLine(us: Toks, i: nat)
    requires i + 2 < |us| && us[i].TIdent? && us[i + 1] == TEq && us[i + 2] != TInvoke && !StartsConst(us, i) && ParseExpr(us, i + 2, 0).Yes?
    ensures ParseItem(us, i).Yes? && ParseItem(us, i).next == ParseExpr(us, i + 2, 0).next
  {
    hide LiteralAt, ParseExpr, ParseInvoke, SurfaceName;
    assert ParsePath(us, i + 1, [us[i].s]) == Yes([us[i].s], i + 1);
  }

  lemma {:induction false} PoweredPlaces(us: Toks, w: Toks, e: Toks)
    requires w == [TLBrack, TNum(1.0)] + e + [TRBrack] && us == [TIdent("A"), TEq] + w + [TNewline]
    ensures |us| == |e| + 6 && At(us, 2, w) && At(us, 4, e) && us[0] == TIdent("A") && us[1] == TEq && us[2] == TLBrack && us[3] == TNum(1.0)
    ensures us[4 + |e|] == TRBrack && us[5 + |e|] == TNewline && |w| == |e| + 3
  {
    assert us[2..2 + |w|] == w;
    assert us[4..4 + |e|] == e;
  }

  /** `A = ` and such a list is a line of the program. */
  lemma {:induction false} PoweredParses(us: Toks, x: string)
    requires Exponent(x) && x != "" && us == [TIdent("A"), TEq] + RawToks(Powered(x)) + [TNewline] && Sound(Powered(x))
    ensures ParseItems'(us, 0).Some?
  {
    hide Sound, Plainly, ParseExpr, LiteralAt, SkipNewlines, StartsConst, ParseItem, ParseItems', ParseStmt, At, ExponentToks, Exponent, RawToks;
    PoweredToks(x);
    var n := |us| - 1;
    PoweredPlaces(us, RawToks(Powered(x)), ExponentToks(x));
    PoweredReads(us, 2, x);
    SkipTo(us, 0, 0);
    SkipTo(us, n, n + 1);
    NoConst(us, 0, Powered(x));
    PlainLine(us, 0);
    ItemsStep(us, 0);
    ItemsStep(us, n);
  }

  lemma {:induction false} CheckedIf(out: string, us: Toks)
    requires LexToks(out) == Some(us) && ParseItems'(us, 0).Some?
    ensures Checked(out) == Done(out)
  {
    hide LexFrom, ParseItems';
  }

  /** Setting `A` to a list of one number with any exponent succeeds, and leaves no constant `A`. */
  lemma {:induction false} ExponentGoes(x: string, read: string -> Verdict)
    requires Exponent(x) && x != ""
    ensures var r := SetLiteral(NOTED, "A", "-", Powered(x), read);
            r.Done? && GetLiteral(NOTED, "A", "-") == Some(Num(1.0)) && GetLiteral(r.text, "A", "-") == None
  {
    hide LexFrom, ParseItems', SetLiteral, RawToks, Sound, Plainly, Meaning, PlainStrings, PlaceOf, Trimmed, Render, Exponent, ReadSource, GetLiteral;
    NotedReads();
    PoweredToks(x);
    var j := Powered(x);
    var ps := [Placed(TIdent("A"), 12), Placed(TEq, 10), Placed(TNum(1.0), 8), Placed(TNewline, 0)];
    var ts := [TIdent("A"), TEq, TNum(1.0), TNewline];
    assert ToksOf(ps) == ts;
    var c := Const("A", Num(1.0), 2, 3);
    assert FindConst([c], "A") == 0;
    SetWhole(NOTED, "A", "-", j, read);
    RawRelexed(NOTED, "A", j);
    var us := ts[..2] + RawToks(j) + ts[3..];
    assert us == [TIdent("A"), TEq] + RawToks(j) + [TNewline];
    PoweredParses(us, x);
    var out := Spliced(NOTED, PlaceOf(NOTED, ps, 2), Trimmed(NOTED, PlaceOf(NOTED, ps, 2), PlaceOf(NOTED, ps, 3)), Render(j));
    CheckedIf(out, us);
    WholeReadBack(NOTED, "A", "-", j, read);
    NoneLater(NOTED, "A", "-");
    GetReads(NOTED, "A", "-");
  }
}
