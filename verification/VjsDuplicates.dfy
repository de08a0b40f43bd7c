// A table with a key twice (core/src/vjs.rs): an edit finds the first entry of the key, a reader
// gets the last.

module VjsDuplicates {
  import opened Wrappers
  import opened VjsSyntax
  import opened VjsParser
  import opened VjsProgram
  import opened VjsSplice
  import opened VjsLexer
  import opened VjsRelex
  import opened VjsJson
  import opened VjsEdit
  import opened VjsEditProof
  import opened VjsEditTheorem
  import opened VjsSpan
  import opened VjsFits

  const TWICE := "A = {\"a\":1,\"a\":2}"

  const PAIR := JObj([JField("a", JNum(false, "1")), JField("a", JNum(false, "2"))])

  lemma {:induction false} DigitReads(text: string)
    requires |text| == 1 && Digit(text[0])
    ensures Readable(JNum(false, text)) && Render(JNum(false, text)) == text && ToksFor(JNum(false, text)) == [TNum(Whole(text) as real)]
    ensures ValueOf(JNum(false, text)) == Num(Whole(text) as real)
  {
    RunIs(text, Digit, 1);
    RunIs(text, NumChar, 1);
    hide Run, Whole;
    assert "" + text == text;
    assert [] + [TNum(Whole(text) as real)] == [TNum(Whole(text) as real)];
  }

  lemma {:induction false} WholeDigits()
    ensures Whole("1") == 1 && Whole("2") == 2 && Whole("7") == 7
  {
    assert "1"[..0] == "" && "2"[..0] == "" && "7"[..0] == "";
  }

  lemma {:induction false} QuoteA()
    ensures Quote("a") == "\"a\"" && Plain("a")
  {
    assert "a"[1..] == "" && Escape('a') == "a";
    assert EscapeAll("a") == "a" + EscapeAll("");
  }

  lemma {:induction false} FieldText(text: string)
    requires Render(JNum(false, text)) == text
    ensures RenderFields([JField("a", JNum(false, text))]) == "\"a\":" + text
  {
    hide Quote;
    QuoteA();
  }

  lemma {:induction false} PairText()
    ensures Readable(PAIR) && Render(PAIR) == "{\"a\":1,\"a\":2}"
  {
    hide NumOf, Run, Whole, Quote, Plain;
    DigitReads("1");
    DigitReads("2");
    QuoteA();
    FieldText("2");
    var f, g := JField("a", JNum(false, "1")), JField("a", JNum(false, "2"));
    assert [f, g][1..] == [g];
    PairJoins(f, g);
  }

  lemma {:induction false} PairJoins(f: JField, g: JField)
    requires Quote(f.key) == "\"a\"" && Render(f.value) == "1" && RenderFields([g]) == "\"a\":2"
    ensures Render(JObj([f, g])) == "{\"a\":1,\"a\":2}"
  {
    hide Quote;
    assert [f, g][1..] == [g];
    assert RenderFields([f, g]) == "\"a\":1,\"a\":2" by { hide Render; }
  }

  lemma {:induction false} PairToks()
    requires Readable(PAIR)
    ensures ToksFor(PAIR) == [TLBrace, TStr("a"), TColon, TNum(1.0), TComma, TStr("a"), TColon, TNum(2.0), TRBrace]
  {
    DigitReads("1");
    DigitReads("2");
    WholeDigits();
    hide NumOf, Run, Whole;
    var f, g := JField("a", JNum(false, "1")), JField("a", JNum(false, "2"));
    assert [f, g][1..] == [g];
    assert ToksForFields([g]) == [TStr("a"), TColon] + [TNum(2.0)];
    assert ToksForFields([f, g]) == [TStr("a"), TColon] + [TNum(1.0)] + [TComma] + ([TStr("a"), TColon] + [TNum(2.0)]);
  }

  /** `A = {"a":1,"a":2}`, as tokens. */
  ghost predicate Pair(ts: Toks) {
    && |ts| == 12 && ts[2] == TLBrace && ts[3] == TStr("a") && ts[4] == TColon && ts[5] == TNum(1.0) && ts[6] == TComma
    && ts[7] == TStr("a") && ts[8] == TColon && ts[9] == TNum(2.0) && ts[10] == TRBrace && ts[11] == TNewline
  }

  lemma {:induction false} SecondField(ts: Toks)
    requires Pair(ts)
    ensures var r := LiteralFields(ts, 7); r.LYes? && |r.value| == 1 && r.value[0].key == "a" && MapOf(r.value) == map["a" := Num(2.0)]
  {
    hide LiteralFields, MapOf;
    LastNumber(ts, 7);
  }

  lemma {:induction false} BothFields(ts: Toks)
    requires Pair(ts)
    ensures var r := LiteralFields(ts, 3); r.LYes? && |r.value| == 2 && r.value[0].key == "a" && r.value[1].key == "a"
    ensures MapOf(LiteralFields(ts, 3).value) == map["a" := Num(2.0)]
  {
    hide LiteralAt, LiteralFields, MapOf, AfterItem, SkipNewlines;
    SecondField(ts);
    NoSkip(ts, 6);
    NumberAt(ts, 5);
    OneEntry(ts, 3);
    assert map["a" := Num(1.0)] + map["a" := Num(2.0)] == map["a" := Num(2.0)];
  }

  lemma {:induction false} PairFields(ts: Toks)
    requires Pair(ts)
    ensures var fs := FieldsAt(ts, 2); |fs| == 2 && fs[0].key == "a" && fs[1].key == "a" && MapOf(fs) == map["a" := Num(2.0)]
  {
    hide LiteralFields, MapOf, SkipNewlines;
    BothFields(ts);
    NoSkip(ts, 3);
  }

  lemma {:induction false} TwiceText()
    ensures NOTED[..4] + "{\"a\":1,\"a\":2}" + NOTED[12..] == TWICE
  {
  }

  /** What the source reads as, by way of an edit that writes it. */
  lemma {:induction false} TwiceReads(read: string -> Verdict)
    ensures ReadSource(TWICE).Some?
    ensures var p := ReadSource(TWICE).value; |p.items| == 1 && p.items[0].Const? && p.items[0].name == "A" && p.items[0].from == 2 && Pair(ToksOf(p.placed))
  {
    hide LexFrom, ReadSource, SetLiteral, PlaceOf, Trimmed, GetLiteral, Readable, Render, ValueOf, ToksFor, LexToks, Pair, FindConst;
    var ps := [Placed(TIdent("A"), 12), Placed(TEq, 10), Placed(TNum(1.0), 8), Placed(TNewline, 0)];
    var c := Const("A", Num(1.0), 2, 3);
    NotedReads();
    NotedLexes();
    NotedSpan(ps);
    PairText();
    PairToks();
    FirstFound(c);
    ConstRelexed(NOTED, "A", PAIR);
    TwiceText();
    WholeEdit(NOTED, "A", "-", PAIR, read);
    TwiceToks(ToksOf(ps), LexToks(TWICE).value);
    ReadsTokens(TWICE);
  }

  lemma {:induction false} FirstFound(c: Item)
    requires c.Const? && c.name == "A"
    ensures FindConst([c], "A") == 0
  {
  }

  lemma {:induction false} ReadsTokens(src: string)
    requires ReadSource(src).Some?
    ensures LexToks(src) == Some(ToksOf(ReadSource(src).value.placed))
  {
    hide LexFrom, ParseItems';
  }

  lemma {:induction false} TwiceToks(ts: Toks, us: Toks)
    requires |ts| == 4 && ts[3] == TNewline
    requires us == ts[..2] + [TLBrace, TStr("a"), TColon, TNum(1.0), TComma, TStr("a"), TColon, TNum(2.0), TRBrace] + ts[3..]
    ensures Pair(us)
  {
  }

  /** Setting `a` in `A = {"a":1,"a":2}` to 7 succeeds, and `a` still reads as 2. */
  lemma {:induction false} LaterEntryWins(read: string -> Verdict)
    ensures var r := SetLiteral(TWICE, "A", "a", JNum(false, "7"), read);
            r.Done? && GetLiteral(r.text, "A", "a") == Some(Num(2.0))
  {
    TwiceReads(read);
    hide ReadSource, LexFrom, SetLiteral, GetLiteral, MapOf, LiteralFields, FindConst, FindField, FieldsAt, Pair, Readable, ValueOf, OnlyConst;
    var j := JNum(false, "7");
    DigitReads("7");
    WholeDigits();
    var p := ReadSource(TWICE).value;
    FirstFound(p.items[0]);
    assert p.items == [p.items[0]];
    PairFields(ToksOf(p.placed));
    var fs := FieldsAt(ToksOf(p.placed), 2);
    FirstField(fs);
    EntryEdit(TWICE, "A", "a", j, read);
    assert fs[1].key == fs[0].key;
  }

  lemma {:induction false} FirstField(fs: seq<LField>)
    requires |fs| == 2 && fs[0].key == "a"
    ensures FindField(fs, "a") == 0
  {
  }
}
