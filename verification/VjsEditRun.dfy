// Rewriting a literal as core/src/vjs.rs runs it: lex and parse, find the constant and the entry,
// step back over the blanks, splice, and parse the result again.

module VjsEditRun {
  import opened Wrappers
  import opened VjsSyntax
  import opened VjsParser
  import opened VjsProgram
  import opened VjsSplice
  import opened VjsLexer
  import opened VjsLexerRun
  import opened VjsParserRun
  import opened VjsJson
  import opened VjsEdit

  method ParseText(src: string) returns (r: Option<Source>)
    ensures r == ReadSource(src)
  {
    hide LexFrom, ParseItems';
    var ps := LexText(src);
    if ps.None? { return None; }
    var parser := new Parser(ToksOf(ps.value));
    var items := parser.Lines();
    return if items.None? then None else Some(Source(ps.value, items.value));
  }

  lemma {:induction false} FindConstIs(items: seq<Item>, name: string, m: nat)
    requires m <= |items| && (m < |items| ==> items[m].Const? && items[m].name == name)
    requires forall k :: 0 <= k < m ==> !(items[k].Const? && items[k].name == name)
    ensures FindConst(items, name) == m
  {
    hide FindConst;
  }

  lemma {:induction false} FindFieldIs(fs: seq<LField>, key: string, m: nat)
    requires m <= |fs| && (m < |fs| ==> fs[m].key == key)
    requires forall k :: 0 <= k < m ==> fs[k].key != key
    ensures FindField(fs, key) == m
  {
    hide FindField;
  }

  method ConstNamed(items: seq<Item>, name: string) returns (m: nat)
    ensures m == FindConst(items, name)
  {
    m := 0;
    while m < |items| && !(items[m].Const? && items[m].name == name)
      invariant m <= |items|
      invariant forall k :: 0 <= k < m ==> !(items[k].Const? && items[k].name == name)
    {
      m := m + 1;
    }
    FindConstIs(items, name, m);
  }

  method FieldNamed(fs: seq<LField>, key: string) returns (m: nat)
    ensures m == FindField(fs, key)
  {
    m := 0;
    while m < |fs| && fs[m].key != key
      invariant m <= |fs|
      invariant forall k :: 0 <= k < m ==> fs[k].key != key
    {
      m := m + 1;
    }
    FindFieldIs(fs, key, m);
  }

  /** Back over the blanks before `end`. */
  method StepBack(src: string, start: nat, end: nat) returns (e: nat)
    requires end <= |src|
    ensures e == Trimmed(src, start, end)
  {
    e := end;
    while e > start && Space(src[e - 1])
      invariant e <= end && Trimmed(src, start, e) == Trimmed(src, start, end)
    {
      e := e - 1;
    }
  }

  method Recheck(out: string) returns (r: Edited)
    ensures r == Checked(out)
  {
    hide ReadSource;
    var again := ParseText(out);
    return if again.Some? then Done(out) else Refused(BadResult);
  }

  method ApplyLiteral(src: string, name: string, key: string, j: JVal, read: string -> Verdict) returns (r: Edited)
    ensures r == SetLiteral(src, name, key, j, read)
  {
    hide ReadSource, LexFrom, FindConst, PlaceOf, FieldsAt, FindField, Trimmed, Render, Checked, TrimEnd, LastBrace, Insertion, ParseItems';
    var found := ParseText(src);
    if found.None? { return Refused(BadSource); }
    var p := found.value;
    var m := ConstNamed(p.items, name);
    if m == |p.items| { return Refused(NoSuchLiteral); }
    var ts := ToksOf(p.placed);
    var c := p.items[m];
    var fs := FieldsAt(ts, c.from);
    var f := FieldNamed(fs, key);
    if WholeKey(key) || f < |fs| {
      var (from, to) := if WholeKey(key) then (c.from, c.to) else (fs[f].from, fs[f].to);
      var start := PlaceOf(src, p.placed, from);
      var end := StepBack(src, start, PlaceOf(src, p.placed, to));
      r := Recheck(Spliced(src, start, end, Render(j)));
    } else {
      ConstsFollow(ts, 0, m);
      PlacesOrdered(src, p.placed, c.from, c.to);
      var start, end := PlaceOf(src, p.placed, c.from), PlaceOf(src, p.placed, c.to);
      var t := TrimEnd(src[start..end]);
      var verdict := read(t);
      if !verdict.Table? { return Refused(NotEditable); }
      var b := LastBrace(t);
      if b == |t| { return Refused(NotEditable); }
      r := Recheck(Spliced(src, start + b, start + b, Insertion(verdict.empty, key, j)));
    }
  }
}
