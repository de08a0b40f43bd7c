// The promise of editing a literal of the business surface (core/src/vjs.rs), whichever way it is
// done: when it succeeds, the new value is there and nothing else has changed.

module VjsEditTheorem {
  import opened Wrappers
  import opened VjsSyntax
  import opened VjsParser
  import opened VjsProgram
  import opened VjsSplice
  import opened VjsLexer
  import opened VjsRelex
  import opened VjsJson
  import opened VjsEdit
  import opened VjsEditProof
  import opened VjsEditAdd
  import opened VjsGlued

  /** The same line of a program, wherever it stands. */
  predicate SameLine(a: Item, b: Item) {
    if a.Const? then b.Const? && b.name == a.name && b.value == a.value else b == a
  }

  /** Every line of `src` but the constant `name` is a line of `out`, in its place. */
  ghost predicate OtherLinesKept(src: string, out: string, name: string) {
    && ReadSource(src).Some? && ReadSource(out).Some?
    && var a, b := ReadSource(src).value.items, ReadSource(out).value.items;
       |b| == |a| && forall k :: 0 <= k < |a| && k != FindConst(a, name) ==> SameLine(a[k], b[k])
  }

  lemma {:induction false} OnlyConstKeeps(src: string, out: string, name: string, v: Value)
    requires OnlyConst(src, out, name, v)
    ensures OtherLinesKept(src, out, name)
  {
    hide ReadSource, FindConst;
    var a, b := ReadSource(src).value.items, ReadSource(out).value.items;
    var m := FindConst(a, name);
    var d :| ReplacedConst(a, b, m, v, d);
    forall k | 0 <= k < |a| && k != m ensures SameLine(a[k], b[k]) {
      if k < m {
        assert b[..m][k] == a[..m][k];
      } else {
        assert a[m + 1..][k - m - 1] == a[k] && b[m + 1..][k - m - 1] == b[k];
      }
    }
  }

  /** Every other constant reads as it did. */
  lemma {:induction false} OthersRead(src: string, out: string, name: string, v: Value, other: string, key: string)
    requires OnlyConst(src, out, name, v) && other != name
    ensures GetLiteral(out, other, key) == GetLiteral(src, other, key)
  {
    hide ReadSource, FindConst, SameLine;
    OnlyConstKeeps(src, out, name, v);
    var a, b := ReadSource(src).value.items, ReadSource(out).value.items;
    var m := FindConst(a, name);
    var d :| ReplacedConst(a, b, m, v, d);
    assert b[m].Const? && b[m].name == name;
    FoundElsewhere(a, b, name, other);
  }

  lemma {:induction false} FoundElsewhere(a: seq<Item>, b: seq<Item>, name: string, other: string)
    requires |b| == |a| && other != name && FindConst(a, name) < |a|
    requires b[FindConst(a, name)].Const? && b[FindConst(a, name)].name == name
    requires forall k :: 0 <= k < |a| && k != FindConst(a, name) ==> SameLine(a[k], b[k])
    ensures FindConst(b, other) == FindConst(a, other)
    ensures FindConst(a, other) < |a| ==> b[FindConst(a, other)].value == a[FindConst(a, other)].value
  {
    hide FindConst;
    var i, l := FindConst(a, other), FindConst(b, other);
    assert i < |a| ==> SameLine(a[i], b[i]);
    assert l < |b| && l != FindConst(a, name) ==> SameLine(a[l], b[l]);
  }

  /** No two entries of the constant have the same key. */
  ghost predicate DistinctKeys(fs: seq<LField>) {
    forall i, k :: 0 <= i < k < |fs| ==> fs[i].key != fs[k].key
  }

  /** The value of the constant after the edit: the new one, or the document with the entry set. */
  function Outcome(src: string, name: string, key: string, v: Value): (w: Value) {
    if WholeKey(key) then v else Obj(MapOf(EntriesOf(src, name))[key := v])
  }

  /** The constant is a document. */
  ghost predicate IsDocument(src: string, name: string) {
    && ReadSource(src).Some?
    && var p := ReadSource(src).value;
       && FindConst(p.items, name) < |p.items|
       && Peek(ToksOf(p.placed), p.items[FindConst(p.items, name)].from) == TLBrace
  }

  /** Of a document, what is read are its entries. */
  lemma {:induction false} DocumentReads(src: string, name: string, key: string)
    requires IsDocument(src, name) && !WholeKey(key)
    ensures GetLiteral(src, name, key) == Look(Obj(MapOf(EntriesOf(src, name))), key)
  {
    hide ReadSource, FindConst, FieldsAt, MapOf, LiteralAt, PlaceOf;
    ConstPlaced(src, name);
    var p := ReadSource(src).value;
    DocFacts(ToksOf(p.placed), p.items[FindConst(p.items, name)].from);
  }

  lemma {:induction false} EntryIsDocument(src: string, name: string, key: string)
    requires HasEntry(src, name, key)
    ensures IsDocument(src, name)
  {
    hide ReadSource, FindConst, FindField, MapOf, LiteralAt, PlaceOf, LiteralFields;
    ConstPlaced(src, name);
  }

  /** Where the text is changed, and what is put there: the literal's, the entry's value, or a new entry before the closing brace. */
  ghost function Change(src: string, name: string, key: string, j: JVal): (c: (nat, nat, string))
    requires ReadSource(src).Some? && FindConst(ReadSource(src).value.items, name) < |ReadSource(src).value.items|
  {
    ConstPlaced(src, name);
    var p := ReadSource(src).value;
    var c := p.items[FindConst(p.items, name)];
    var fs := EntriesOf(src, name);
    if WholeKey(key) then
      var start := PlaceOf(src, p.placed, c.from);
      (start, Trimmed(src, start, PlaceOf(src, p.placed, c.to)), Render(j))
    else if FindField(fs, key) < |fs| then (EntrySpan(src, name, key).0, EntrySpan(src, name, key).1, Render(j))
    else
      var close := PlaceOf(src, p.placed, c.to - 1);
      (close, close, Insertion(fs == [], key, j))
  }

  ghost predicate OnlyChanged(src: string, out: string, name: string, key: string, j: JVal)
    requires ReadSource(src).Some? && FindConst(ReadSource(src).value.items, name) < |ReadSource(src).value.items|
  {
    var c := Change(src, name, key, j);
    OnlyBetween(src, out, c.0, c.1, c.2)
  }

  lemma {:induction false} EntryCase(src: string, name: string, key: string, j: JVal, read: string -> Verdict)
    requires SetLiteral(src, name, key, j, read).Done? && Readable(j) && !WholeKey(key)
    requires HasEntry(src, name, key) && DistinctKeys(EntriesOf(src, name))
    ensures IsDocument(src, name)
    ensures var out := SetLiteral(src, name, key, j, read).text; OnlyConst(src, out, name, Outcome(src, name, key, ValueOf(j)))
    ensures var c := EntrySpan(src, name, key); OnlyBetween(src, SetLiteral(src, name, key, j, read).text, c.0, c.1, Render(j))
  {
    hide SetLiteral, HasEntry, EntrySpan, OnlyConst, MapOf, Readable, ValueOf, OnlyBetween, GetLiteral, IsDocument;
    EntryIsDocument(src, name, key);
    if Glued(j, src[EntrySpan(src, name, key).1..]) {
      GluedRefused(src, name, key, j, read);
    } else {
      EntryEdit(src, name, key, j, read);
      HasEntryMeans(src, name, key);
    }
  }

  lemma {:induction false} HasEntryIf(src: string, name: string, key: string)
    requires FindField(EntriesOf(src, name), key) < |EntriesOf(src, name)|
    ensures HasEntry(src, name, key)
  {
    hide ReadSource, FindConst, FieldsAt, FindField;
  }

  lemma {:induction false} HasEntryMeans(src: string, name: string, key: string)
    requires HasEntry(src, name, key)
    ensures var fs := EntriesOf(src, name); FindField(fs, key) < |fs| && fs[FindField(fs, key)].key == key
  {
    hide ReadSource, FindConst, FieldsAt, FindField;
  }

  lemma {:induction false} AddCase(src: string, name: string, key: string, j: JVal, read: string -> Verdict)
    requires SetLiteral(src, name, key, j, read).Done? && Readable(j) && !WholeKey(key) && Plain(key) && Strict(read)
    requires FindField(EntriesOf(src, name), key) == |EntriesOf(src, name)|
    ensures IsDocument(src, name)
    ensures var out := SetLiteral(src, name, key, j, read).text; OnlyConst(src, out, name, Outcome(src, name, key, ValueOf(j)))
  {
    hide ReadSource, LexFrom, LiteralAt, FindConst, PlaceOf, FieldsAt, FindField, Insertion, Readable, ValueOf,
      MapOf, SetLiteral, OnlyConst, OnlyBetween, GetLiteral, TakenForTable, LiteralFields, NoComment;
    var p, c, t := AddsToTable(src, name, key, j, read);
    TableIs(src, p.placed, c.from, c.to, t, read);
    AddEdit(src, name, key, j, read, p, c, t);
  }

  lemma {:induction false} AddCaseText(src: string, name: string, key: string, j: JVal, read: string -> Verdict)
    requires SetLiteral(src, name, key, j, read).Done? && Readable(j) && !WholeKey(key) && Plain(key) && Strict(read)
    requires FindField(EntriesOf(src, name), key) == |EntriesOf(src, name)|
    ensures ReadSource(src).Some? && FindConst(ReadSource(src).value.items, name) < |ReadSource(src).value.items|
    ensures OnlyChanged(src, SetLiteral(src, name, key, j, read).text, name, key, j)
  {
    hide ReadSource, LexFrom, LiteralAt, FindConst, PlaceOf, FieldsAt, FindField, Insertion, Readable, ValueOf,
      MapOf, SetLiteral, OnlyConst, OnlyBetween, GetLiteral, OnlyChanged, TakenForTable, LiteralFields, NoComment, Finds;
    var p, c, t := AddsToTable(src, name, key, j, read);
    FindsMeans(src, name, p, c);
    AddEdit(src, name, key, j, read, p, c, t);
    AddChanges(src, name, key, j, SetLiteral(src, name, key, j, read).text);
  }

  /** A key is only added to a table the strict reader lets through. */
  lemma {:induction false} AddsToTable(src: string, name: string, key: string, j: JVal, read: string -> Verdict) returns (p: Source, c: Item, t: string)
    requires SetLiteral(src, name, key, j, read).Done? && !WholeKey(key) && Strict(read)
    requires FindField(EntriesOf(src, name), key) == |EntriesOf(src, name)|
    ensures Finds(src, name, p, c) && TakenForTable(src, p.placed, c.from, c.to, t, read)
  {
    hide ReadSource, LexFrom, LiteralAt, FindConst, PlaceOf, FieldsAt, FindField, TrimEnd, Strict, SetLiteral, AddEntry;
    SetFinds(src, name, key, j, read);
    ConstPlaced(src, name);
    p := ReadSource(src).value;
    c := p.items[FindConst(p.items, name)];
    var A, Z := PlaceOf(src, p.placed, c.from), PlaceOf(src, p.placed, c.to);
    t := TrimEnd(src[A..Z]);
    SetAdds(src, name, key, j, read, p, c);
    AddsToTables(src, A, Z, key, j, read);
  }

  lemma {:induction false} FindsMeans(src: string, name: string, p: Source, c: Item)
    requires Finds(src, name, p, c)
    ensures ReadSource(src) == Some(p) && FindConst(p.items, name) < |p.items| && c == p.items[FindConst(p.items, name)] && c.Const? && c.to > 0
    ensures EntriesOf(src, name) == FieldsAt(ToksOf(p.placed), c.from)
  {
    hide ReadSource, LexFrom, FindConst, FieldsAt, PlaceOf;
  }

  lemma {:induction false} AddChanges(src: string, name: string, key: string, j: JVal, out: string)
    requires !WholeKey(key) && FindField(EntriesOf(src, name), key) == |EntriesOf(src, name)|
    requires ReadSource(src).Some? && FindConst(ReadSource(src).value.items, name) < |ReadSource(src).value.items|
    requires var p := ReadSource(src).value; var c := p.items[FindConst(p.items, name)];
             && c.to > 0
             && var close := PlaceOf(src, p.placed, c.to - 1);
                OnlyBetween(src, out, close, close, Insertion(EntriesOf(src, name) == [], key, j))
    ensures OnlyChanged(src, out, name, key, j)
  {
    hide ReadSource, LexFrom, FindConst, PlaceOf, FieldsAt, FindField, Insertion, OnlyBetween, Trimmed, Render, EntrySpan;
  }

  lemma {:induction false} AddsToTables(src: string, start: nat, end: nat, key: string, j: JVal, read: string -> Verdict)
    requires start <= end <= |src| && AddEntry(src, start, end, key, j, read).Done?
    ensures read(TrimEnd(src[start..end])).Table?
  {
    hide TrimEnd, LastBrace, Insertion, Checked;
  }

  /**
   * Whenever setting a literal succeeds, for a value and a key whose JSON text the lexer reads
   * back and a constant with distinct keys: reading gives the value back, under every other key
   * and every other name what it gave before, every other line of the program is what it was, and
   * so is every character outside the change.
   */
  lemma {:induction false} LiteralEditRoundTrip(src: string, name: string, key: string, j: JVal, read: string -> Verdict)
    requires SetLiteral(src, name, key, j, read).Done? && Readable(j) && Plain(key) && Strict(read)
    requires DistinctKeys(EntriesOf(src, name))
    ensures ReadSource(src).Some? && FindConst(ReadSource(src).value.items, name) < |ReadSource(src).value.items|
    ensures var out := SetLiteral(src, name, key, j, read).text;
            && GetLiteral(out, name, key) == Some(ValueOf(j))
            && OnlyChanged(src, out, name, key, j)
            && OtherLinesKept(src, out, name)
            && (forall other, k :: other != name ==> GetLiteral(out, other, k) == GetLiteral(src, other, k))
            && (!WholeKey(key) ==> forall k :: k != key && !WholeKey(k) ==>
                 GetLiteral(out, name, k) == GetLiteral(src, name, k))
  {
    hide SetLiteral, OnlyConst, OtherLinesKept, MapOf, Readable, ValueOf, OnlyBetween, GetLiteral, ReadSource, FindConst,
      FieldsAt, FindField, PlaceOf, Strict, Plain, IsDocument;
    var out := SetLiteral(src, name, key, j, read).text;
    SetFinds(src, name, key, j, read);
    if WholeKey(key) {
      WholeEdit(src, name, key, j, read);
    } else if FindField(EntriesOf(src, name), key) < |EntriesOf(src, name)| {
      HasEntryIf(src, name, key);
      EntryCase(src, name, key, j, read);
    } else {
      AddCase(src, name, key, j, read);
      AddCaseText(src, name, key, j, read);
    }
    var w := Outcome(src, name, key, ValueOf(j));
    OnlyConstReads(src, out, name, w, key);
    OnlyConstKeeps(src, out, name, w);
    forall other, k | other != name ensures GetLiteral(out, other, k) == GetLiteral(src, other, k) {
      OthersRead(src, out, name, w, other, k);
    }
    forall k | k != key && !WholeKey(k) && !WholeKey(key)
      ensures GetLiteral(out, name, k) == GetLiteral(src, name, k)
    {
      OnlyConstReads(src, out, name, w, k);
      DocumentReads(src, name, k);
    }
  }

  // ---------- what the edited program runs ----------

  lemma {:induction false} StmtsJoin(x: seq<Item>, y: seq<Item>)
    ensures StmtsOf(x + y) == StmtsOf(x) + StmtsOf(y)
  {
    hide StmtOf;
    if x == [] {
      assert x + y == y;
    } else {
      assert (x + y)[0] == x[0] && (x + y)[1..] == x[1..] + y;
      StmtsJoin(x[1..], y);
      assert StmtOf(x[0]) + (StmtsOf(x[1..]) + StmtsOf(y)) == StmtOf(x[0]) + StmtsOf(x[1..]) + StmtsOf(y);
    }
  }

  lemma {:induction false} SurfaceJoin(x: seq<Item>, y: seq<Item>)
    ensures SurfaceOf(x + y) == SurfaceOf(x) + SurfaceOf(y)
  {
    hide EntryOf;
    if x == [] {
      assert x + y == y;
    } else {
      assert (x + y)[0] == x[0] && (x + y)[1..] == x[1..] + y;
      SurfaceJoin(x[1..], y);
      assert EntryOf(x[0]) + (SurfaceOf(x[1..]) + SurfaceOf(y)) == EntryOf(x[0]) + SurfaceOf(x[1..]) + SurfaceOf(y);
    }
  }

  lemma {:induction false} SameStmts(a: seq<Item>, b: seq<Item>)
    requires |a| == |b| && forall k :: 0 <= k < |a| ==> SameLine(a[k], b[k])
    ensures StmtsOf(a) == StmtsOf(b) && SurfaceOf(a) == SurfaceOf(b)
  {
    if a != [] { SameStmts(a[1..], b[1..]); }
  }

  lemma {:induction false} OneLine(c: Item)
    requires c.Const?
    ensures StmtsOf([c]) == [Assign([c.name], Lit(c.value))] && SurfaceOf([c]) == [SurfaceEntry(c.name, c.value)]
  {
    assert [c][1..] == [];
    assert StmtOf(c) + [] == StmtOf(c) && EntryOf(c) + [] == EntryOf(c);
  }

  /** What a program and its surface come to around one constant. */
  lemma {:induction false} AroundConst(items: seq<Item>, m: nat)
    requires m < |items| && items[m].Const?
    ensures StmtsOf(items) == StmtsOf(items[..m]) + [Assign([items[m].name], Lit(items[m].value))] + StmtsOf(items[m + 1..])
    ensures SurfaceOf(items) == SurfaceOf(items[..m]) + [SurfaceEntry(items[m].name, items[m].value)] + SurfaceOf(items[m + 1..])
  {
    hide StmtsOf, SurfaceOf;
    var x, c, y := items[..m], [items[m]], items[m + 1..];
    assert items == (x + c) + y;
    OneLine(items[m]);
    StmtsJoin(x, c);
    StmtsJoin(x + c, y);
    SurfaceJoin(x, c);
    SurfaceJoin(x + c, y);
  }

  /**
   * The edited source parses to the same program but for one assignment and one surface entry:
   * those of the constant, which now have the value `v`.
   */
  lemma {:induction false} OneAssignmentChanges(src: string, out: string, name: string, v: Value) returns (k: nat, l: nat)
    requires OnlyConst(src, out, name, v)
    ensures Parse(src).Ok? && Parse(out).Ok?
    ensures var p, q := Parse(src).value, Parse(out).value;
            && k < |p.stmts| && p.stmts[k].Assign? && p.stmts[k].path == [name] && p.stmts[k].e.Lit?
            && q.stmts == p.stmts[k := Assign([name], Lit(v))]
            && l < |p.surface| && p.surface[l].name == name
            && q.surface == p.surface[l := SurfaceEntry(name, v)]
  {
    hide LexFrom, ParseItems', FindConst, StmtsOf, SurfaceOf, SameLine;
    var a, b := ReadSource(src).value.items, ReadSource(out).value.items;
    var m := FindConst(a, name);
    var d :| ReplacedConst(a, b, m, v, d);
    OnlyConstKeeps(src, out, name, v);
    AroundConst(a, m);
    AroundConst(b, m);
    SameStmts(a[..m], b[..m]);
    SameStmts(a[m + 1..], b[m + 1..]);
    k, l := |StmtsOf(a[..m])|, |SurfaceOf(a[..m])|;
  }
}
