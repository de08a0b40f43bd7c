// Reading and rewriting one literal of the business surface in the source text (core/src/vjs.rs).

module VjsEdit {
  import opened Wrappers
  import opened VjsSyntax
  import opened VjsParser
  import opened VjsProgram
  import opened VjsLocal
  import opened VjsSplice
  import opened VjsLexer
  import opened VjsRelex
  import opened VjsJson

  // ---------- the operations ----------

  /** A source that lexes and parses: its tokens with their places, and its lines. */
  datatype Source = Source(placed: seq<Placed>, items: seq<Item>)

  function ReadSource(src: string): (r: Option<Source>)
    ensures r.Some? ==> LexFrom(src) == Some(r.value.placed) && ParseItems'(ToksOf(r.value.placed), 0) == Some(r.value.items)
  {
    match LexFrom(src)
    case None => None
    case Some(ps) =>
      match ParseItems'(ToksOf(ps), 0)
      case None => None
      case Some(items) => Some(Source(ps, items))
  }

  /** vjs::parse, which a run's world can hold as its parser. */
  function Parse(src: string): (r: Result<Program>) {
    match LexFrom(src)
    case None => Err(Syntax)
    case Some(ps) => ParseProgram(ToksOf(ps))
  }

  /** The first constant of this name, or the number of lines. */
  function FindConst(items: seq<Item>, name: string): (m: nat)
    ensures m <= |items|
    ensures m < |items| ==> items[m].Const? && items[m].name == name
    ensures forall k :: 0 <= k < m ==> !(items[k].Const? && items[k].name == name)
  {
    if items == [] || (items[0].Const? && items[0].name == name) then 0 else 1 + FindConst(items[1..], name)
  }

  /** The first entry of this key, or the number of entries. */
  function FindField(fs: seq<LField>, key: string): (m: nat)
    ensures m <= |fs|
    ensures m < |fs| ==> fs[m].key == key
    ensures forall k :: 0 <= k < m ==> fs[k].key != key
  {
    if fs == [] || fs[0].key == key then 0 else 1 + FindField(fs[1..], key)
  }

  /** The whole constant is meant, not one entry of it. */
  predicate WholeKey(key: string) { key == "" || key == "-" }

  function Look(v: Value, key: string): (r: Option<Value>) {
    if WholeKey(key) then Some(v)
    else if v.Obj? && key in v.fields then Some(v.fields[key])
    else None
  }

  function GetLiteral(src: string, name: string, key: string): (r: Option<Value>) {
    match ReadSource(src)
    case None => None
    case Some(p) =>
      var m := FindConst(p.items, name);
      if m == |p.items| then None else Look(p.items[m].value, key)
  }

  /** Where token `k` starts in the text; past the tokens, where the last one does. */
  function PlaceOf(src: string, ps: seq<Placed>, k: nat): (i: nat)
    requires LexFrom(src) == Some(ps)
    ensures i <= |src|
  {
    var l := if k < |ps| then k else |ps| - 1;
    TokenReached(src, l);
    |src| - ps[l].rem
  }

  datatype EditError = BadSource | NoSuchLiteral | NotEditable | BadResult

  datatype Edited = Done(text: string) | Refused(why: EditError)

  /** An edit is kept only if its result parses. */
  function Checked(out: string): (r: Edited) {
    if ReadSource(out).Some? then Done(out) else Refused(BadResult)
  }

  function Trimmed(src: string, start: nat, end: nat): (e: nat)
    requires end <= |src|
    ensures e <= end && (start <= end ==> start <= e)
    ensures forall k :: e <= k < end ==> Space(src[k])
    ensures e > start ==> !Space(src[e - 1])
  {
    if end > start && Space(src[end - 1]) then Trimmed(src, start, end - 1) else end
  }

  /** The text with `mid` between `start` and `end`. */
  function Spliced(src: string, start: nat, end: nat, mid: string): (out: string)
    requires start <= |src| && end <= |src|
  {
    src[..start] + mid + src[end..]
  }

  /** What the strict JSON reader says of a text. */
  datatype Verdict = NotJson | NotATable | Table(empty: bool)

  predicate White(c: char) { Space(c) || c == '\n' || c as int == 11 || c as int == 12 }

  /** Without the white space at its end. */
  function TrimEnd(t: string): (u: string)
    ensures u <= t && (forall k :: |u| <= k < |t| ==> White(t[k])) && (u != "" ==> !White(u[|u| - 1]))
  {
    if t != "" && White(t[|t| - 1]) then TrimEnd(t[..|t| - 1]) else t
  }

  /** The last closing brace, or the length. */
  function LastBrace(t: string): (i: nat)
    ensures i <= |t|
    ensures i < |t| ==> t[i] == '}' && forall k :: i < k < |t| ==> t[k] != '}'
    ensures i == |t| ==> forall k :: 0 <= k < |t| ==> t[k] != '}'
  {
    if t == "" then 0
    else if t[|t| - 1] == '}' then |t| - 1
    else
      var i := LastBrace(t[..|t| - 1]);
      if i == |t| - 1 then |t| else i
  }

  function Insertion(empty: bool, key: string, j: JVal): (s: string) {
    (if empty then "" else ", ") + Quote(key) + ": " + Render(j)
  }

  function AddEntry(src: string, start: nat, end: nat, key: string, j: JVal, read: string -> Verdict): (r: Edited)
    requires start <= end <= |src|
  {
    var t := TrimEnd(src[start..end]);
    match read(t)
    case NotJson => Refused(NotEditable)
    case NotATable => Refused(NotEditable)
    case Table(empty) =>
      var b := LastBrace(t);
      if b == |t| then Refused(NotEditable)
      else Checked(Spliced(src, start + b, start + b, Insertion(empty, key, j)))
  }

  function SetLiteral(src: string, name: string, key: string, j: JVal, read: string -> Verdict): (r: Edited) {
    match ReadSource(src)
    case None => Refused(BadSource)
    case Some(p) =>
      var m := FindConst(p.items, name);
      if m == |p.items| then Refused(NoSuchLiteral)
      else
        var ts := ToksOf(p.placed);
        var c := p.items[m];
        var fs := FieldsAt(ts, c.from);
        var f := FindField(fs, key);
        if WholeKey(key) || f < |fs| then
          var (from, to) := if WholeKey(key) then (c.from, c.to) else (fs[f].from, fs[f].to);
          var start := PlaceOf(src, p.placed, from);
          Checked(Spliced(src, start, Trimmed(src, start, PlaceOf(src, p.placed, to)), Render(j)))
        else
          ConstsFollow(ts, 0, m);
          PlacesOrdered(src, p.placed, c.from, c.to);
          AddEntry(src, PlaceOf(src, p.placed, c.from), PlaceOf(src, p.placed, c.to), key, j, read)
  }

  /** Tokens stand in the text in their order. */
  lemma {:induction false} PlacesOrdered(src: string, ps: seq<Placed>, k: nat, l: nat)
    requires LexFrom(src) == Some(ps) && k <= l
    ensures PlaceOf(src, ps, k) <= PlaceOf(src, ps, l)
  {
    hide LexFrom, LexOne, Reaches, Before;
    if k < |ps| {
      TokenReached(src, k);
      var r := ps[k].rem;
      var l' := if l < |ps| then l else |ps| - 1;
      TokenReached(Rest(src, r), l' - k);
      assert ps[k..][l' - k] == ps[l'];
    }
  }
}
