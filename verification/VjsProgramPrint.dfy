// A whole program reads back (core/src/vjs.rs): directives, constants of the business surface and
// statements, one a line, parse to what they say, in order.

module VjsProgramPrint {
  import opened Wrappers
  import opened VjsSyntax
  import opened VjsParser
  import opened VjsPratt
  import opened VjsProgram
  import opened VjsSplice
  import opened VjsJson
  import opened VjsStmtPrint

  predicate Lower(c: char) { 'a' <= c <= 'z' }

  predicate WordLike(c: char) { Lower(c) || 'A' <= c <= 'Z' || c == '_' || '0' <= c <= '9' }

  /** A name is one of the surface exactly if it has no lower-case letter and at least one that is upper case. */
  lemma {:induction false} SurfaceNameIs(s: string)
    requires forall k :: 0 <= k < |s| ==> WordLike(s[k])
    ensures SurfaceName(s) <==> (forall k :: 0 <= k < |s| ==> !Lower(s[k])) && exists k :: 0 <= k < |s| && 'A' <= s[k] <= 'Z'
  {
    if exists k :: 0 <= k < |s| && 'A' <= s[k] <= 'Z' {
      var k :| 0 <= k < |s| && 'A' <= s[k] <= 'Z';
      assert Upper(s[k]);
    }
  }

  /** A line as it is written; a constant has its value as a document. */
  datatype Written = Directed(kind: Tok, text: string) | Surface(name: string, j: JVal) | Statement(s: Stmt)

  predicate WritableLine(l: Written) {
    match l
    case Directed(kind, _) => kind.TSource? || kind.TTool? || kind.TDriver? || kind.TApi?
    case Surface(name, j) => SurfaceName(name) && Readable(j)
    case Statement(s) => WritableStmt(s)
  }

  /** An assignment to a surface name: what is computed stands in parentheses, so that it is no constant. */
  predicate Disguised(s: Stmt) {
    s.Assign? && |s.path| == 1 && SurfaceName(s.path[0]) && !s.e.Invoke?
  }

  function PrintLine(l: Written): (ts: Toks)
    requires WritableLine(l)
  {
    match l
    case Directed(kind, text) => [kind, TStr(text)]
    case Surface(name, j) => [TIdent(name)] + ([TEq] + ToksFor(j))
    case Statement(s) =>
      if Disguised(s) then [TIdent(s.path[0])] + ([TEq] + ([TLParen] + (Print(s.e, 0) + [TRParen]))) else PrintStmt(s)
  }

  function PrintProgram(ls: seq<Written>): (ts: Toks)
    requires forall k :: 0 <= k < |ls| ==> WritableLine(ls[k])
  {
    if ls == [] then [] else PrintLine(ls[0]) + [TNewline] + PrintProgram(ls[1..])
  }

  /** The line as it is read. */
  ghost predicate ReadsAs(l: Written, it: Item)
    requires WritableLine(l)
  {
    match l
    case Directed(kind, text) => it == Directive(kind, text)
    case Surface(name, j) => it.Const? && it.name == name && it.value == ValueOf(j)
    case Statement(s) => it == Line(s)
  }

  lemma {:induction false} ReadDirective(l: Written, ts: Toks, i: nat)
    requires WritableLine(l) && l.Directed? && At(ts, i, PrintLine(l))
    ensures i <= |ts| && ParseItem(ts, i).Yes? && ParseItem(ts, i).next == i + |PrintLine(l)| && ReadsAs(l, ParseItem(ts, i).value)
  {
    assert [l.kind, TStr(l.text)] == [l.kind] + [TStr(l.text)];
    hide At;
    AtHead(ts, i, l.kind, [TStr(l.text)]);
    AtOne(ts, i + 1, TStr(l.text));
  }

  lemma {:induction false} ReadConstant(l: Written, ts: Toks, i: nat)
    requires WritableLine(l) && l.Surface? && At(ts, i, PrintLine(l)) && Peek(ts, i + |PrintLine(l)|) == TNewline
    ensures i <= |ts| && ParseItem(ts, i).Yes? && ParseItem(ts, i).next == i + |PrintLine(l)| && ReadsAs(l, ParseItem(ts, i).value)
  {
    hide At, Readable, ToksFor, ValueOf, SurfaceName, LiteralAt, ParseStmt;
    var v := ToksFor(l.j);
    AtHead(ts, i, TIdent(l.name), [TEq] + v);
    AtHead(ts, i + 1, TEq, v);
    AtBound(ts, i + 2, v);
    LiteralReads(l.j, ts, i + 2);
  }

  lemma {:induction false} NoLiteralInParens(ts: Toks, i: nat)
    requires i < |ts| && (ts[i] == TLParen || ts[i] == TInvoke)
    ensures LiteralAt(ts, i).LNo?
  {
    hide LiteralItems, LiteralFields;
  }

  /** A statement that does not start like a constant is read as a statement. */
  lemma {:induction false} LineStep(ts: Toks, i: nat)
    requires i < |ts| && StartsStmt(ts[i]) && !StartsConst(ts, i) && ParseStmt(ts, i).Yes?
    ensures ParseItem(ts, i) == Yes(Line(ParseStmt(ts, i).value), ParseStmt(ts, i).next)
  {
    hide StartsConst, ParseStmt;
  }

  lemma {:induction false} DisguisedShape(s: Stmt)
    requires WritableStmt(s) && Disguised(s)
    ensures s.Assign? && |s.path| == 1 && Writable(s.e) && WritableLine(Statement(s))
    ensures PrintLine(Statement(s)) == [TIdent(s.path[0])] + ([TEq] + ([TLParen] + (Print(s.e, 0) + [TRParen])))
  {
    hide Print, Writable, SurfaceName, PrintStmt;
  }

  lemma {:induction false} ReadDisguised(s: Stmt, ts: Toks, i: nat)
    requires WritableStmt(s) && Disguised(s) && At(ts, i, PrintLine(Statement(s))) && Peek(ts, i + |PrintLine(Statement(s))|) == TNewline
    ensures i <= |ts| && ParseItem(ts, i) == Yes(Line(s), i + |PrintLine(Statement(s))|)
  {
    hide At, Print, Writable, WritableStmt, WritableLine, PrintLine, Disguised, ParseExpr, ParseInvoke, ParsePath, ParseStmt, ParseItem,
      LiteralAt, SurfaceName, Stops;
    DisguisedShape(s);
    var t := Print(s.e, 0);
    var n := i + 3 + |t|;
    AtHead(ts, i, TIdent(s.path[0]), [TEq] + ([TLParen] + (t + [TRParen])));
    AtHead(ts, i + 1, TEq, [TLParen] + (t + [TRParen]));
    AtHead(ts, i + 2, TLParen, t + [TRParen]);
    AtSplit(ts, i + 3, t, [TRParen]);
    AtOne(ts, n, TRParen);
    EndsExpr(TRParen);
    ReadWhole(s.e, 0, ts, i + 3);
    Parenthesized(ts, i + 2, s.e, n);
    NoLiteralInParens(ts, i + 2);
    PathEnds(ts, i + 1, s.path[0]);
    assert [s.path[0]] == s.path;
    AssignStep(ts, i, i + 1, s);
    LineStep(ts, i);
  }

  lemma {:induction false} PathEnds(ts: Toks, i: nat, name: string)
    requires i < |ts| && ts[i] == TEq
    ensures ParsePath(ts, i, [name]) == Yes([name], i)
  {
  }

  /** How a printed statement starts that is not disguised: not like a constant. */
  lemma {:induction false} NoConstant(s: Stmt, ts: Toks, i: nat)
    requires WritableStmt(s) && !Disguised(s) && At(ts, i, PrintStmt(s))
    ensures i < |ts| && StartsStmt(ts[i]) && !StartsConst(ts, i)
  {
    hide At, Print, PrintPath, PrintAssigned, PrintBlock, PrintArm, PrintElifs, PrintElse, Writable, LiteralAt, SurfaceName, WritableStmt, PrintStmt;
    StmtStarts(s);
    AtFirst(ts, i, PrintStmt(s));
    if s.Assign? {
      AssignShape(s);
      var p, v := PrintPath(s.path[1..]), PrintAssigned(s.e);
      AtHead(ts, i, TIdent(s.path[0]), p + [TEq] + v);
      AtThree(ts, i + 1, p, TEq, v);
      PathStarts(s.path[1..]);
      if |s.path| == 1 {
        if s.e.Invoke? {
          NotInvoke(s.e);
          GivenShape(s.e.service, s.e.given);
          AtFirst(ts, i + 2, v);
          NoLiteralInParens(ts, i + 2);
        }
      } else {
        AtFirst(ts, i + 1, p);
      }
    } else {
      NoName(s);
    }
  }

  lemma {:induction false} PathStarts(path: seq<string>)
    ensures if path == [] then PrintPath(path) == [] else PrintPath(path) != [] && PrintPath(path)[0] == TDot
  {
  }

  lemma {:induction false} NoName(s: Stmt)
    requires WritableStmt(s) && !s.Assign?
    ensures PrintStmt(s) != [] && !PrintStmt(s)[0].TIdent?
  {
    hide Print, PrintBlock, PrintArm, PrintElifs, PrintElse, PrintEntries;
  }

  lemma {:induction false} ReadLine(l: Written, ts: Toks, i: nat)
    requires WritableLine(l) && At(ts, i, PrintLine(l)) && Peek(ts, i + |PrintLine(l)|) == TNewline
    ensures i <= |ts| && ParseItem(ts, i).Yes? && ParseItem(ts, i).next == i + |PrintLine(l)| && ReadsAs(l, ParseItem(ts, i).value)
  {
    match l
    case Directed(_, _) => ReadDirective(l, ts, i);
    case Surface(_, _) => ReadConstant(l, ts, i);
    case Statement(s) =>
      hide At, PrintStmt, WritableStmt, ParseItem, ParseStmt, StartsConst, Disguised;
      if Disguised(s) {
        ReadDisguised(s, ts, i);
      } else {
        ReadStmt(s, ts, i);
        NoConstant(s, ts, i);
        LineStep(ts, i);
      }
  }

  lemma {:induction false} LineStarts(l: Written)
    requires WritableLine(l)
    ensures PrintLine(l) != [] && PrintLine(l)[0] != TNewline
  {
    if l.Statement? { StmtStarts(l.s); }
    hide PrintStmt, ToksFor, Print, Disguised;
  }

  lemma {:induction false} ReadLines(ls: seq<Written>, ts: Toks, i: nat) returns (items: seq<Item>)
    requires (forall k :: 0 <= k < |ls| ==> WritableLine(ls[k])) && At(ts, i, PrintProgram(ls)) && OnlyNewlines(ts, i + |PrintProgram(ls)|)
    ensures i <= |ts| && ParseItems'(ts, i) == Some(items) && |items| == |ls| && forall k :: 0 <= k < |ls| ==> ReadsAs(ls[k], items[k])
    decreases |ls|
  {
    hide At, PrintLine, WritableLine, ReadsAs, ParseItem, ParseItems', SkipNewlines;
    if ls == [] {
      items := [];
      AtBound(ts, i, PrintProgram(ls));
      ItemsStep(ts, i);
      AtTheEnd(ts, i);
    } else {
      var x, rest := PrintLine(ls[0]), PrintProgram(ls[1..]);
      var n := i + |x|;
      AtThree(ts, i, x, TNewline, rest);
      LineStarts(ls[0]);
      AtFirst(ts, i, x);
      ReadLine(ls[0], ts, i);
      var more := ReadLines(ls[1..], ts, n + 1);
      SkipTo(ts, i, i);
      ItemsStep(ts, i);
      ItemsSkip(ts, n);
      items := [ParseItem(ts, i).value] + more;
    }
  }

  /** From `i` on there are only the ends of lines. */
  ghost predicate OnlyNewlines(ts: Toks, i: nat) { forall k :: i <= k < |ts| ==> ts[k] == TNewline }

  lemma {:induction false} AtTheEnd(ts: Toks, i: nat)
    requires i <= |ts| && OnlyNewlines(ts, i)
    ensures AtEnd(ts, SkipNewlines(ts, i))
  {
    SkipTo(ts, i, |ts|);
  }

  /** A newline in front of the lines is skipped. */
  lemma {:induction false} ItemsSkip(ts: Toks, i: nat)
    requires i < |ts| && ts[i] == TNewline
    ensures ParseItems'(ts, i) == ParseItems'(ts, i + 1)
  {
    hide ParseItem;
    assert SkipNewlines(ts, i) == SkipNewlines(ts, i + 1);
  }

  /** What a program does: a constant is an assignment of its value, a directive nothing. */
  ghost function Stmts(ls: seq<Written>): (ss: seq<Stmt>)
    requires forall k :: 0 <= k < |ls| ==> WritableLine(ls[k])
  {
    if ls == [] then [] else Does(ls[0]) + Stmts(ls[1..])
  }

  ghost function Does(l: Written): (ss: seq<Stmt>)
    requires WritableLine(l)
  {
    match l
    case Directed(_, _) => []
    case Surface(name, j) => [Assign([name], Lit(ValueOf(j)))]
    case Statement(s) => [s]
  }

  ghost function Shows(l: Written): (es: seq<SurfaceEntry>)
    requires WritableLine(l)
  {
    if l.Surface? then [SurfaceEntry(l.name, ValueOf(l.j))] else []
  }

  /** Its business surface: the constants, in order. */
  ghost function Constants(ls: seq<Written>): (es: seq<SurfaceEntry>)
    requires forall k :: 0 <= k < |ls| ==> WritableLine(ls[k])
  {
    if ls == [] then [] else Shows(ls[0]) + Constants(ls[1..])
  }

  lemma {:induction false} ItemsSay(ls: seq<Written>, items: seq<Item>)
    requires (forall k :: 0 <= k < |ls| ==> WritableLine(ls[k])) && |items| == |ls| && forall k :: 0 <= k < |ls| ==> ReadsAs(ls[k], items[k])
    ensures StmtsOf(items) == Stmts(ls) && SurfaceOf(items) == Constants(ls)
    decreases |ls|
  {
    if ls != [] { ItemsSay(ls[1..], items[1..]); }
  }

  /** The program round trip: what a program says is what is parsed from its lines. */
  lemma {:induction false} ProgramRoundTrip(ls: seq<Written>, after: Toks)
    requires (forall k :: 0 <= k < |ls| ==> WritableLine(ls[k])) && OnlyNewlines(after, 0)
    ensures ParseProgram(PrintProgram(ls) + after) == Ok(Program(Stmts(ls), Constants(ls)))
  {
    hide PrintProgram, WritableLine, ReadsAs, ParseItems', StmtsOf, SurfaceOf, Stmts, Constants;
    var ts := PrintProgram(ls) + after;
    assert ts[0..0 + |PrintProgram(ls)|] == PrintProgram(ls);
    var items := ReadLines(ls, ts, 0);
    ItemsSay(ls, items);
  }
}
