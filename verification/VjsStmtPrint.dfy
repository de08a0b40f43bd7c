// Statements and whole programs read back (core/src/vjs.rs): every statement the language can write,
// printed from its tree by the syntax, parses to that tree and consumes exactly its tokens; the parser
// gives no other statements; and a program of directives, surface constants and statements parses to
// what it says.

module VjsStmtPrint {
  import opened Wrappers
  import opened VjsSyntax
  import opened VjsParser
  import opened VjsPratt
  import opened VjsProgram
  import opened VjsSplice

  // ---------- the statements of the language ----------

  predicate WritableStmt(s: Stmt) {
    match s
    case Assign(path, e) => path != [] && Writable(e)
    case If(arms, otherwise) =>
      && arms != [] && (forall k :: 0 <= k < |arms| ==> WritableArm(arms[k]))
      && (otherwise.Else? ==> WritableBlock(otherwise.block))
    case For(_, iter, body) => Writable(iter) && WritableBlock(body)
    case Emit(a, b) => Writable(a) && Writable(b)
    case Respond(a, b) => Writable(a) && Writable(b)
    case InvokeMerge(_, given) => forall k :: 0 <= k < |given| ==> Writable(given[k].value)
  }

  predicate WritableArm(a: Arm) { Writable(a.guard) && WritableBlock(a.body) }

  predicate WritableBlock(ss: seq<Stmt>) { forall k :: 0 <= k < |ss| ==> WritableStmt(ss[k]) }

  // ---------- printing ----------

  function PrintStmt(s: Stmt): (ts: Toks)
    requires WritableStmt(s)
    decreases s
  {
    match s
    case Assign(path, e) => [TIdent(path[0])] + PrintPath(path[1..]) + [TEq] + PrintAssigned(e)
    case Emit(a, b) => [TEmit] + Print(a, 0) + [TComma] + Print(b, 0)
    case Respond(a, b) => [TRespond] + Print(a, 0) + [TComma] + Print(b, 0)
    case InvokeMerge(service, given) => [TInvoke] + (ServiceToks(service) + [TLParen] + PrintEntries(given) + [TRParen])
    case If(arms, otherwise) => [TIf] + PrintArm(arms[0]) + PrintElifs(arms[1..]) + PrintElse(otherwise) + [TEnd]
    case For(name, iter, body) => [TFor, TIdent(name), TIn] + Print(iter, 0) + [TColon] + PrintBlock(body) + [TEnd]
  }

  /** `.field` for each name after the first. */
  function PrintPath(path: seq<string>): (ts: Toks) {
    if path == [] then [] else [TDot, TStr(path[0])] + PrintPath(path[1..])
  }

  /** A value that starts with `invoke` and goes on after it stands in parentheses. */
  function PrintAssigned(e: Expr): (ts: Toks) {
    var ts := Print(e, 0);
    if !e.Invoke? && ts != [] && ts[0] == TInvoke then [TLParen] + ts + [TRParen] else ts
  }

  /** `guard: block` */
  function PrintArm(a: Arm): (ts: Toks)
    requires WritableArm(a)
    decreases a
  {
    Print(a.guard, 0) + [TColon] + PrintBlock(a.body)
  }

  function PrintElifs(arms: seq<Arm>): (ts: Toks)
    requires forall k :: 0 <= k < |arms| ==> WritableArm(arms[k])
    decreases arms
  {
    if arms == [] then [] else [TElif] + PrintArm(arms[0]) + PrintElifs(arms[1..])
  }

  function PrintElse(otherwise: Else): (ts: Toks)
    requires otherwise.Else? ==> WritableBlock(otherwise.block)
    decreases otherwise
  {
    if otherwise.NoElse? then [] else [TElse, TColon] + PrintBlock(otherwise.block)
  }

  /** One statement a line. */
  function PrintBlock(ss: seq<Stmt>): (ts: Toks)
    requires WritableBlock(ss)
    decreases ss
  {
    if ss == [] then [] else PrintStmt(ss[0]) + [TNewline] + PrintBlock(ss[1..])
  }

  // ---------- small steps ----------

  predicate Closer(t: Tok) { t.TEnd? || t.TElif? || t.TElse? }

  /** A token a statement starts with. */
  predicate StartsStmt(t: Tok) { t.TIdent? || t.TEmit? || t.TRespond? || t.TInvoke? || t.TIf? || t.TFor? }

  lemma {:induction false} StmtStarts(s: Stmt)
    requires WritableStmt(s)
    ensures PrintStmt(s) != [] && StartsStmt(PrintStmt(s)[0])
  {
    hide Print, PrintArm, PrintElifs, PrintElse, PrintBlock, PrintPath, PrintAssigned, PrintEntries;
  }

  /** Where something else follows what is expected. */
  lemma {:induction false} AtThree(ts: Toks, i: nat, x: Toks, t: Tok, y: Toks)
    requires At(ts, i, x + [t] + y)
    ensures At(ts, i, x) && i + |x| < |ts| && ts[i + |x|] == t && At(ts, i + |x| + 1, y) && |x + [t] + y| == |x| + 1 + |y|
  {
    assert x + [t] + y == x + ([t] + y);
    hide At;
    AtSplit(ts, i, x, [t] + y);
    AtSplit(ts, i + |x|, [t], y);
    AtOne(ts, i + |x|, t);
  }

  lemma {:induction false} AtHead(ts: Toks, i: nat, t: Tok, x: Toks)
    requires At(ts, i, [t] + x)
    ensures i < |ts| && ts[i] == t && At(ts, i + 1, x)
  {
    hide At;
    AtSplit(ts, i, [t], x);
    AtOne(ts, i, t);
  }

  lemma {:induction false} EndsExpr(t: Tok)
    requires t == TColon || t == TComma || t == TNewline || t == TRParen
    ensures Stops(t, 0)
  {
  }

  // ---------- assignments ----------

  lemma {:induction false} ReadPath(path: seq<string>, done: seq<string>, ts: Toks, i: nat)
    requires At(ts, i, PrintPath(path)) && Peek(ts, i + |PrintPath(path)|) == TEq
    ensures ParsePath(ts, i, done) == Yes(done + path, i + |PrintPath(path)|)
    decreases |path|
  {
    hide At;
    if path == [] {
      assert done + path == done;
      AtBound(ts, i, []);
    } else {
      var rest := PrintPath(path[1..]);
      assert [TDot, TStr(path[0])] + rest == [TDot] + ([TStr(path[0])] + rest);
      AtHead(ts, i, TDot, [TStr(path[0])] + rest);
      AtHead(ts, i + 1, TStr(path[0]), rest);
      ReadPath(path[1..], done + [path[0]], ts, i + 2);
      assert done + [path[0]] + path[1..] == done + path;
    }
  }

  lemma {:induction false} AtBound(ts: Toks, i: nat, x: Toks)
    requires At(ts, i, x)
    ensures i + |x| <= |ts|
  {
  }

  lemma {:induction false} NotInvoke(e: Expr)
    requires Writable(e)
    ensures var t := PrintAssigned(e);
            t != [] && (e.Invoke? || t[0] != TInvoke) && (e.Invoke? ==> t == Bare(e))
  {
    PrintStarts(e, 0);
    hide Bare;
  }

  /** The value of an assignment, up to the end of its line. */
  lemma {:induction false} ReadAssigned(e: Expr, ts: Toks, i: nat)
    requires Writable(e) && !e.Invoke? && At(ts, i, PrintAssigned(e)) && Peek(ts, i + |PrintAssigned(e)|) == TNewline
    ensures ParseExpr(ts, i, 0) == Yes(e, i + |PrintAssigned(e)|)
  {
    hide At, Print, PrintStmt, PrintBlock, PrintArm, PrintElifs, PrintElse, PrintPath, PrintAssigned, PrintEntries, ServiceToks, Bare,
      Writable, WritableStmt, WritableArm, WritableBlock, ParseExpr, ParseInvoke, ParseNamed, ParsePath, ParseStmt, ParseBlock, ParseArm, ParseArms, Stops;
    var t := Print(e, 0);
    AssignedShape(e);
    EndsExpr(TNewline);
    EndsExpr(TRParen);
    if PrintAssigned(e) == t {
      ReadWhole(e, 0, ts, i);
    } else {
      var n := i + 1 + |t|;
      AtHead(ts, i, TLParen, t + [TRParen]);
      AtSplit(ts, i + 1, t, [TRParen]);
      AtOne(ts, n, TRParen);
      ReadWhole(e, 0, ts, i + 1);
      Parenthesized(ts, i, e, n);
    }
  }

  lemma {:induction false} AssignedShape(e: Expr)
    ensures PrintAssigned(e) == Print(e, 0) || PrintAssigned(e) == [TLParen] + (Print(e, 0) + [TRParen])
  {
    hide Print;
    assert [TLParen] + Print(e, 0) + [TRParen] == [TLParen] + (Print(e, 0) + [TRParen]);
  }

  lemma {:induction false} Parenthesized(ts: Toks, i: nat, e: Expr, n: nat)
    requires i < n < |ts| && ts[i] == TLParen && ParseExpr(ts, i + 1, 0) == Yes(e, n) && ts[n] == TRParen && Peek(ts, n + 1) == TNewline
    ensures ParseExpr(ts, i, 0) == Yes(e, n + 1)
  {
    assert ParsePrefix(ts, i) == Yes(e, n + 1) by { hide ParseExpr; }
    NothingGoesOn(ts, n + 1, e);
    hide ParsePrefix, ParsePostfix, ParseBinary;
  }

  lemma {:induction false} NothingGoesOn(ts: Toks, i: nat, lhs: Expr)
    requires i <= |ts| && Peek(ts, i) == TNewline
    ensures ParsePostfix(ts, i, lhs) == Yes(lhs, i) && ParseBinary(ts, i, lhs, 0) == Yes(lhs, i)
  {
    hide ParseExpr;
  }

  lemma {:induction false} AssignShape(s: Stmt)
    requires WritableStmt(s) && s.Assign?
    ensures s.path != [] && Writable(s.e) && PrintStmt(s) == [TIdent(s.path[0])] + (PrintPath(s.path[1..]) + [TEq] + PrintAssigned(s.e))
  {
    hide PrintPath, PrintAssigned, Writable;
    var p, v := PrintPath(s.path[1..]), PrintAssigned(s.e);
    assert [TIdent(s.path[0])] + p + [TEq] + v == [TIdent(s.path[0])] + (p + [TEq] + v);
  }

  lemma {:induction false} ReadAssign(s: Stmt, ts: Toks, i: nat)
    requires WritableStmt(s) && s.Assign? && At(ts, i, PrintStmt(s)) && Peek(ts, i + |PrintStmt(s)|) == TNewline
    ensures i <= |ts| && ParseStmt(ts, i) == Yes(s, i + |PrintStmt(s)|)
  {
    hide At, Print, PrintStmt, PrintBlock, PrintArm, PrintElifs, PrintElse, PrintPath, PrintAssigned, PrintEntries, ServiceToks, Bare,
      Writable, WritableStmt, WritableArm, WritableBlock, ParseExpr, ParseInvoke, ParseNamed, ParsePath, ParseStmt, ParseBlock, ParseArm, ParseArms, Stops;
    AssignShape(s);
    var path, e := s.path, s.e;
    var p, v := PrintPath(path[1..]), PrintAssigned(e);
    var n := i + 1 + |p|;
    AtHead(ts, i, TIdent(path[0]), p + [TEq] + v);
    AtThree(ts, i + 1, p, TEq, v);
    NotInvoke(e);
    AtFirst(ts, n + 1, v);
    ReadPath(path[1..], [path[0]], ts, i + 1);
    assert [path[0]] + path[1..] == path;
    if e.Invoke? {
      GivenWritable(e);
      ReadGiven(e.service, e.given, ts, n + 1);
    } else {
      ReadAssigned(e, ts, n + 1);
    }
    AssignStep(ts, i, n, s);
  }

  lemma {:induction false} GivenWritable(e: Expr)
    requires Writable(e) && e.Invoke?
    ensures forall k :: 0 <= k < |e.given| ==> Writable(e.given[k].value)
  {
  }

  lemma {:induction false} GivenShape(service: string, given: seq<Entry>)
    ensures Bare(Invoke(service, given)) == [TInvoke] + (ServiceToks(service) + [TLParen] + PrintEntries(given) + [TRParen])
  {
    hide ServiceToks, PrintEntries;
    var name, args := ServiceToks(service), PrintEntries(given);
    assert [TInvoke] + name + [TLParen] + args + [TRParen] == [TInvoke] + (name + [TLParen] + args + [TRParen]);
  }

  /** `invoke` with its service and arguments. */
  lemma {:induction false} ReadGiven(service: string, given: seq<Entry>, ts: Toks, i: nat)
    requires (forall k :: 0 <= k < |given| ==> Writable(given[k].value)) && At(ts, i, Bare(Invoke(service, given)))
    ensures i + 1 <= |ts| && ts[i] == TInvoke && ParseInvoke(ts, i + 1) == Yes((service, given), i + |Bare(Invoke(service, given))|)
  {
    hide At, Print, PrintStmt, PrintBlock, PrintArm, PrintElifs, PrintElse, PrintPath, PrintAssigned, PrintEntries, ServiceToks, Bare,
      Writable, WritableStmt, WritableArm, WritableBlock, ParseExpr, ParseInvoke, ParseNamed, ParsePath, ParseStmt, ParseBlock, ParseArm, ParseArms, Stops;
    GivenShape(service, given);
    var name, args := ServiceToks(service), PrintEntries(given);
    AtHead(ts, i, TInvoke, name + [TLParen] + args + [TRParen]);
    AtFour(ts, i + 1, name, TLParen, args, TRParen);
    AtJoin(ts, i + 1, name, TLParen);
    ReadService(service, ts, i + 1);
    AtJoin(ts, i + 2 + |name|, args, TRParen);
    ReadNamed(given, ts, i + 2 + |name|);
  }

  lemma {:induction false} AssignStep(ts: Toks, i: nat, n: nat, s: Stmt)
    requires s.Assign? && i < n < |ts| && ts[i].TIdent? && ParsePath(ts, i + 1, [ts[i].s]) == Yes(s.path, n) && ts[n] == TEq
    requires if Peek(ts, n + 1) == TInvoke then
               var r := ParseInvoke(ts, n + 2 as nat); n + 2 <= |ts| && r.Yes? && s.e == Invoke(r.value.0, r.value.1)
             else ParseExpr(ts, n + 1, 0).Yes? && ParseExpr(ts, n + 1, 0).value == s.e
    ensures ParseStmt(ts, i) == Yes(s, if Peek(ts, n + 1) == TInvoke then ParseInvoke(ts, n + 2).next else ParseExpr(ts, n + 1, 0).next)
  {
    hide ParseExpr, ParseInvoke, ParsePath;
  }

  // ---------- emit, respond, invoke ----------

  lemma {:induction false} ReadTwo(a: Expr, b: Expr, ts: Toks, i: nat)
    requires Writable(a) && Writable(b) && At(ts, i, Print(a, 0) + [TComma] + Print(b, 0))
    requires Peek(ts, i + |Print(a, 0)| + 1 + |Print(b, 0)|) == TNewline
    ensures i <= |ts| && ParsePair(ts, i) == Yes((a, b), i + |Print(a, 0)| + 1 + |Print(b, 0)|)
  {
    hide At, Print, Writable, ParseExpr, Stops;
    EndsExpr(TComma);
    EndsExpr(TNewline);
    AtThree(ts, i, Print(a, 0), TComma, Print(b, 0));
    ReadWhole(a, 0, ts, i);
    ReadWhole(b, 0, ts, i + |Print(a, 0)| + 1);
  }

  lemma {:induction false} EmitShape(s: Stmt) returns (t: Tok, a: Expr, b: Expr)
    requires WritableStmt(s) && (s.Emit? || s.Respond?)
    ensures (s == Emit(a, b) && t == TEmit) || (s == Respond(a, b) && t == TRespond)
    ensures Writable(a) && Writable(b) && PrintStmt(s) == [t] + (Print(a, 0) + [TComma] + Print(b, 0))
  {
    hide Print, Writable;
    t, a, b := if s.Emit? then TEmit else TRespond, if s.Emit? then s.subject else s.status, if s.Emit? then s.payload else s.answer;
    assert [t] + Print(a, 0) + [TComma] + Print(b, 0) == [t] + (Print(a, 0) + [TComma] + Print(b, 0));
  }

  lemma {:induction false} ReadEmit(s: Stmt, ts: Toks, i: nat)
    requires WritableStmt(s) && (s.Emit? || s.Respond?) && At(ts, i, PrintStmt(s)) && Peek(ts, i + |PrintStmt(s)|) == TNewline
    ensures i <= |ts| && ParseStmt(ts, i) == Yes(s, i + |PrintStmt(s)|)
  {
    hide At, Print, PrintStmt, PrintBlock, PrintArm, PrintElifs, PrintElse, PrintPath, PrintAssigned, PrintEntries, ServiceToks, Bare,
      Writable, WritableStmt, WritableArm, WritableBlock, ParseExpr, ParseInvoke, ParseNamed, ParsePath, ParseStmt, ParseBlock, ParseArm, ParseArms, Stops, ParsePair;
    var t, a, b := EmitShape(s);
    AtHead(ts, i, t, Print(a, 0) + [TComma] + Print(b, 0));
    ReadTwo(a, b, ts, i + 1);
    EmitStep(ts, i, s);
  }

  lemma {:induction false} EmitStep(ts: Toks, i: nat, s: Stmt)
    requires i < |ts| && ParsePair(ts, i + 1).Yes?
    ensures var p := ParsePair(ts, i + 1);
            && (ts[i] == TEmit ==> ParseStmt(ts, i) == Yes(Emit(p.value.0, p.value.1), p.next))
            && (ts[i] == TRespond ==> ParseStmt(ts, i) == Yes(Respond(p.value.0, p.value.1), p.next))
  {
    hide ParsePair;
  }

  lemma {:induction false} MergeShape(s: Stmt)
    requires WritableStmt(s) && s.InvokeMerge?
    ensures PrintStmt(s) == Bare(Invoke(s.service, s.given)) && forall k :: 0 <= k < |s.given| ==> Writable(s.given[k].value)
  {
    GivenShape(s.service, s.given);
    hide ServiceToks, PrintEntries, Writable, Bare;
  }

  lemma {:induction false} ReadMerge(s: Stmt, ts: Toks, i: nat)
    requires WritableStmt(s) && s.InvokeMerge? && At(ts, i, PrintStmt(s))
    ensures i <= |ts| && ParseStmt(ts, i) == Yes(s, i + |PrintStmt(s)|)
  {
    hide At, Print, PrintStmt, PrintBlock, PrintArm, PrintElifs, PrintElse, PrintPath, PrintAssigned, PrintEntries, ServiceToks, Bare,
      Writable, WritableStmt, WritableArm, WritableBlock, ParseExpr, ParseInvoke, ParseNamed, ParsePath, ParseStmt, ParseBlock, ParseArm, ParseArms, Stops;
    MergeShape(s);
    ReadGiven(s.service, s.given, ts, i);
    MergeStep(ts, i);
  }

  lemma {:induction false} MergeStep(ts: Toks, i: nat)
    requires i < |ts| && ts[i] == TInvoke && ParseInvoke(ts, i + 1).Yes?
    ensures var r := ParseInvoke(ts, i + 1); ParseStmt(ts, i) == Yes(InvokeMerge(r.value.0, r.value.1), r.next)
  {
    hide ParseInvoke;
  }

  // ---------- blocks ----------

  lemma {:induction false} BlockEnds(ts: Toks, i: nat)
    requires i < |ts| && Closer(ts[i])
    ensures ParseBlock(ts, i) == Yes([], i)
  {
  }

  /** A newline in front of a block is skipped. */
  lemma {:induction false} BlockSkips(ts: Toks, i: nat)
    requires i < |ts| && ts[i] == TNewline
    ensures ParseBlock(ts, i) == ParseBlock(ts, i + 1)
  {
    hide ParseStmt;
  }

  lemma {:induction false} BlockStep(ts: Toks, i: nat)
    requires i + 1 < |ts| && StartsStmt(ts[i]) && ParseStmt(ts, i).Yes? && ParseBlock(ts, ParseStmt(ts, i).next).Yes?
    ensures var a := ParseStmt(ts, i); var b := ParseBlock(ts, a.next);
            ParseBlock(ts, i) == Yes([a.value] + b.value, b.next)
  {
    hide ParseStmt;
    SkipTo(ts, i, i);
  }

  lemma {:induction false} BlockShape(ss: seq<Stmt>)
    requires WritableBlock(ss) && ss != []
    ensures WritableStmt(ss[0]) && WritableBlock(ss[1..]) && PrintBlock(ss) == PrintStmt(ss[0]) + [TNewline] + PrintBlock(ss[1..])
  {
    hide PrintStmt, WritableStmt;
  }

  lemma {:induction false} ReadBlock(ss: seq<Stmt>, ts: Toks, i: nat)
    requires WritableBlock(ss) && At(ts, i, PrintBlock(ss)) && Closer(Peek(ts, i + |PrintBlock(ss)|))
    ensures i <= |ts| && ParseBlock(ts, i) == Yes(ss, i + |PrintBlock(ss)|)
    decreases ss, 1
  {
    hide At, Print, PrintStmt, PrintBlock, PrintArm, PrintElifs, PrintElse, PrintPath, PrintAssigned, PrintEntries, ServiceToks, Bare,
      Writable, WritableStmt, WritableArm, WritableBlock, ParseExpr, ParseInvoke, ParseNamed, ParsePath, ParseStmt, ParseBlock, ParseArm, ParseArms, Stops, Closer;
    if ss == [] {
      EmptyBlock(ts, i);
    } else {
      BlockShape(ss);
      var x, rest := PrintStmt(ss[0]), PrintBlock(ss[1..]);
      var n := i + |x|;
      AtThree(ts, i, x, TNewline, rest);
      ReadStmt(ss[0], ts, i);
      ReadBlock(ss[1..], ts, n + 1);
      OneMore(ss[0], ts, i, n);
      assert [ss[0]] + ss[1..] == ss;
    }
  }

  lemma {:induction false} EmptyBlock(ts: Toks, i: nat)
    requires At(ts, i, PrintBlock([])) && Closer(Peek(ts, i + |PrintBlock([])|))
    ensures i <= |ts| && PrintBlock([]) == [] && ParseBlock(ts, i) == Yes([], i)
  {
    AtBound(ts, i, []);
    BlockEnds(ts, i);
  }

  /** A statement and the end of its line in front of a block. */
  lemma {:induction false} OneMore(s: Stmt, ts: Toks, i: nat, n: nat)
    requires WritableStmt(s) && At(ts, i, PrintStmt(s)) && n == i + |PrintStmt(s)| < |ts| && ts[n] == TNewline
    requires ParseStmt(ts, i) == Yes(s, n) && ParseBlock(ts, n + 1).Yes?
    ensures ParseBlock(ts, i) == Yes([s] + ParseBlock(ts, n + 1).value, ParseBlock(ts, n + 1).next)
  {
    hide At, Print, PrintStmt, PrintBlock, PrintArm, PrintElifs, PrintElse, PrintPath, PrintAssigned, PrintEntries, ServiceToks, Bare,
      Writable, WritableStmt, WritableArm, WritableBlock, ParseExpr, ParseInvoke, ParseNamed, ParsePath, ParseStmt, ParseBlock, ParseArm, ParseArms, Stops;
    StmtStarts(s);
    AtFirst(ts, i, PrintStmt(s));
    BlockSkips(ts, n);
    BlockStep(ts, i);
  }

  // ---------- if and for ----------

  lemma {:induction false} ArmShape(a: Arm)
    requires WritableArm(a)
    ensures Writable(a.guard) && WritableBlock(a.body) && PrintArm(a) == Print(a.guard, 0) + [TColon] + PrintBlock(a.body)
  {
    hide Print, PrintBlock, Writable, WritableBlock;
  }

  lemma {:induction false} ReadArm(a: Arm, ts: Toks, i: nat)
    requires WritableArm(a) && At(ts, i, PrintArm(a)) && Closer(Peek(ts, i + |PrintArm(a)|))
    ensures i <= |ts| && ParseArm(ts, i) == Yes(a, i + |PrintArm(a)|)
    decreases a, 1
  {
    hide At, Print, PrintStmt, PrintBlock, PrintArm, PrintElifs, PrintElse, PrintPath, PrintAssigned, PrintEntries, ServiceToks, Bare,
      Writable, WritableStmt, WritableArm, WritableBlock, ParseExpr, ParseInvoke, ParseNamed, ParsePath, ParseStmt, ParseBlock, ParseArm, ParseArms, Stops;
    ArmShape(a);
    var g, b := Print(a.guard, 0), PrintBlock(a.body);
    EndsExpr(TColon);
    AtThree(ts, i, g, TColon, b);
    ReadWhole(a.guard, 0, ts, i);
    ReadBlock(a.body, ts, i + |g| + 1);
    ArmStep(ts, i, a, i + |g|);
  }

  lemma {:induction false} ArmStep(ts: Toks, i: nat, a: Arm, n: nat)
    requires i <= n < |ts| && ParseExpr(ts, i, 0) == Yes(a.guard, n) && ts[n] == TColon && ParseBlock(ts, n + 1).Yes? && ParseBlock(ts, n + 1).value == a.body
    ensures ParseArm(ts, i) == Yes(a, ParseBlock(ts, n + 1).next)
  {
    hide ParseExpr, ParseBlock;
  }

  /** One turn of the loop over arms: an `elif`. */
  lemma {:induction false} ElifStep(ts: Toks, i: nat, arms: seq<Arm>)
    requires i < |ts| && ts[i] == TElif && ParseArm(ts, i + 1).Yes?
    ensures ParseArms(ts, i, arms, NoElse) == ParseArms(ts, ParseArm(ts, i + 1).next, arms + [ParseArm(ts, i + 1).value], NoElse)
  {
    hide ParseArm;
  }

  lemma {:induction false} ElifsShape(arms: seq<Arm>)
    requires arms != [] && forall k :: 0 <= k < |arms| ==> WritableArm(arms[k])
    ensures PrintElifs(arms) == [TElif] + (PrintArm(arms[0]) + PrintElifs(arms[1..]))
  {
    hide PrintArm, WritableArm;
    assert [TElif] + PrintArm(arms[0]) + PrintElifs(arms[1..]) == [TElif] + (PrintArm(arms[0]) + PrintElifs(arms[1..]));
  }

  lemma {:induction false} ReadElifs(arms: seq<Arm>, done: seq<Arm>, ts: Toks, i: nat)
    requires (forall k :: 0 <= k < |arms| ==> WritableArm(arms[k])) && At(ts, i, PrintElifs(arms)) && Closer(Peek(ts, i + |PrintElifs(arms)|))
    ensures i <= |ts| && i + |PrintElifs(arms)| <= |ts|
    ensures ParseArms(ts, i, done, NoElse) == ParseArms(ts, i + |PrintElifs(arms)|, done + arms, NoElse)
    decreases arms, 1
  {
    hide At, Print, PrintStmt, PrintBlock, PrintArm, PrintElifs, PrintElse, PrintPath, PrintAssigned, PrintEntries, ServiceToks, Bare,
      Writable, WritableStmt, WritableArm, WritableBlock, ParseExpr, ParseInvoke, ParseNamed, ParsePath, ParseStmt, ParseBlock, ParseArm, ParseArms, Stops, Closer;
    AtBound(ts, i, PrintElifs(arms));
    if arms == [] {
      NoElifs();
      assert done + arms == done;
    } else {
      ElifsShape(arms);
      var x, rest := PrintArm(arms[0]), PrintElifs(arms[1..]);
      var n := i + 1 + |x|;
      AtHead(ts, i, TElif, x + rest);
      AtSplit(ts, i + 1, x, rest);
      ElifNext(arms[1..], ts, n);
      ReadArm(arms[0], ts, i + 1);
      ElifStep(ts, i, done);
      ReadElifs(arms[1..], done + [arms[0]], ts, n);
      assert done + [arms[0]] + arms[1..] == done + arms;
    }
  }

  lemma {:induction false} NoElifs()
    ensures PrintElifs([]) == []
  {
  }

  lemma {:induction false} ElifNext(arms: seq<Arm>, ts: Toks, n: nat)
    requires (forall k :: 0 <= k < |arms| ==> WritableArm(arms[k])) && At(ts, n, PrintElifs(arms)) && Closer(Peek(ts, n + |PrintElifs(arms)|))
    ensures Closer(Peek(ts, n))
  {
    FirstElif(arms);
    hide PrintElifs, At;
    if PrintElifs(arms) != [] { AtFirst(ts, n, PrintElifs(arms)); }
  }

  lemma {:induction false} FirstElif(arms: seq<Arm>)
    requires forall k :: 0 <= k < |arms| ==> WritableArm(arms[k])
    ensures PrintElifs(arms) != [] ==> PrintElifs(arms)[0] == TElif
  {
    hide PrintArm;
  }

  lemma {:induction false} ReadElse(otherwise: Else, arms: seq<Arm>, ts: Toks, i: nat)
    requires (otherwise.Else? ==> WritableBlock(otherwise.block)) && At(ts, i, PrintElse(otherwise) + [TEnd])
    ensures i <= |ts| && ParseArms(ts, i, arms, NoElse) == Yes(If(arms, otherwise), i + |PrintElse(otherwise)| + 1)
    decreases otherwise, 1
  {
    hide At, Print, PrintStmt, PrintBlock, PrintArm, PrintElifs, PrintElse, PrintPath, PrintAssigned, PrintEntries, ServiceToks, Bare,
      Writable, WritableStmt, WritableArm, WritableBlock, ParseExpr, ParseInvoke, ParseNamed, ParsePath, ParseStmt, ParseBlock, ParseArm, ParseArms, Stops;
    ElseShape(otherwise);
    if otherwise.NoElse? {
      AtOne(ts, i, TEnd);
      EndStep(ts, i, arms, NoElse);
    } else {
      var b := PrintBlock(otherwise.block);
      AtHead(ts, i, TElse, [TColon] + (b + [TEnd]));
      AtHead(ts, i + 1, TColon, b + [TEnd]);
      AtSplit(ts, i + 2, b, [TEnd]);
      AtOne(ts, i + 2 + |b|, TEnd);
      ReadBlock(otherwise.block, ts, i + 2);
      ElseStep(ts, i, arms);
      EndStep(ts, i + 2 + |b|, arms, otherwise);
    }
  }

  lemma {:induction false} ElseShape(otherwise: Else)
    requires otherwise.Else? ==> WritableBlock(otherwise.block)
    ensures PrintElse(otherwise) + [TEnd] ==
            if otherwise.NoElse? then [TEnd] else [TElse] + ([TColon] + (PrintBlock(otherwise.block) + [TEnd]))
    ensures |PrintElse(otherwise)| == if otherwise.NoElse? then 0 else 2 + |PrintBlock(otherwise.block)|
  {
    hide PrintBlock, WritableBlock;
    if otherwise.Else? {
      var b := PrintBlock(otherwise.block);
      assert [TElse, TColon] + b + [TEnd] == [TElse] + ([TColon] + (b + [TEnd]));
    } else {
      assert [] + [TEnd] == [TEnd];
    }
  }

  lemma {:induction false} ElseStep(ts: Toks, i: nat, arms: seq<Arm>)
    requires i + 1 < |ts| && ts[i] == TElse && ts[i + 1] == TColon && ParseBlock(ts, i + 2).Yes?
    ensures ParseArms(ts, i, arms, NoElse) == ParseArms(ts, ParseBlock(ts, i + 2).next, arms, Else(ParseBlock(ts, i + 2).value))
  {
    hide ParseBlock;
  }

  lemma {:induction false} EndStep(ts: Toks, i: nat, arms: seq<Arm>, otherwise: Else)
    requires i < |ts| && ts[i] == TEnd
    ensures ParseArms(ts, i, arms, otherwise) == Yes(If(arms, otherwise), i + 1)
  {
  }

  lemma {:induction false} IfShape(s: Stmt)
    requires WritableStmt(s) && s.If?
    ensures s.arms != [] && (forall k :: 0 <= k < |s.arms| ==> WritableArm(s.arms[k])) && (s.otherwise.Else? ==> WritableBlock(s.otherwise.block))
    ensures PrintStmt(s) == [TIf] + (PrintArm(s.arms[0]) + (PrintElifs(s.arms[1..]) + (PrintElse(s.otherwise) + [TEnd])))
  {
    hide PrintArm, PrintElifs, PrintElse, WritableArm, WritableBlock;
    var x, y, z := PrintArm(s.arms[0]), PrintElifs(s.arms[1..]), PrintElse(s.otherwise);
    assert [TIf] + x + y + z + [TEnd] == [TIf] + (x + (y + (z + [TEnd])));
  }

  lemma {:induction false} ReadIf(s: Stmt, ts: Toks, i: nat)
    requires WritableStmt(s) && s.If? && At(ts, i, PrintStmt(s))
    ensures i <= |ts| && ParseStmt(ts, i) == Yes(s, i + |PrintStmt(s)|)
    decreases s, 0
  {
    hide At, Print, PrintStmt, PrintBlock, PrintArm, PrintElifs, PrintElse, PrintPath, PrintAssigned, PrintEntries, ServiceToks, Bare,
      Writable, WritableStmt, WritableArm, WritableBlock, ParseExpr, ParseInvoke, ParseNamed, ParsePath, ParseStmt, ParseBlock, ParseArm, ParseArms, Stops, Closer;
    IfShape(s);
    var arms := s.arms;
    var x, y, z := PrintArm(arms[0]), PrintElifs(arms[1..]), PrintElse(s.otherwise);
    var n := i + 1 + |x|;
    AtHead(ts, i, TIf, x + (y + (z + [TEnd])));
    AtSplit(ts, i + 1, x, y + (z + [TEnd]));
    AtSplit(ts, n, y, z + [TEnd]);
    TailStarts(arms[1..], s.otherwise);
    AtFirst(ts, n, y + (z + [TEnd]));
    AtFirst(ts, n + |y|, z + [TEnd]);
    ReadArm(arms[0], ts, i + 1);
    ReadElifs(arms[1..], [arms[0]], ts, n);
    assert [arms[0]] + arms[1..] == arms;
    ReadElse(s.otherwise, arms, ts, n + |y|);
    IfStep(ts, i);
  }

  lemma {:induction false} TailStarts(arms: seq<Arm>, otherwise: Else)
    requires (forall k :: 0 <= k < |arms| ==> WritableArm(arms[k])) && (otherwise.Else? ==> WritableBlock(otherwise.block))
    ensures var y, z := PrintElifs(arms), PrintElse(otherwise) + [TEnd];
            z != [] && y + z != [] && Closer(z[0]) && Closer((y + z)[0])
  {
    FirstElif(arms);
    ElseStarts(otherwise);
    hide PrintElifs, PrintElse;
  }

  lemma {:induction false} ElseStarts(otherwise: Else)
    requires otherwise.Else? ==> WritableBlock(otherwise.block)
    ensures Closer((PrintElse(otherwise) + [TEnd])[0])
  {
    hide PrintBlock;
  }

  lemma {:induction false} IfStep(ts: Toks, i: nat)
    requires i < |ts| && ts[i] == TIf && ParseArm(ts, i + 1).Yes?
    ensures ParseStmt(ts, i) == ParseArms(ts, ParseArm(ts, i + 1).next, [ParseArm(ts, i + 1).value], NoElse)
  {
    hide ParseArm, ParseArms;
  }

  lemma {:induction false} ForShape(s: Stmt)
    requires WritableStmt(s) && s.For?
    ensures Writable(s.iter) && WritableBlock(s.body)
    ensures PrintStmt(s) == [TFor] + ([TIdent(s.name)] + ([TIn] + (Print(s.iter, 0) + [TColon] + (PrintBlock(s.body) + [TEnd]))))
  {
    hide Print, PrintBlock, Writable, WritableBlock;
    var it, b := Print(s.iter, 0), PrintBlock(s.body);
    assert [TFor, TIdent(s.name), TIn] + it + [TColon] + b + [TEnd] == [TFor] + ([TIdent(s.name)] + ([TIn] + (it + [TColon] + (b + [TEnd]))));
  }

  lemma {:induction false} ReadFor(s: Stmt, ts: Toks, i: nat)
    requires WritableStmt(s) && s.For? && At(ts, i, PrintStmt(s))
    ensures i <= |ts| && ParseStmt(ts, i) == Yes(s, i + |PrintStmt(s)|)
    decreases s, 0
  {
    hide At, Print, PrintStmt, PrintBlock, PrintArm, PrintElifs, PrintElse, PrintPath, PrintAssigned, PrintEntries, ServiceToks, Bare,
      Writable, WritableStmt, WritableArm, WritableBlock, ParseExpr, ParseInvoke, ParseNamed, ParsePath, ParseStmt, ParseBlock, ParseArm, ParseArms, Stops;
    ForShape(s);
    var it, b := Print(s.iter, 0), PrintBlock(s.body);
    var rest := it + [TColon] + (b + [TEnd]);
    var n := i + 4 + |it|;
    EndsExpr(TColon);
    AtHead(ts, i, TFor, [TIdent(s.name)] + ([TIn] + rest));
    AtHead(ts, i + 1, TIdent(s.name), [TIn] + rest);
    AtHead(ts, i + 2, TIn, rest);
    AtThree(ts, i + 3, it, TColon, b + [TEnd]);
    AtSplit(ts, n, b, [TEnd]);
    AtOne(ts, n + |b|, TEnd);
    ReadWhole(s.iter, 0, ts, i + 3);
    ReadBlock(s.body, ts, n);
    ForStep(ts, i, s, n, n + |b|);
  }

  lemma {:induction false} ForStep(ts: Toks, i: nat, s: Stmt, n: nat, m: nat)
    requires s.For? && i + 3 < n <= m < |ts| && ts[i] == TFor && ts[i + 1] == TIdent(s.name) && ts[i + 2] == TIn
    requires ParseExpr(ts, i + 3, 0) == Yes(s.iter, n - 1) && ts[n - 1] == TColon && ParseBlock(ts, n) == Yes(s.body, m) && ts[m] == TEnd
    ensures ParseStmt(ts, i) == Yes(s, m + 1)
  {
    hide ParseExpr, ParseBlock;
  }

  /** A printed statement, up to the end of its line, is read as itself. */
  lemma {:induction false} ReadStmt(s: Stmt, ts: Toks, i: nat)
    requires WritableStmt(s) && At(ts, i, PrintStmt(s)) && Peek(ts, i + |PrintStmt(s)|) == TNewline
    ensures i <= |ts| && ParseStmt(ts, i) == Yes(s, i + |PrintStmt(s)|)
    decreases s, 1
  {
    hide At, PrintStmt, WritableStmt, ParseStmt;
    match s
    case Assign(_, _) => ReadAssign(s, ts, i);
    case Emit(_, _) => ReadEmit(s, ts, i);
    case Respond(_, _) => ReadEmit(s, ts, i);
    case InvokeMerge(_, _) => ReadMerge(s, ts, i);
    case If(_, _) => ReadIf(s, ts, i);
    case For(_, _, _) => ReadFor(s, ts, i);
  }

  /**
   * The statement round trip: every statement the language can write, printed wherever and followed by
   * the end of its line, parses to the same tree and takes exactly its own tokens.
   */
  lemma {:induction false} StmtRoundTrip(before: Toks, s: Stmt, after: Toks)
    requires WritableStmt(s) && Peek(after, 0) == TNewline
    ensures ParseStmt(before + PrintStmt(s) + after, |before|) == Yes(s, |before| + |PrintStmt(s)|)
  {
    hide PrintStmt, WritableStmt, ParseStmt;
    var ts := before + PrintStmt(s) + after;
    assert ts[|before|..|before| + |PrintStmt(s)|] == PrintStmt(s);
    assert Peek(ts, |before| + |PrintStmt(s)|) == Peek(after, 0);
    ReadStmt(s, ts, |before|);
  }

  // ---------- the parser gives no other statements ----------

  lemma {:induction false} PairWritable(ts: Toks, i: nat)
    requires i <= |ts| && ParsePair(ts, i).Yes?
    ensures Writable(ParsePair(ts, i).value.0) && Writable(ParsePair(ts, i).value.1)
  {
    hide ParseExpr, Writable;
    ExprWritable(ts, i, 0);
    ExprWritable(ts, ParseExpr(ts, i, 0).next + 1, 0);
  }

  lemma {:induction false} PathGrows(ts: Toks, i: nat, path: seq<string>)
    requires i <= |ts| && ParsePath(ts, i, path).Yes?
    ensures |path| <= |ParsePath(ts, i, path).value|
    decreases |ts| - i
  {
    if Peek(ts, i) == TDot { PathGrows(ts, i + 2, path + [WordOf(Peek(ts, i + 1)).value]); }
  }

  lemma {:induction false} AssignWritable(ts: Toks, i: nat)
    requires i < |ts| && ts[i].TIdent? && ParseStmt(ts, i).Yes?
    ensures WritableStmt(ParseStmt(ts, i).value)
  {
    hide ParseExpr, ParseInvoke, ParsePath;
    var p := ParsePath(ts, i + 1, [ts[i].s]);
    PathGrows(ts, i + 1, [ts[i].s]);
    var j := p.next;
    if Peek(ts, j + 1) == TInvoke { InvokeWritable(ts, j + 2); } else { ExprWritable(ts, j + 1, 0); }
  }

  lemma {:induction false} StmtWritable(ts: Toks, i: nat)
    requires i <= |ts| && ParseStmt(ts, i).Yes?
    ensures WritableStmt(ParseStmt(ts, i).value)
    decreases |ts| - i, 2
  {
    hide ParseExpr, ParseInvoke, ParsePath, ParsePair, ParseArm, ParseArms, ParseBlock, ParseFor, Writable;
    match Peek(ts, i)
    case TEmit => PairWritable(ts, i + 1);
    case TRespond => PairWritable(ts, i + 1);
    case TInvoke => InvokeWritable(ts, i + 1);
    case TIf =>
      ArmWritable(ts, i + 1);
      var a := ParseArm(ts, i + 1);
      ArmsWritable(ts, a.next, [a.value], NoElse);
    case TFor => ForWritable(ts, i + 1);
    case TIdent(_) => AssignWritable(ts, i);
    case _ =>
  }

  lemma {:induction false} ArmWritable(ts: Toks, i: nat)
    requires i <= |ts| && ParseArm(ts, i).Yes?
    ensures WritableArm(ParseArm(ts, i).value)
    decreases |ts| - i, 1
  {
    hide ParseExpr, ParseBlock, Writable, WritableBlock;
    ExprWritable(ts, i, 0);
    BlockWritable(ts, ParseExpr(ts, i, 0).next + 1);
  }

  lemma {:induction false} ArmsWritable(ts: Toks, i: nat, arms: seq<Arm>, otherwise: Else)
    requires i <= |ts| && ParseArms(ts, i, arms, otherwise).Yes?
    requires arms != [] && (forall k :: 0 <= k < |arms| ==> WritableArm(arms[k])) && (otherwise.Else? ==> WritableBlock(otherwise.block))
    ensures WritableStmt(ParseArms(ts, i, arms, otherwise).value)
    decreases |ts| - i, 1
  {
    hide ParseArm, ParseBlock, WritableArm, WritableBlock;
    match Peek(ts, i)
    case TElif =>
      ArmWritable(ts, i + 1);
      var a := ParseArm(ts, i + 1);
      ArmsWritable(ts, a.next, arms + [a.value], otherwise);
    case TElse =>
      BlockWritable(ts, i + 2);
      var b := ParseBlock(ts, i + 2);
      ArmsWritable(ts, b.next, arms, Else(b.value));
    case _ =>
  }

  lemma {:induction false} ForWritable(ts: Toks, i: nat)
    requires i <= |ts| && ParseFor(ts, i).Yes?
    ensures WritableStmt(ParseFor(ts, i).value)
    decreases |ts| - i, 1
  {
    hide ParseExpr, ParseBlock, Writable, WritableBlock;
    ExprWritable(ts, i + 2, 0);
    BlockWritable(ts, ParseExpr(ts, i + 2, 0).next + 1);
  }

  lemma {:induction false} BlockWritable(ts: Toks, i: nat)
    requires i <= |ts| && ParseBlock(ts, i).Yes?
    ensures WritableBlock(ParseBlock(ts, i).value)
    decreases |ts| - i, 3
  {
    hide ParseStmt, WritableStmt, SkipNewlines;
    var k := SkipNewlines(ts, i);
    if !Closer(Peek(ts, k)) {
      StmtWritable(ts, k);
      BlockWritable(ts, ParseStmt(ts, k).next);
    }
  }

  /** The writable statements are exactly what the parser can give: each parsed one prints to tokens that parse to it. */
  lemma {:induction false} ParsedStmtIsWritable(ts: Toks, i: nat)
    requires i <= |ts| && ParseStmt(ts, i).Yes?
    ensures var s := ParseStmt(ts, i).value;
            WritableStmt(s) && ParseStmt(PrintStmt(s) + [TNewline], 0) == Yes(s, |PrintStmt(s)|)
  {
    StmtWritable(ts, i);
    hide ParseStmt, PrintStmt, WritableStmt;
    var s := ParseStmt(ts, i).value;
    StmtRoundTrip([], s, [TNewline]);
    assert [] + PrintStmt(s) + [TNewline] == PrintStmt(s) + [TNewline];
  }
}
