// Where a program writes the bus (core/src/vjs.rs): the analysis finds a write exactly when an `emit` or an
// `invoke` stands somewhere in the program, however deep.

module VjsWrites {
  import opened VjsSyntax
  import opened VjsTheorems

  /** A place in a program. */
  datatype Node = OfStmt(s: Stmt) | OfExpr(e: Expr)

  /** The blocks of a statement. */
  ghost predicate BlockOf(b: seq<Stmt>, s: Stmt) {
    || (s.If? && ((exists k :: 0 <= k < |s.arms| && b == s.arms[k].body) || (s.otherwise.Else? && b == s.otherwise.block)))
    || (s.For? && b == s.body)
  }

  /** The expressions written in a statement. */
  ghost predicate ExprOf(e: Expr, s: Stmt) {
    match s
    case Assign(_, x) => e == x
    case If(arms, _) => exists k :: 0 <= k < |arms| && e == arms[k].guard
    case For(_, x, _) => e == x
    case Emit(x, y) => e == x || e == y
    case Respond(x, y) => e == x || e == y
    case InvokeMerge(_, given) => exists k :: 0 <= k < |given| && e == given[k].value
  }

  /** The expressions written in an expression. */
  ghost predicate OperandOf(e: Expr, x: Expr) {
    match x
    case Lit(_) => false
    case Var(_) => false
    case FString(parts) => exists k :: 0 <= k < |parts| && parts[k] == Hole(e)
    case Doc(fields) => exists k :: 0 <= k < |fields| && e == fields[k].value
    case Array(elems) => e in elems
    case Field(a, _, _) => e == a
    case Index(a, b) => e == a || e == b
    case Projection(a) => e == a
    case Filter(a, b) => e == a || e == b
    case Call(_, args) => e in args
    case Invoke(_, given) => exists k :: 0 <= k < |given| && e == given[k].value
    case Unary(_, a) => e == a
    case Bin(_, a, b) => e == a || e == b
  }

  ghost predicate In(m: Node, n: Node) {
    match n
    case OfStmt(s) => (m.OfExpr? && ExprOf(m.e, s)) || (m.OfStmt? && exists b :: BlockOf(b, s) && m.s in b)
    case OfExpr(x) => m.OfExpr? && OperandOf(m.e, x)
  }

  /** The way down from one place to another. */
  ghost predicate Way(p: seq<Node>, n: Node, m: Node) {
    p != [] && p[0] == n && p[|p| - 1] == m && forall k :: 0 <= k < |p| - 1 ==> In(p[k + 1], p[k])
  }

  /** An `emit`, an `invoke` statement or an `invoke` expression. */
  predicate IsWrite(n: Node) {
    match n
    case OfStmt(s) => s.Emit? || s.InvokeMerge?
    case OfExpr(e) => e.Invoke?
  }

  ghost predicate WriteStands(ss: seq<Stmt>) {
    exists s, p, m :: s in ss && Way(p, OfStmt(s), m) && IsWrite(m)
  }

  predicate NodeWrites(n: Node) {
    match n
    case OfStmt(s) => StmtWritesBus(s)
    case OfExpr(e) => ExprWritesBus(e)
  }

  lemma {:induction false} Up(m: Node, n: Node)
    requires In(m, n) && NodeWrites(m)
    ensures NodeWrites(n)
  {
    match n
    case OfStmt(s) =>
      if m.OfStmt? {
        var b :| BlockOf(b, s) && m.s in b;
        var k :| 0 <= k < |b| && b[k] == m.s;
        assert StmtsWriteBus(b);
      }
    case OfExpr(x) =>
      match x
      case FString(parts) =>
        var k :| 0 <= k < |parts| && parts[k] == Hole(m.e);
        assert PartWritesBus(parts[k]);
      case _ =>
  }

  lemma {:induction false} WayUp(p: seq<Node>, n: Node, m: Node)
    requires Way(p, n, m) && NodeWrites(m)
    ensures NodeWrites(n)
    decreases |p|
  {
    hide In, NodeWrites;
    if |p| > 1 {
      var q := p[1..];
      forall k | 0 <= k < |q| - 1 ensures In(q[k + 1], q[k]) {
        assert q[k] == p[k + 1] && q[k + 1] == p[k + 1 + 1];
      }
      WayUp(q, p[1], m);
      assert In(p[0 + 1], p[0]);
      Up(p[1], n);
    }
  }

  lemma {:induction false} WayDown(q: seq<Node>, c: Node, n: Node, m: Node) returns (p: seq<Node>)
    requires Way(q, c, m) && In(c, n)
    ensures Way(p, n, m)
  {
    hide In;
    p := [n] + q;
    forall k | 0 <= k < |p| - 1 ensures In(p[k + 1], p[k]) {
      if k > 0 { assert In(q[(k - 1) + 1], q[k - 1]); }
    }
  }

  lemma {:induction false} ExprWay(e: Expr) returns (p: seq<Node>, m: Node)
    requires ExprWritesBus(e)
    ensures Way(p, OfExpr(e), m) && IsWrite(m)
    decreases e
  {
    if e.Invoke? {
      p, m := [OfExpr(e)], OfExpr(e);
    } else {
      var c := Guilty(e);
      p, m := ExprWay(c);
      p := WayDown(p, OfExpr(c), OfExpr(e), m);
    }
  }

  lemma {:induction false} Guilty(e: Expr) returns (c: Expr)
    requires ExprWritesBus(e) && !e.Invoke?
    ensures OperandOf(c, e) && ExprWritesBus(c) && c < e
  {
    match e
    case FString(parts) =>
      var k :| 0 <= k < |parts| && PartWritesBus(parts[k]);
      c := parts[k].e;
      assert parts[k] < e && c < parts[k];
    case Doc(fields) =>
      var k :| 0 <= k < |fields| && ExprWritesBus(fields[k].value);
      c := fields[k].value;
      assert fields[k] < e && c < fields[k];
    case Array(elems) =>
      var k :| 0 <= k < |elems| && ExprWritesBus(elems[k]);
      c := elems[k];
    case Call(_, args) =>
      var k :| 0 <= k < |args| && ExprWritesBus(args[k]);
      c := args[k];
    case Field(a, _, _) => c := a;
    case Projection(a) => c := a;
    case Unary(_, a) => c := a;
    case Index(a, b) => c := if ExprWritesBus(a) then a else b;
    case Filter(a, b) => c := if ExprWritesBus(a) then a else b;
    case Bin(_, a, b) => c := if ExprWritesBus(a) then a else b;
  }

  lemma {:induction false} StmtWay(s: Stmt) returns (p: seq<Node>, m: Node)
    requires StmtWritesBus(s)
    ensures Way(p, OfStmt(s), m) && IsWrite(m)
    decreases s
  {
    if IsWrite(OfStmt(s)) {
      p, m := [OfStmt(s)], OfStmt(s);
    } else {
      var c := GuiltyPart(s);
      if c.OfExpr? { p, m := ExprWay(c.e); } else { p, m := StmtWay(c.s); }
      p := WayDown(p, c, OfStmt(s), m);
    }
  }

  lemma {:induction false} GuiltyPart(s: Stmt) returns (c: Node)
    requires StmtWritesBus(s) && !IsWrite(OfStmt(s))
    ensures In(c, OfStmt(s)) && NodeWrites(c) && (c.OfStmt? ==> c.s < s)
  {
    match s
    case Assign(_, e) => c := OfExpr(e);
    case Respond(x, y) => c := OfExpr(if ExprWritesBus(x) then x else y);
    case For(_, x, body) =>
      if ExprWritesBus(x) { c := OfExpr(x); } else { var j; c, j := GuiltyLine(body, s); assert body[j] < s; }
    case If(arms, otherwise) =>
      if k :| 0 <= k < |arms| && ExprWritesBus(arms[k].guard) {
        c := OfExpr(arms[k].guard);
      } else if k :| 0 <= k < |arms| && StmtsWriteBus(arms[k].body) {
        var j;
        c, j := GuiltyLine(arms[k].body, s);
        assert arms[k] < s && arms[k].body[j] < arms[k];
      } else {
        var j;
        c, j := GuiltyLine(otherwise.block, s);
        assert otherwise < s && otherwise.block[j] < otherwise;
      }
  }

  lemma {:induction false} GuiltyLine(b: seq<Stmt>, s: Stmt) returns (c: Node, k: nat)
    requires BlockOf(b, s) && StmtsWriteBus(b)
    ensures In(c, OfStmt(s)) && NodeWrites(c) && k < |b| && c == OfStmt(b[k])
  {
    k :| 0 <= k < |b| && StmtWritesBus(b[k]);
    c := OfStmt(b[k]);
  }

  /** The analysis is exact: it answers yes exactly when a write stands somewhere in the program. */
  lemma {:induction false} WriteAnalysisExact(prog: Program)
    ensures WritesBus(prog) <==> WriteStands(prog.stmts)
  {
    var ss := prog.stmts;
    hide Way;
    if WritesBus(prog) {
      var k :| 0 <= k < |ss| && StmtWritesBus(ss[k]);
      var p, m := StmtWay(ss[k]);
      assert ss[k] in ss;
    }
    if WriteStands(ss) {
      var s, p, m :| s in ss && Way(p, OfStmt(s), m) && IsWrite(m);
      WayUp(p, OfStmt(s), m);
      var k :| 0 <= k < |ss| && ss[k] == s;
      assert StmtWritesBus(ss[k]);
    }
  }
}
