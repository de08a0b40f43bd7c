// The parser of core/src/vjs.rs as it runs: an index that moves over the tokens, and loops for
// postfixes, operators and lists. Each method parses what the function of the same name parses.

module VjsParserRun {
  import opened Wrappers
  import opened VjsSyntax
  import P = VjsParser
  import R = VjsProgram
  import opened VjsLists

  /** A parse that succeeds leaves the index after what it parsed. */
  ghost predicate Follows<T(!new)>(spec: P.Parsed<T>, r: Option<T>, i: nat) {
    match spec
    case Yes(v, next) => r == Some(v) && i == next
    case No => r.None?
  }

  /** A list parsed so far, and the rest of it. */
  ghost function Behind<T>(done: seq<T>, rest: P.Parsed<seq<T>>): P.Parsed<seq<T>> {
    match rest
    case Yes(xs, next) => P.Yes(done + xs, next)
    case No => P.No
  }

  lemma {:induction false} BehindNothing<T>(rest: P.Parsed<seq<T>>)
    ensures Behind([], rest) == rest
  {
    if rest.Yes? { assert [] + rest.value == rest.value; }
  }

  lemma {:induction false} BehindOne<T>(done: seq<T>, x: T, rest: P.Parsed<seq<T>>)
    ensures Behind(done + [x], rest) == Behind(done, Behind([x], rest))
  {
    if rest.Yes? { assert (done + [x]) + rest.value == done + ([x] + rest.value); }
  }

  /** A literal that is read leaves the index after it; after a failure the caller moves it back. */
  ghost predicate Reads<T(!new)>(spec: R.Literal<T>, r: Option<T>, i: nat) {
    match spec
    case LYes(v, next) => r == Some(v) && i == next
    case LNo(_) => r.None?
  }

  ghost function LBehind<T>(done: seq<T>, rest: R.Literal<seq<T>>): R.Literal<seq<T>> {
    match rest
    case LYes(xs, next) => R.LYes(done + xs, next)
    case LNo(at) => R.LNo(at)
  }

  lemma {:induction false} LBehindNothing<T>(rest: R.Literal<seq<T>>)
    ensures LBehind([], rest) == rest
  {
    if rest.LYes? { assert [] + rest.value == rest.value; }
  }

  lemma {:induction false} LBehindOne<T>(done: seq<T>, x: T, rest: R.Literal<seq<T>>)
    ensures LBehind(done + [x], rest) == LBehind(done, LBehind([x], rest))
  {
    if rest.LYes? { assert (done + [x]) + rest.value == done + ([x] + rest.value); }
  }

  class Parser {
    const toks: P.Toks
    var i: nat

    constructor (toks: P.Toks)
      ensures this.toks == toks && i == 0
    {
      this.toks, i := toks, 0;
    }

    function Peek(): (t: P.Tok)
      reads this
    {
      P.Peek(toks, i)
    }

    method Next() returns (t: P.Tok)
      modifies this`i
      ensures t == P.Peek(toks, old(i)) && i == old(i) + 1
    {
      t := Peek();
      i := i + 1;
    }

    method Eat(t: P.Tok) returns (ok: bool)
      modifies this`i
      ensures ok == (P.Peek(toks, old(i)) == t) && i == if ok then old(i) + 1 else old(i)
    {
      ok := Peek() == t;
      if ok { i := i + 1; }
    }

    method SkipNewlines()
      requires i <= |toks|
      modifies this`i
      ensures i == P.SkipNewlines(toks, old(i))
    {
      while i < |toks| && Peek() == P.TNewline
        invariant i <= |toks| && P.SkipNewlines(toks, i) == P.SkipNewlines(toks, old(i))
        decreases |toks| - i
      {
        i := i + 1;
      }
    }

    method Word() returns (w: Option<string>)
      modifies this`i
      ensures w == P.WordOf(P.Peek(toks, old(i))) && i == if w.Some? then old(i) + 1 else old(i)
    {
      w := P.WordOf(Peek());
      if w.Some? { i := i + 1; }
    }

    method Expr(minBp: nat) returns (r: Option<Expr>)
      requires i <= |toks|
      modifies this`i
      ensures Follows(P.ParseExpr(toks, old(i), minBp), r, i)
      decreases toks, |toks| - i, 2
    {
      hide P.ParsePrefix;
      var lhs := Prefix();
      if lhs.None? { return None; }
      var e := Postfixes(lhs.value);
      if e.None? { return None; }
      r := Operators(e.value, minBp);
    }

    method Prefix() returns (r: Option<Expr>)
      requires i <= |toks|
      modifies this`i
      ensures Follows(P.ParsePrefix(toks, old(i)), r, i)
      decreases toks, |toks| - i, 1
    {
      hide P.ParseExpr, P.ParseItems, P.ParseFields, P.ParseArgs, P.ParseInvoke, P.ParseParts, P.SkipNewlines;
      if i == |toks| { return None; }
      var t := Next();
      match t {
        case TNum(n) => return Some(Lit(Num(n)));
        case TStr(s) => return Some(Lit(Str(s)));
        case TTrue => return Some(Lit(Bool(true)));
        case TFalse => return Some(Lit(Bool(false)));
        case TNull => return Some(Lit(Null));
        case TFStr(parts) =>
          assert toks[old(i)] == P.TFStr(parts);
          var ps := Parts(parts);
          return if ps.None? then None else Some(FString(ps.value));
        case TNot =>
          var e := Expr(P.UNARY_POWER);
          return if e.None? then None else Some(Unary(Not, e.value));
        case TMinus =>
          var e := Expr(P.UNARY_POWER);
          return if e.None? then None else Some(Unary(Neg, e.value));
        case TSource => return Some(Var("source"));
        case TTool => return Some(Var("tool"));
        case TDriver => return Some(Var("driver"));
        case TApi => return Some(Var("api"));
        case TInvoke =>
          var call := InvokeArgs();
          return if call.None? then None else Some(Invoke(call.value.0, call.value.1));
        case TLParen =>
          var e := Expr(0);
          if e.None? { return None; }
          var ok := Eat(P.TRParen);
          return if ok then e else None;
        case TLBrack =>
          SkipNewlines();
          var es := Items();
          return if es.None? then None else Some(Array(es.value));
        case TLBrace =>
          SkipNewlines();
          var fs := Fields();
          return if fs.None? then None else Some(Doc(fs.value));
        case TIdent(name) =>
          if Peek() != P.TLParen { return Some(Var(name)); }
          i := i + 1;
          var es := Args();
          return if es.None? then None else Some(Call(name, es.value));
        case _ => return None;
      }
    }

    method Postfixes(first: Expr) returns (r: Option<Expr>)
      requires i <= |toks|
      modifies this`i
      ensures Follows(P.ParsePostfix(toks, old(i), first), r, i)
      decreases toks, |toks| - i, 1
    {
      hide P.ParseExpr, P.ParsePostfix;
      var lhs := first;
      while true
        invariant old(i) <= i <= |toks|
        invariant P.ParsePostfix(toks, i, lhs) == P.ParsePostfix(toks, old(i), first)
        decreases |toks| - i
      {
        P.PostfixStep(toks, i, lhs);
        var t := Peek();
        if t == P.TDot || t == P.TQDot {
          i := i + 1;
          var f := Word();
          if f.None? { return None; }
          lhs := Field(lhs, f.value, t == P.TQDot);
        } else if t == P.TLBrack {
          i := i + 1;
          if Peek() == P.TRBrack {
            i := i + 1;
            lhs := Projection(lhs);
          } else {
            var inner := Expr(0);
            if inner.None? { return None; }
            var ok := Eat(P.TRBrack);
            if !ok { return None; }
            lhs := P.Bracketed(lhs, inner.value);
          }
        } else {
          return Some(lhs);
        }
      }
    }

    method Operators(first: Expr, minBp: nat) returns (r: Option<Expr>)
      requires i <= |toks|
      modifies this`i
      ensures Follows(P.ParseBinary(toks, old(i), first, minBp), r, i)
      decreases toks, |toks| - i, 1
    {
      hide P.ParseExpr;
      var lhs := first;
      while true
        invariant old(i) <= i <= |toks|
        invariant P.ParseBinary(toks, i, lhs, minBp) == P.ParseBinary(toks, old(i), first, minBp)
        decreases |toks| - i
      {
        var found := P.OpOf(Peek());
        if found.None? { return Some(lhs); }
        var (op, bp) := found.value;
        if bp <= minBp { return Some(lhs); }
        i := i + 1;
        var rhs := Expr(bp);
        if rhs.None? { return None; }
        lhs := Bin(op, lhs, rhs.value);
      }
    }

    /** Newlines, one comma and its newlines. */
    method AfterItem()
      requires i <= |toks|
      modifies this`i
      ensures i == P.AfterItem(toks, old(i))
    {
      SkipNewlines();
      if Peek() == P.TComma {
        i := i + 1;
        SkipNewlines();
      }
    }

    method Items() returns (r: Option<seq<Expr>>)
      requires i <= |toks|
      modifies this`i
      ensures Follows(P.ParseItems(toks, old(i)), r, i)
      decreases toks, |toks| - i, 3
    {
      hide P.ParseExpr;
      var items := [];
      BehindNothing(P.ParseItems(toks, i));
      while Peek() != P.TRBrack
        invariant old(i) <= i <= |toks|
        invariant Behind(items, P.ParseItems(toks, i)) == P.ParseItems(toks, old(i))
        decreases |toks| - i
      {
        ghost var was := items;
        var e := Expr(0);
        if e.None? { return None; }
        items := items + [e.value];
        AfterItem();
        BehindOne(was, e.value, P.ParseItems(toks, i));
      }
      i := i + 1;
      assert items + [] == items;
      return Some(items);
    }

    method Args() returns (r: Option<seq<Expr>>)
      requires i <= |toks|
      modifies this`i
      ensures Follows(P.ParseArgs(toks, old(i)), r, i)
      decreases toks, |toks| - i, 3
    {
      hide P.ParseExpr;
      var args := [];
      BehindNothing(P.ParseArgs(toks, i));
      while Peek() != P.TRParen
        invariant old(i) <= i <= |toks|
        invariant Behind(args, P.ParseArgs(toks, i)) == P.ParseArgs(toks, old(i))
        decreases |toks| - i
      {
        ghost var was := args;
        var e := Expr(0);
        if e.None? { return None; }
        args := args + [e.value];
        if Peek() == P.TComma { i := i + 1; }
        BehindOne(was, e.value, P.ParseArgs(toks, i));
      }
      i := i + 1;
      assert args + [] == args;
      return Some(args);
    }

    method OneEntry() returns (r: Option<Entry>)
      requires i <= |toks|
      modifies this`i
      ensures Follows(P.ParseEntry(toks, old(i)), r, i)
      decreases toks, |toks| - i, 3
    {
      hide P.ParseExpr;
      var key := Word();
      if key.None? { return None; }
      var ok := Eat(P.TColon);
      if !ok { return None; }
      var e := Expr(0);
      return if e.None? then None else Some(Entry(key.value, e.value));
    }

    method Fields() returns (r: Option<seq<Entry>>)
      requires i <= |toks|
      modifies this`i
      ensures Follows(P.ParseFields(toks, old(i)), r, i)
      decreases toks, |toks| - i, 4
    {
      hide P.ParseEntry;
      var fields := [];
      BehindNothing(P.ParseFields(toks, i));
      while Peek() != P.TRBrace
        invariant old(i) <= i <= |toks|
        invariant Behind(fields, P.ParseFields(toks, i)) == P.ParseFields(toks, old(i))
        decreases |toks| - i
      {
        ghost var was := fields;
        var f := OneEntry();
        if f.None? { return None; }
        fields := fields + [f.value];
        AfterItem();
        BehindOne(was, f.value, P.ParseFields(toks, i));
      }
      i := i + 1;
      assert fields + [] == fields;
      return Some(fields);
    }

    method Named() returns (r: Option<seq<Entry>>)
      requires i <= |toks|
      modifies this`i
      ensures Follows(P.ParseNamed(toks, old(i)), r, i)
      decreases toks, |toks| - i, 4
    {
      hide P.ParseEntry;
      var args := [];
      BehindNothing(P.ParseNamed(toks, i));
      while Peek() != P.TRParen
        invariant old(i) <= i <= |toks|
        invariant Behind(args, P.ParseNamed(toks, i)) == P.ParseNamed(toks, old(i))
        decreases |toks| - i
      {
        ghost var was := args;
        var f := OneEntry();
        if f.None? { return None; }
        args := args + [f.value];
        if Peek() == P.TComma { i := i + 1; }
        BehindOne(was, f.value, P.ParseNamed(toks, i));
      }
      i := i + 1;
      assert args + [] == args;
      return Some(args);
    }

    method InvokeArgs() returns (r: Option<(string, seq<Entry>)>)
      requires i <= |toks|
      modifies this`i
      ensures Follows(P.ParseInvoke(toks, old(i)), r, i)
      decreases toks, |toks| - i, 5
    {
      hide P.ParseNamed;
      if !Peek().TIdent? { return None; }
      var name := toks[i].s;
      i := i + 1;
      if Peek() == P.TColon && P.Peek(toks, i + 1).TIdent? {
        name := name + ":" + toks[i + 1].s;
        i := i + 2;
      }
      var ok := Eat(P.TLParen);
      if !ok { return None; }
      var args := Named();
      return if args.None? then None else Some((name, args.value));
    }

    /** The holes of an f-string, each by a parser of its own. */
    method Parts(parts: seq<P.TPart>) returns (r: Option<seq<FPart>>)
      ensures r == P.ParseParts(parts)
      decreases parts, 0
    {
      hide P.ParseExpr;
      if parts == [] { return Some([]); }
      var first: Option<FPart>;
      if parts[0].THole? {
        assert parts[0] == P.THole(parts[0].toks);
        var sub := new Parser(parts[0].toks);
        var e := sub.Expr(0);
        first := if e.None? then None else Some(Hole(e.value));
      } else {
        first := Some(Text(parts[0].s));
      }
      var rest := Parts(parts[1..]);
      return if first.None? || rest.None? then None else Some([first.value] + rest.value);
    }

    // ---------- literals ----------

    /** A pure literal, with the entries of a document and the tokens each one spans. */
    method LiteralValue() returns (r: Option<Value>, spans: seq<R.LField>)
      requires i <= |toks|
      modifies this`i
      ensures Reads(R.LiteralAt(toks, old(i)), r, i)
      ensures r.Some? ==> spans == R.FieldsAt(toks, old(i))
      decreases |toks| - i, 1
    {
      hide R.LiteralItems, R.LiteralFields, R.MapOf, P.SkipNewlines;
      spans := [];
      if i == |toks| { return None, []; }
      var t := Next();
      match t {
        case TStr(s) => return Some(Str(s)), [];
        case TNum(n) => return Some(Num(n)), [];
        case TTrue => return Some(Bool(true)), [];
        case TFalse => return Some(Bool(false)), [];
        case TNull => return Some(Null), [];
        case TMinus =>
          var n := Next();
          if n.TNum? { return Some(Num(0.0 - n.n)), []; }
          return None, [];
        case TLBrack =>
          SkipNewlines();
          var vs := ListLiteral();
          r := if vs.None? then None else Some(Arr(vs.value));
        case TLBrace =>
          SkipNewlines();
          var m;
          m, spans := DocLiteral();
          r := if m.None? then None else Some(Obj(m.value));
        case _ => return None, [];
      }
    }

    method ListLiteral() returns (r: Option<seq<Value>>)
      requires i <= |toks|
      modifies this`i
      ensures Reads(R.LiteralItems(toks, old(i)), r, i)
      decreases |toks| - i, 2
    {
      hide R.LiteralAt, P.AfterItem;
      var items := [];
      LBehindNothing(R.LiteralItems(toks, i));
      while Peek() != P.TRBrack
        invariant old(i) <= i <= |toks|
        invariant LBehind(items, R.LiteralItems(toks, i)) == R.LiteralItems(toks, old(i))
        decreases |toks| - i
      {
        ghost var was := items;
        var v, _ := LiteralValue();
        if v.None? { return None; }
        items := items + [v.value];
        AfterItem();
        LBehindOne(was, v.value, R.LiteralItems(toks, i));
      }
      i := i + 1;
      assert items + [] == items;
      return Some(items);
    }

    /** The map a later entry of the same key overwrites, and the entries as they stand. */
    method DocLiteral() returns (r: Option<Vars>, spans: seq<R.LField>)
      requires i <= |toks|
      modifies this`i
      ensures var spec := R.LiteralFields(toks, old(i));
              && Reads(spec, if r.None? then None else Some(spans), i)
              && (r.Some? ==> r.value == R.MapOf(spans))
      decreases |toks| - i, 2
    {
      hide R.LiteralAt, P.AfterItem, R.MapOf, P.WordOf;
      var m: Vars := map[];
      spans := [];
      MapOfNothing();
      LBehindNothing(R.LiteralFields(toks, i));
      while Peek() != P.TRBrace
        invariant old(i) <= i <= |toks| && m == R.MapOf(spans)
        invariant LBehind(spans, R.LiteralFields(toks, i)) == R.LiteralFields(toks, old(i))
        decreases |toks| - i
      {
        ghost var was := spans;
        var key := Word();
        if key.None? { return None, []; }
        var ok := Eat(P.TColon);
        if !ok { return None, []; }
        var start := i;
        var v, _ := LiteralValue();
        if v.None? { return None, []; }
        var f := R.LField(key.value, v.value, start, i);
        spans, m := spans + [f], m[key.value := v.value];
        R.MapOfExtended(was, f);
        AfterItem();
        LBehindOne(was, f, R.LiteralFields(toks, i));
      }
      i := i + 1;
      assert spans + [] == spans;
      return Some(m), spans;
    }

    static lemma MapOfNothing()
      ensures R.MapOf([]) == map[]
    {
    }

    /** A literal up to the end of its line; otherwise the index is where it was. */
    method TryLiteral() returns (r: Option<(Value, nat)>)
      requires i <= |toks|
      modifies this`i
      ensures var spec := R.LiteralAt(toks, old(i));
              if spec.LYes? && P.Peek(toks, spec.next) == P.TNewline
              then r == Some((spec.value, spec.next)) && i == spec.next else r.None? && i == old(i)
    {
      var save := i;
      var v, _ := LiteralValue();
      if v.Some? && Peek() == P.TNewline { return Some((v.value, i)); }
      i := save;
      return None;
    }

    // ---------- statements ----------

    method Block() returns (r: Option<seq<Stmt>>)
      requires i <= |toks|
      modifies this`i
      ensures Follows(R.ParseBlock(toks, old(i)), r, i)
      decreases |toks| - i, 3
    {
      hide R.ParseStmt, P.SkipNewlines;
      var stmts := [];
      BehindNothing(R.ParseBlock(toks, i));
      while true
        invariant old(i) <= i <= |toks|
        invariant Behind(stmts, R.ParseBlock(toks, i)) == R.ParseBlock(toks, old(i))
        decreases |toks| - i
      {
        ghost var was := stmts;
        SkipNewlines();
        var t := Peek();
        if t.TEnd? || t.TElif? || t.TElse? {
          assert stmts + [] == stmts;
          return Some(stmts);
        }
        if i + 1 >= |toks| { return None; }
        var s := OneStmt();
        if s.None? { return None; }
        stmts := stmts + [s.value];
        BehindOne(was, s.value, R.ParseBlock(toks, i));
      }
    }

    method PairOf() returns (r: Option<(Expr, Expr)>)
      requires i <= |toks|
      modifies this`i
      ensures Follows(R.ParsePair(toks, old(i)), r, i)
    {
      hide P.ParseExpr;
      var a := Expr(0);
      if a.None? { return None; }
      var ok := Eat(P.TComma);
      if !ok { return None; }
      var b := Expr(0);
      return if b.None? then None else Some((a.value, b.value));
    }

    method PathOf(first: string) returns (r: Option<seq<string>>)
      requires i <= |toks|
      modifies this`i
      ensures Follows(R.ParsePath(toks, old(i), [first]), r, i)
    {
      var path := [first];
      while Peek() == P.TDot
        invariant old(i) <= i <= |toks|
        invariant R.ParsePath(toks, i, path) == R.ParsePath(toks, old(i), [first])
        decreases |toks| - i
      {
        i := i + 1;
        var w := Word();
        if w.None? { return None; }
        path := path + [w.value];
      }
      return Some(path);
    }

    method OneArm() returns (r: Option<Arm>)
      requires i <= |toks|
      modifies this`i
      ensures Follows(R.ParseArm(toks, old(i)), r, i)
      decreases |toks| - i, 1
    {
      hide P.ParseExpr, R.ParseBlock;
      var c := Expr(0);
      if c.None? { return None; }
      var ok := Eat(P.TColon);
      if !ok { return None; }
      var b := Block();
      return if b.None? then None else Some(Arm(c.value, b.value));
    }

    method Arms(first: Arm) returns (r: Option<Stmt>)
      requires i <= |toks|
      modifies this`i
      ensures Follows(R.ParseArms(toks, old(i), [first], NoElse), r, i)
      decreases |toks| - i, 1
    {
      hide R.ParseArm, R.ParseBlock;
      var arms, otherwise := [first], NoElse;
      while true
        invariant old(i) <= i <= |toks|
        invariant R.ParseArms(toks, i, arms, otherwise) == R.ParseArms(toks, old(i), [first], NoElse)
        decreases |toks| - i
      {
        var t := Next();
        match t {
          case TElif =>
            var a := OneArm();
            if a.None? { return None; }
            arms := arms + [a.value];
          case TElse =>
            var ok := Eat(P.TColon);
            if !ok { return None; }
            var b := Block();
            if b.None? { return None; }
            otherwise := Else(b.value);
          case TEnd => return Some(If(arms, otherwise));
          case _ => return None;
        }
      }
    }

    method ForOf() returns (r: Option<Stmt>)
      requires i <= |toks|
      modifies this`i
      ensures Follows(R.ParseFor(toks, old(i)), r, i)
      decreases |toks| - i, 1
    {
      hide P.ParseExpr, R.ParseBlock;
      var t := Next();
      if !t.TIdent? { return None; }
      var ok := Eat(P.TIn);
      if !ok { return None; }
      var it := Expr(0);
      if it.None? { return None; }
      ok := Eat(P.TColon);
      if !ok { return None; }
      var b := Block();
      if b.None? { return None; }
      ok := Eat(P.TEnd);
      return if ok then Some(For(t.s, it.value, b.value)) else None;
    }

    method OneStmt() returns (r: Option<Stmt>)
      requires i <= |toks|
      modifies this`i
      ensures Follows(R.ParseStmt(toks, old(i)), r, i)
      decreases |toks| - i, 2
    {
      hide P.ParseExpr, P.ParseInvoke, R.ParsePair, R.ParseArm, R.ParseArms, R.ParseFor, R.ParsePath;
      var t := Next();
      match t {
        case TEmit =>
          var p := PairOf();
          return if p.None? then None else Some(Emit(p.value.0, p.value.1));
        case TRespond =>
          var p := PairOf();
          return if p.None? then None else Some(Respond(p.value.0, p.value.1));
        case TInvoke =>
          var call := InvokeArgs();
          return if call.None? then None else Some(InvokeMerge(call.value.0, call.value.1));
        case TIf =>
          var a := OneArm();
          if a.None? { return None; }
          r := Arms(a.value);
        case TFor => r := ForOf();
        case TIdent(first) =>
          var path := PathOf(first);
          if path.None? { return None; }
          r := Assignment(path.value);
        case _ => return None;
      }
    }

    /** After the path of an assignment. */
    method Assignment(path: seq<string>) returns (r: Option<Stmt>)
      requires i <= |toks|
      modifies this`i
      ensures Follows(
                if P.Peek(toks, old(i)) != P.TEq then P.No
                else if P.Peek(toks, old(i) + 1) == P.TInvoke then
                  (match P.ParseInvoke(toks, old(i) + 2) case No => P.No case Yes((name, args), k) => P.Yes(Assign(path, Invoke(name, args)), k))
                else
                  (match P.ParseExpr(toks, old(i) + 1, 0) case No => P.No case Yes(e, k) => P.Yes(Assign(path, e), k)), r, i)
    {
      hide P.ParseExpr, P.ParseInvoke;
      var ok := Eat(P.TEq);
      if !ok { return None; }
      if Peek() == P.TInvoke {
        i := i + 1;
        var call := InvokeArgs();
        return if call.None? then None else Some(Assign(path, Invoke(call.value.0, call.value.1)));
      }
      var e := Expr(0);
      return if e.None? then None else Some(Assign(path, e.value));
    }

    // ---------- the top level ----------

    method OneItem() returns (r: Option<R.Item>)
      requires i <= |toks|
      modifies this`i
      ensures Follows(R.ParseItem(toks, old(i)), r, i)
    {
      hide R.ParseStmt, R.LiteralAt, R.SurfaceName;
      var t := Peek();
      if R.IsDirective(t) {
        i := i + 1;
        var s := Next();
        return if s.TStr? then Some(R.Directive(t, s.s)) else None;
      }
      if t.TIdent? && R.SurfaceName(t.s) && P.Peek(toks, i + 1) == P.TEq {
        var save := i;
        i := i + 2;
        var lit := TryLiteral();
        if lit.Some? { return Some(R.Const(t.s, lit.value.0, save + 2, lit.value.1)); }
        i := save;
      }
      var s := OneStmt();
      return if s.None? then None else Some(R.Line(s.value));
    }

    /** The loop over the lines of a program. */
    method Lines() returns (r: Option<seq<R.Item>>)
      requires i == 0
      modifies this`i
      ensures r == R.ParseItems'(toks, 0)
    {
      hide R.ParseItem, P.SkipNewlines;
      var items := [];
      AfterNothing(R.ParseItems'(toks, 0));
      while true
        invariant i <= |toks|
        invariant After(items, R.ParseItems'(toks, i)) == R.ParseItems'(toks, 0)
        decreases |toks| - i
      {
        ghost var was := items;
        SkipNewlines();
        if i + 1 >= |toks| {
          assert items + [] == items;
          return Some(items);
        }
        var it := OneItem();
        if it.None? { return None; }
        items := items + [it.value];
        AfterOne(was, it.value, R.ParseItems'(toks, i));
      }
    }
  }
}
