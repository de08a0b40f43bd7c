// Lexing a text that was edited (core/src/vjs.rs): what was read before the edit and after it
// is read again, as long as the characters that now meet do not run together.

module VjsRelex {
  import opened Wrappers
  import opened VjsSyntax
  import opened VjsParser
  import opened VjsLexer

  function LexToks(s: string): (r: Option<Toks>) {
    match LexFrom(s) case None => None case Some(ps) => Some(ToksOf(ps))
  }

  function Prepend(ts: Toks, r: Option<Toks>): (r': Option<Toks>) {
    match r case None => None case Some(us) => Some(ts + us)
  }

  // ---------- the steps of the lexer ----------

  /** The lexer, started on `s`, comes to where `r` characters remain. */
  ghost predicate Reaches(s: string, r: nat)
    decreases |s|
  {
    |s| == r || (|s| > r && !LexOne(s).Bad? && Reaches(s[LexOne(s).n..], r))
  }

  /** The tokens it reads until then. */
  ghost function Before(s: string, r: nat): (ps: seq<Placed>)
    requires Reaches(s, r)
    decreases |s|
  {
    if |s| == r then []
    else
      var rest := Before(s[LexOne(s).n..], r);
      if LexOne(s).Token? then [Placed(LexOne(s).t, |s|)] + rest else rest
  }

  /** What remains of `s`. */
  function Rest(s: string, r: nat): (t: string)
    requires r <= |s|
  {
    s[|s| - r..]
  }

  lemma {:induction false} ReachesStep(s: string, r: nat)
    requires s != "" && r < |s|
    ensures Reaches(s, r) <==> !LexOne(s).Bad? && Reaches(s[LexOne(s).n..], r)
    ensures Reaches(s, r) ==>
              && |s| - LexOne(s).n >= r
              && Before(s, r) == (if LexOne(s).Token? then [Placed(LexOne(s).t, |s|)] else []) + Before(s[LexOne(s).n..], r)
  {
    hide LexOne;
    if Reaches(s, r) { ReachesShorter(s[LexOne(s).n..], r); }
  }

  lemma {:induction false} ReachesShorter(s: string, r: nat)
    requires Reaches(s, r)
    ensures r <= |s|
  {
    hide LexOne;
  }

  lemma {:induction false} ReachesNothing(s: string, r: nat)
    requires |s| == r
    ensures Reaches(s, r) && Before(s, r) == []
  {
    hide LexOne;
  }

  lemma {:induction false} LexFromStep(s: string)
    requires s != ""
    ensures LexFrom(s) ==
            if LexOne(s).Bad? || LexFrom(s[LexOne(s).n..]).None? then None
            else Some((if LexOne(s).Token? then [Placed(LexOne(s).t, |s|)] else []) + LexFrom(s[LexOne(s).n..]).value)
  {
    hide LexOne;
    if !LexOne(s).Bad? {
      var r := LexFrom(s[LexOne(s).n..]);
      if r.Some? { assert [] + r.value == r.value; }
    }
  }

  lemma {:induction false} LexToksStep(s: string)
    requires s != "" && !LexOne(s).Bad?
    ensures LexToks(s) == Prepend(if LexOne(s).Token? then [LexOne(s).t] else [], LexToks(s[LexOne(s).n..]))
  {
    hide LexOne, LexFrom;
    LexFromStep(s);
    var r := LexFrom(s[LexOne(s).n..]);
    if r.Some? {
      var p := if LexOne(s).Token? then [Placed(LexOne(s).t, |s|)] else [];
      assert ToksOf(p + r.value) == (if LexOne(s).Token? then [LexOne(s).t] else []) + ToksOf(r.value);
    }
  }

  /** What is read is what is read up to a place, and then from it. */
  lemma {:induction false} SplitAt(s: string, r: nat)
    requires Reaches(s, r)
    ensures r <= |s|
    ensures LexFrom(s) == if LexFrom(Rest(s, r)).None? then None else Some(Before(s, r) + LexFrom(Rest(s, r)).value)
    decreases |s|
  {
    hide LexOne, LexFrom, Reaches, Before;
    ReachesShorter(s, r);
    if |s| == r {
      ReachesNothing(s, r);
      assert Rest(s, r) == s;
      if LexFrom(s).Some? { assert [] + LexFrom(s).value == LexFrom(s).value; }
    } else {
      ReachesStep(s, r);
      var n := LexOne(s).n;
      LexFromStep(s);
      SplitAt(s[n..], r);
      assert Rest(s[n..], r) == Rest(s, r);
      if LexFrom(Rest(s, r)).Some? {
        var p, z := Before(s[n..], r), LexFrom(Rest(s, r)).value;
        var h := if LexOne(s).Token? then [Placed(LexOne(s).t, |s|)] else [];
        assert h + (p + z) == (h + p) + z;
      }
    }
  }

  lemma {:induction false} SplitToks(s: string, r: nat)
    requires Reaches(s, r)
    ensures r <= |s| && LexToks(s) == Prepend(ToksOf(Before(s, r)), LexToks(Rest(s, r)))
  {
    hide LexOne, LexFrom, Reaches, Before;
    SplitAt(s, r);
    var z := LexFrom(Rest(s, r));
    if z.Some? { assert ToksOf(Before(s, r) + z.value) == ToksOf(Before(s, r)) + ToksOf(z.value); }
  }

  /** Token `k` of `s` stands where `r` characters remain: the lexer comes there, having read the ones before. */
  ghost predicate Stands(s: string, ps: seq<Placed>, k: nat, r: nat) {
    && k < |ps| && r == ps[k].rem && r <= |s| && Reaches(s, r)
    && Before(s, r) == ps[..k] && LexFrom(Rest(s, r)) == Some(ps[k..])
    && (r == 0 ==> k == |ps| - 1 && ps[k].tok == TNewline)
    && (r > 0 ==> LexOne(Rest(s, r)).Token? && LexOne(Rest(s, r)).t == ps[k].tok)
  }

  /** The lexer comes to the place of every token it reads. */
  lemma {:induction false} TokenReached(s: string, k: nat)
    requires LexFrom(s).Some? && k < |LexFrom(s).value|
    ensures Stands(s, LexFrom(s).value, k, LexFrom(s).value[k].rem)
    decreases |s|
  {
    hide LexOne, LexFrom, Reaches, Before, Stands;
    if s == "" {
      LastStands();
    } else {
      LexFromStep(s);
      var h := if LexOne(s).Token? then 1 else 0;
      if k < h {
        FirstStands(s);
      } else {
        var n := LexOne(s).n;
        TokenReached(s[n..], k - h);
        LaterStands(s, k);
      }
    }
  }

  lemma {:induction false} LastStands()
    ensures LexFrom("") == Some([Placed(TNewline, 0)]) && Stands("", [Placed(TNewline, 0)], 0, 0)
  {
    ReachesNothing("", 0);
  }

  lemma {:induction false} FirstStands(s: string)
    requires s != "" && LexOne(s).Token? && LexFrom(s).Some?
    ensures Stands(s, LexFrom(s).value, 0, LexFrom(s).value[0].rem)
  {
    hide LexOne, LexFrom, Reaches, Before;
    LexFromStep(s);
    ReachesNothing(s, |s|);
    assert Rest(s, |s|) == s;
  }

  lemma {:induction false} LaterStands(s: string, k: nat)
    requires s != "" && LexFrom(s).Some? && !LexOne(s).Bad? && LexFrom(s[LexOne(s).n..]).Some?
    requires var h := if LexOne(s).Token? then 1 else 0;
             var z := LexFrom(s[LexOne(s).n..]).value;
             h <= k < |LexFrom(s).value| && k - h < |z| && Stands(s[LexOne(s).n..], z, k - h, z[k - h].rem)
    ensures Stands(s, LexFrom(s).value, k, LexFrom(s).value[k].rem)
  {
    hide LexOne, LexFrom, Reaches, Before;
    LexFromStep(s);
    var n := LexOne(s).n;
    var h := if LexOne(s).Token? then [Placed(LexOne(s).t, |s|)] else [];
    var ps, z := LexFrom(s).value, LexFrom(s[n..]).value;
    assert ps == h + z;
    var r := z[k - |h|].rem;
    ReachesStep(s, r);
    assert Rest(s[n..], r) == Rest(s, r);
    assert ps[k] == z[k - |h|] && ps[k..] == z[k - |h|..] && ps[..k] == h + z[..k - |h|];
  }

  lemma {:induction false} ReachesOn(s: string, r: nat, q: nat)
    requires Reaches(s, r) && r <= |s| && Reaches(Rest(s, r), q)
    ensures Reaches(s, q) && Before(s, q) == Before(s, r) + Before(Rest(s, r), q)
    decreases |s|
  {
    hide LexOne, Reaches, Before;
    ReachesShorter(Rest(s, r), q);
    if |s| == r {
      assert Rest(s, r) == s;
      ReachesNothing(s, r);
    } else {
      ReachesStep(s, r);
      var n := LexOne(s).n;
      assert Rest(s[n..], r) == Rest(s, r);
      ReachesOn(s[n..], r, q);
      ReachesStep(s, q);
    }
  }

  // ---------- a step looks no further than the character after it ----------

  /** `c` and the text after it do not run together into one token. */
  predicate Apart(c: char, y: string) {
    y == "" || (
      && !(WordChar(c) && (WordChar(y[0]) || y[0] == '.'))
      && !(c == '.' && NumChar(y[0]))
      && !(c == 'f' && y[0] == '"')
      && Pair(c, y[0]).None?)
  }

  lemma {:induction false} RunIs(s: string, p: char -> bool, n: nat)
    requires n <= |s| && (forall k :: 0 <= k < n ==> p(s[k])) && (n < |s| ==> !p(s[n]))
    ensures Run(s, p) == n
  {
  }

  lemma {:induction false} RunLocal(a: string, y: string, y': string, p: char -> bool)
    requires Run(a + y, p) <= |a|
    requires Run(a + y, p) == |a| ==> y' == "" || !p(y'[0])
    ensures Run(a + y', p) == Run(a + y, p)
  {
    hide Run;
    var n := Run(a + y, p);
    forall k | 0 <= k < n ensures p((a + y')[k]) { assert (a + y')[k] == (a + y)[k]; }
    if n < |a| { assert (a + y')[n] == (a + y)[n]; }
    RunIs(a + y', p, n);
  }

  lemma {:induction false} LexStringLocal(a: string, y: string, y': string)
    requires LexString(a + y).Some? && LexString(a + y).value.1 <= |a|
    ensures LexString(a + y') == LexString(a + y)
    decreases |a|
  {
    assert (a + y)[0] == a[0] == (a + y')[0];
    if a[0] != '"' {
      var k := if a[0] == '\\' && |a + y| > 1 then 2 else 1;
      assert (a + y)[k..] == a[k..] + y;
      assert (a + y')[k..] == a[k..] + y';
      if k == 2 { assert (a + y)[1] == a[1] == (a + y')[1]; }
      LexStringLocal(a[k..], y, y');
    }
  }

  lemma {:induction false} HoleLengthLocal(a: string, y: string, y': string, depth: nat)
    requires depth > 0 && HoleLength(a + y, depth).Some? && HoleLength(a + y, depth).value <= |a|
    ensures HoleLength(a + y', depth) == HoleLength(a + y, depth)
    decreases |a|
  {
    assert (a + y)[0] == a[0] == (a + y')[0];
    var d := if a[0] == '{' then depth + 1 else if a[0] == '}' then depth - 1 else depth;
    if d != 0 {
      assert (a + y)[1..] == a[1..] + y;
      assert (a + y')[1..] == a[1..] + y';
      HoleLengthLocal(a[1..], y, y', d);
    }
  }

  lemma {:induction false} LexFStringLocal(a: string, y: string, y': string, lit: string)
    requires LexFString(a + y, lit).Some? && LexFString(a + y, lit).value.1 <= |a|
    ensures LexFString(a + y', lit) == LexFString(a + y, lit)
    decreases |a|
  {
    hide LexFrom, HoleLength, LexFString, Flush;
    var s, s' := a + y, a + y';
    FStringStep(s, lit);
    FStringStep(s', lit);
    assert s[0] == a[0] == s'[0];
    if a[0] != '"' {
      if |a| == 1 { SingleEnds(s, lit); }
      assert s[1] == a[1] == s'[1];
      assert s[2..] == a[2..] + y && s'[2..] == a[2..] + y';
      assert s[1..] == a[1..] + y && s'[1..] == a[1..] + y';
      if (a[0] == '{' && a[1] == '{') || (a[0] == '}' && a[1] == '}') {
        LexFStringLocal(a[2..], y, y', lit + [a[0]]);
      } else if a[0] == '{' {
        var n := HoleLength(s[1..], 1).value;
        HoleLengthLocal(a[1..], y, y', 1);
        assert s[1..n] == s'[1..n];
        assert s[n + 1..] == a[n + 1..] + y && s'[n + 1..] == a[n + 1..] + y';
        LexFStringLocal(a[n + 1..], y, y', "");
      } else if a[0] == '\\' {
        LexFStringLocal(a[2..], y, y', lit + [Unescape(a[1])]);
      } else {
        LexFStringLocal(a[1..], y, y', lit + [a[0]]);
      }
    }
  }

  lemma {:induction false} SingleEnds(s: string, lit: string)
    requires LexFString(s, lit).Some? && LexFString(s, lit).value.1 <= 1
    ensures s[0] == '"'
  {
    hide LexFrom;
  }

  predicate Quoted(s: string) requires s != "" { s[0] == '"' || (s[0] == 'f' && |s| > 1 && s[1] == '"') }

  predicate Runs(c: char) { c == '#' || Digit(c) || Letter(c) }

  /** A step looks at nothing beyond the character after it. */
  lemma {:induction false} LexOneLocal(a: string, y: string, y': string)
    requires a != "" && !LexOne(a + y).Bad? && LexOne(a + y).n <= |a|
    requires y != "" && y[0] != '\n' && Apart(a[|a| - 1], y')
    ensures LexOne(a + y') == LexOne(a + y)
  {
    hide *;
    if Quoted(a + y) {
      QuotedLocal(a, y, y');
    } else {
      UnquotedLocal(a, y, y');
    }
  }

  lemma {:induction false} UnquotedLocal(a: string, y: string, y': string)
    requires a != "" && !LexOne(a + y).Bad? && LexOne(a + y).n <= |a| && !Quoted(a + y)
    requires y != "" && y[0] != '\n' && Apart(a[|a| - 1], y')
    ensures LexOne(a + y') == LexOne(a + y)
  {
    hide LexOne, Apart, Quoted;
    if a[0] == '#' {
      CommentLocal(a, y, y');
    } else if Digit(a[0]) {
      NumberLocal(a, y, y');
    } else if Letter(a[0]) {
      WordLocal(a, y, y');
    } else {
      SymbolLocal(a, y, y');
    }
  }

  lemma {:induction false} QuotedLocal(a: string, y: string, y': string)
    requires a != "" && !LexOne(a + y).Bad? && LexOne(a + y).n <= |a| && Quoted(a + y)
    ensures LexOne(a + y') == LexOne(a + y)
  {
    hide LexFrom, LexString, LexFString, LexOne;
    var s, s' := a + y, a + y';
    assert s[0] == a[0] == s'[0];
    LexQuoted(s);
    if a[0] == '"' {
      assert s[1..] == a[1..] + y && s'[1..] == a[1..] + y';
      LexStringLocal(a[1..], y, y');
    } else {
      assert s[1] == a[1] == s'[1];
      assert s[2..] == a[2..] + y && s'[2..] == a[2..] + y';
      LexFStringLocal(a[2..], y, y', "");
    }
    LexQuoted(s');
  }

  /** A step on a quote, or on the quote of an f-string. */
  lemma {:induction false} LexQuoted(s: string)
    requires s != "" && Quoted(s)
    ensures LexOne(s) ==
            if s[0] == '"' then (match LexString(s[1..]) case None => Bad case Some((t, n)) => Token(TStr(t), n + 1))
            else (match LexFString(s[2..], "") case None => Bad case Some((ps, n)) => Token(TFStr(ps), n + 2))
  {
    hide LexFrom, LexString, LexFString, NumOf, WordTok, Run, Symbol, Pair;
  }

  /** Comments, numbers and words are read to their last character. */
  lemma {:induction false} LexRun(s: string)
    requires s != "" && !Quoted(s) && Runs(s[0])
    ensures LexOne(s) ==
            if s[0] == '#' then Blank(Run(s, InLine))
            else if Digit(s[0]) then
              var n := Run(s, NumChar);
              if NumOf(s[..n]).None? then Bad else Token(TNum(NumOf(s[..n]).value), n)
            else Token(WordTok(s[..Run(s, WordChar)]), Run(s, WordChar))
  {
    hide Run, LexFrom, LexString, LexFString, NumOf, WordTok, Symbol, Pair;
  }

  lemma {:induction false} CommentLocal(a: string, y: string, y': string)
    requires a != "" && !LexOne(a + y).Bad? && LexOne(a + y).n <= |a| && !Quoted(a + y) && a[0] == '#'
    requires y != "" && y[0] != '\n' && Apart(a[|a| - 1], y')
    ensures LexOne(a + y') == LexOne(a + y)
  {
    hide Run, LexOne, NumOf, WordTok, Pair;
    var s, s' := a + y, a + y';
    assert s[0] == a[0] == s'[0];
    LexRun(s);
    var n := LexOne(s).n;
    assert s[..n] == a[..n] == s'[..n];
    assert s[|a|] == y[0];
    RunLocal(a, y, y', InLine);
    LexRun(s');
  }

  lemma {:induction false} NumberLocal(a: string, y: string, y': string)
    requires a != "" && !LexOne(a + y).Bad? && LexOne(a + y).n <= |a| && !Quoted(a + y) && Digit(a[0])
    requires y != "" && y[0] != '\n' && Apart(a[|a| - 1], y')
    ensures LexOne(a + y') == LexOne(a + y)
  {
    hide Run, LexOne, NumOf, WordTok, Pair;
    var s, s' := a + y, a + y';
    assert s[0] == a[0] == s'[0];
    LexRun(s);
    var n := LexOne(s).n;
    assert s[..n] == a[..n] == s'[..n];
    assert s[n - 1] == a[n - 1];
    RunLocal(a, y, y', NumChar);
    LexRun(s');
  }

  lemma {:induction false} WordLocal(a: string, y: string, y': string)
    requires a != "" && !LexOne(a + y).Bad? && LexOne(a + y).n <= |a| && !Quoted(a + y) && Letter(a[0])
    requires y != "" && y[0] != '\n' && Apart(a[|a| - 1], y')
    ensures LexOne(a + y') == LexOne(a + y)
  {
    hide Run, LexOne, NumOf, WordTok, Pair;
    var s, s' := a + y, a + y';
    assert s[0] == a[0] == s'[0];
    LexRun(s);
    var n := LexOne(s).n;
    assert s[..n] == a[..n] == s'[..n];
    assert s[n - 1] == a[n - 1];
    RunLocal(a, y, y', WordChar);
    assert !Quoted(s') by {
      if |a| > 1 { assert s[1] == a[1] == s'[1]; } else if y' != "" { assert s'[1] == y'[0]; }
    }
    LexRun(s');
  }

  lemma {:induction false} SymbolLocal(a: string, y: string, y': string)
    requires a != "" && !LexOne(a + y).Bad? && LexOne(a + y).n <= |a| && !Quoted(a + y) && !Runs(a[0])
    requires y != "" && y[0] != '\n' && Apart(a[|a| - 1], y')
    ensures LexOne(a + y') == LexOne(a + y)
  {
    hide LexFrom, LexString, LexFString, NumOf, WordTok, Symbol, Run;
    var s, s' := a + y, a + y';
    assert s[0] == a[0] == s'[0];
    assert |a| > 1 ==> s[1] == a[1] == s'[1];
    assert |a| == 1 ==> s[1] == y[0] && (y' != "" ==> s'[1] == y'[0]);
  }

  /** What is read before an edit stays, if the last character before it and the new text are apart. */
  lemma {:induction false} Recontext(a: string, y: string, y': string)
    requires Reaches(a + y, |y|) && y != "" && y[0] != '\n'
    requires a != "" ==> Apart(a[|a| - 1], y')
    ensures Reaches(a + y', |y'|)
    ensures ToksOf(Before(a + y', |y'|)) == ToksOf(Before(a + y, |y|))
    decreases |a|
  {
    hide LexOne, Reaches, Before, Apart;
    var s, s' := a + y, a + y';
    if a == "" {
      ReachesNothing(s, |y|);
      ReachesNothing(s', |y'|);
    } else {
      ReachesStep(s, |y|);
      LexOneLocal(a, y, y');
      var n := LexOne(s).n;
      assert s[n..] == a[n..] + y && s'[n..] == a[n..] + y';
      Recontext(a[n..], y, y');
      ReachesStep(s', |y'|);
      var b, b' := Before(s[n..], |y|), Before(s'[n..], |y'|);
      if LexOne(s).Token? {
        var t := LexOne(s).t;
        assert ToksOf([Placed(t, |s|)] + b) == [t] + ToksOf(b);
        assert ToksOf([Placed(t, |s'|)] + b') == [t] + ToksOf(b');
      } else {
        assert [] + b == b && [] + b' == b';
      }
    }
  }

  /** The last character before a place: a blank, a newline's, or the end of the token before it. */
  lemma {:induction false} LastChar(s: string, r: nat, c: char)
    requires Reaches(s, r) && 0 < r < |s| && Rest(s, r)[0] != '\n' && c == s[|s| - r - 1] && !Space(c)
    ensures Before(s, r) != []
    ensures var t := Before(s, r)[|Before(s, r)| - 1].tok;
            && (t == TEq ==> c == '=') && (t == TColon ==> c == ':')
            && (t == TLBrace ==> c == '{') && (t == TNewline ==> c == '\n')
    decreases |s|
  {
    hide LexOne, Reaches, Before;
    ReachesStep(s, r);
    var n := LexOne(s).n;
    ReachesShorter(s[n..], r);
    if |s| - n == r {
      ReachesNothing(s[n..], r);
      LastOf(s);
    } else {
      RestShorter(s, n, r);
      LastChar(s[n..], r, c);
    }
  }

  lemma {:induction false} RestShorter(s: string, n: nat, r: nat)
    requires n + r < |s|
    ensures Rest(s[n..], r) == Rest(s, r) && s[n..][|s| - n - r - 1] == s[|s| - r - 1]
  {
  }

  lemma {:induction false} LastOf(s: string)
    requires s != "" && !LexOne(s).Bad? && LexOne(s).n < |s| && s[LexOne(s).n] != '\n'
    ensures LexOne(s).Blank? ==> Space(s[LexOne(s).n - 1])
    ensures LexOne(s).Token? ==>
              && (LexOne(s).t == TEq ==> s[LexOne(s).n - 1] == '=') && (LexOne(s).t == TColon ==> s[LexOne(s).n - 1] == ':')
              && (LexOne(s).t == TLBrace ==> s[LexOne(s).n - 1] == '{') && (LexOne(s).t == TNewline ==> s[LexOne(s).n - 1] == '\n')
  {
    hide Run, LexFrom, LexString, LexFString, NumOf, WordTok;
    WordIsNoSymbol(s[..Run(s, WordChar)]);
  }

  lemma {:induction false} WordIsNoSymbol(w: string)
    ensures var t := WordTok(w); t != TEq && t != TColon && t != TLBrace && t != TNewline
  {
  }

  // ---------- blanks ----------

  lemma {:induction false} SkipsBlanks(w: string, z: string)
    requires forall k :: 0 <= k < |w| ==> Space(w[k])
    ensures LexToks(w + z) == LexToks(z)
    decreases |w|
  {
    hide LexFrom, LexToks;
    if w == "" {
      assert w + z == z;
    } else {
      assert (w + z)[0] == w[0];
      assert LexOne(w + z) == Blank(1);
      LexToksStep(w + z);
      assert (w + z)[1..] == w[1..] + z;
      SkipsBlanks(w[1..], z);
      EmptyPrefix(LexToks(z));
    }
  }

  lemma {:induction false} EmptyPrefix(r: Option<Toks>)
    ensures Prepend([], r) == r
  {
    if r.Some? { assert [] + r.value == r.value; }
  }

  lemma {:induction false} PrependTwice(a: Toks, b: Toks, r: Option<Toks>)
    ensures Prepend(a, Prepend(b, r)) == Prepend(a + b, r)
  {
    if r.Some? { assert a + (b + r.value) == (a + b) + r.value; }
  }
}
