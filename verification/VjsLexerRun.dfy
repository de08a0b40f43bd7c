// The lexer of core/src/vjs.rs as it runs: an index that moves over the text, and loops for
// comments, numbers, words, strings and f-strings.

module VjsLexerRun {
  import opened Wrappers
  import opened VjsSyntax
  import opened VjsParser
  import opened VjsLexer
  import opened VjsLists

  /** Text of a string read so far, and the rest of it. */
  ghost function Text(done: string, k: nat, rest: Option<(string, nat)>): Option<(string, nat)> {
    if rest.None? then None else Some((done + rest.value.0, k + rest.value.1))
  }

  lemma {:induction false} TextOne(done: string, c: char, k: nat, n: nat, rest: Option<(string, nat)>)
    ensures Text(done + [c], k + n, rest) == Text(done, k, if rest.None? then None else Some(([c] + rest.value.0, rest.value.1 + n)))
  {
    if rest.Some? { assert (done + [c]) + rest.value.0 == done + ([c] + rest.value.0); }
  }

  method RunFrom(src: string, start: nat, p: char -> bool) returns (i: nat)
    requires start <= |src|
    ensures i == start + Run(src[start..], p)
  {
    i := start;
    while i < |src| && p(src[i])
      invariant start <= i <= |src| && start + Run(src[start..], p) == i + Run(src[i..], p)
    {
      assert src[i..][0] == src[i] && src[i..][1..] == src[i + 1..];
      i := i + 1;
    }
    assert i < |src| ==> src[i..][0] == src[i];
  }

  /** From the character after the opening quote. */
  method StringFrom(src: string, start: nat) returns (r: Option<(string, nat)>)
    requires start <= |src|
    ensures r == LexString(src[start..])
  {
    var s := "";
    var i := start;
    assert Text("", 0, LexString(src[i..])) == LexString(src[i..]) by {
      if LexString(src[i..]).Some? { assert "" + LexString(src[i..]).value.0 == LexString(src[i..]).value.0; }
    }
    while i < |src|
      invariant start <= i <= |src|
      invariant LexString(src[start..]) == Text(s, i - start, LexString(src[i..]))
    {
      var x := src[i..];
      assert x[0] == src[i];
      if src[i] == '"' {
        assert s + "" == s;
        return Some((s, i + 1 - start));
      } else if src[i] == '\\' && i + 1 < |src| {
        assert x[1] == src[i + 1] && x[2..] == src[i + 2..];
        TextOne(s, Unescape(src[i + 1]), i - start, 2, LexString(src[i + 2..]));
        s, i := s + [Unescape(src[i + 1])], i + 2;
      } else {
        assert x[1..] == src[i + 1..];
        TextOne(s, src[i], i - start, 1, LexString(src[i + 1..]));
        s, i := s + [src[i]], i + 1;
      }
    }
    return None;
  }

  /** From the character after a hole's opening brace: the length up to its closing brace. */
  method HoleFrom(src: string, start: nat) returns (r: Option<nat>)
    requires start <= |src|
    ensures r == HoleLength(src[start..], 1)
  {
    var depth := 1;
    var j := start;
    while j < |src| && depth > 0
      invariant start <= j <= |src| && depth >= 0
      invariant depth == 0 ==> HoleLength(src[start..], 1) == Some(j - start)
      invariant depth > 0 ==>
          HoleLength(src[start..], 1) ==
          match HoleLength(src[j..], depth) case None => None case Some(n) => Some(n + (j - start))
    {
      assert src[j..][0] == src[j] && src[j..][1..] == src[j + 1..];
      if src[j] == '{' { depth := depth + 1; } else if src[j] == '}' { depth := depth - 1; }
      j := j + 1;
    }
    return if depth == 0 then Some(j - start) else None;
  }

  /** From the character after an f-string's quote. */
  method FStringFrom(src: string, start: nat) returns (r: Option<(seq<TPart>, nat)>)
    requires start <= |src|
    ensures r == LexFString(src[start..], "")
    decreases |src| - start, 0
  {
    hide LexFrom, HoleLength, Flush, LexFString;
    var parts: seq<TPart>, lit := [], "";
    var i := start;
    FurtherNothing(LexFString(src[i..], ""));
    while i < |src|
      invariant start <= i <= |src|
      invariant LexFString(src[start..], "") == Further(LexFString(src[i..], lit), parts, i - start)
    {
      var x := src[i..];
      assert x[0] == src[i];
      FStringStep(x, lit);
      ghost var was, k := parts, i - start;
      if src[i] == '"' {
        return Some((parts + Flush(lit), i + 1 - start));
      } else if i + 1 < |src| && ((src[i] == '{' && src[i + 1] == '{') || (src[i] == '}' && src[i + 1] == '}')) {
        assert x[1] == src[i + 1] && x[2..] == src[i + 2..];
        lit, i := lit + [src[i]], i + 2;
        FurtherTwice(LexFString(src[i..], lit), was, [], k, 2);
      } else if src[i] == '{' {
        assert x[1..] == src[i + 1..];
        var n := HoleFrom(src, i + 1);
        if n.None? { return None; }
        assert x[1..n.value] == src[i + 1..i + n.value];
        var inner := LexText(src[i + 1..i + n.value]);
        if inner.None? { return None; }
        assert x[n.value + 1..] == src[i + 1 + n.value..];
        var more := Flush(lit) + [THole(ToksOf(inner.value))];
        parts, lit, i := parts + more, "", i + 1 + n.value;
        FurtherTwice(LexFString(src[i..], lit), was, more, k, n.value + 1);
      } else if src[i] == '\\' && i + 1 < |src| {
        assert x[1] == src[i + 1] && x[2..] == src[i + 2..];
        lit, i := lit + [Unescape(src[i + 1])], i + 2;
        FurtherTwice(LexFString(src[i..], lit), was, [], k, 2);
      } else {
        assert x[1..] == src[i + 1..];
        lit, i := lit + [src[i]], i + 1;
        FurtherTwice(LexFString(src[i..], lit), was, [], k, 1);
      }
    }
    FStringStep(src[i..], lit);
    return None;
  }

  lemma {:induction false} FurtherNothing(r: Option<(seq<TPart>, nat)>)
    ensures Further(r, [], 0) == r
  {
    if r.Some? { assert [] + r.value.0 == r.value.0; }
  }

  lemma {:induction false} FurtherTwice(r: Option<(seq<TPart>, nat)>, ps: seq<TPart>, qs: seq<TPart>, k: nat, n: nat)
    ensures Further(Further(r, qs, n), ps, k) == Further(r, ps + qs, k + n)
    ensures qs == [] ==> Further(r, ps + qs, k + n) == Further(r, ps, k + n)
  {
    if r.Some? { assert ps + (qs + r.value.0) == (ps + qs) + r.value.0; }
    assert qs == [] ==> ps + qs == ps;
  }

  /** One turn of the lexer's loop, at `i`. */
  method StepFrom(src: string, i: nat) returns (r: Step)
    requires i < |src|
    ensures r == LexOne(src[i..])
    decreases |src| - i, 1
  {
    hide LexFrom, LexString, LexFString, Run, NumOf, WordTok, Symbol;
    var x := src[i..];
    var c := src[i];
    assert x[0] == c;
    if Space(c) { return Blank(1); }
    if c == '\n' { return Token(TNewline, 1); }
    if c == '#' {
      var j := RunFrom(src, i, InLine);
      return Blank(j - i);
    }
    if c == '"' {
      assert x[1..] == src[i + 1..];
      var s := StringFrom(src, i + 1);
      return if s.None? then Bad else Token(TStr(s.value.0), s.value.1 + 1);
    }
    if c == 'f' && i + 1 < |src| && src[i + 1] == '"' {
      assert x[1] == '"' && x[2..] == src[i + 2..];
      var s := FStringFrom(src, i + 2);
      return if s.None? then Bad else Token(TFStr(s.value.0), s.value.1 + 2);
    }
    assert i + 1 < |src| ==> x[1] == src[i + 1];
    if Digit(c) {
      var j := RunFrom(src, i, NumChar);
      assert src[i..j] == x[..j - i];
      var n := NumOf(src[i..j]);
      return if n.None? then Bad else Token(TNum(n.value), j - i);
    }
    if Letter(c) {
      var j := RunFrom(src, i, WordChar);
      assert src[i..j] == x[..j - i];
      return Token(WordTok(src[i..j]), j - i);
    }
    var two := if i + 1 < |src| then Pair(c, src[i + 1]) else None;
    if two.Some? { return Token(two.value, 2); }
    var one := Symbol(c);
    return if one.None? then Bad else Token(one.value, 1);
  }

  /** The lexer's loop. */
  method LexText(src: string) returns (r: Option<seq<Placed>>)
    ensures r == LexFrom(src)
    decreases |src|, 2
  {
    hide LexOne;
    var out: seq<Placed> := [];
    var i := 0;
    assert src[0..] == src;
    AfterNothing(LexFrom(src));
    while i < |src|
      invariant i <= |src|
      invariant LexFrom(src) == After(out, LexFrom(src[i..]))
      decreases |src| - i
    {
      ghost var was, x := out, src[i..];
      var step := StepFrom(src, i);
      match step {
        case Bad => return None;
        case Blank(n) =>
          assert x[n..] == src[i + n..];
          i := i + n;
        case Token(t, n) =>
          assert x[n..] == src[i + n..];
          out, i := out + [Placed(t, |src| - i)], i + n;
          AfterOne(was, Placed(t, |x|), LexFrom(src[i..]));
      }
    }
    return Some(out + [Placed(TNewline, 0)]);
  }
}
