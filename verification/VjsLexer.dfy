// The VejasScript lexer (core/src/vjs.rs): one step reads a blank, a comment or a token off the
// front of the text. Positions are kept as the length of the text that remains.

module VjsLexer {
  import opened Wrappers
  import opened VjsSyntax
  import opened VjsParser

  // ---------- characters ----------

  predicate Space(c: char) { c == ' ' || c == '\t' || c == '\r' }
  predicate Digit(c: char) { '0' <= c <= '9' }
  predicate Letter(c: char) { 'a' <= c <= 'z' || 'A' <= c <= 'Z' || c == '_' }
  predicate WordChar(c: char) { Letter(c) || Digit(c) }
  predicate NumChar(c: char) { Digit(c) || c == '.' }
  predicate InLine(c: char) { c != '\n' }

  /** How many characters at the front satisfy `p`. */
  function Run(s: string, p: char -> bool): (n: nat)
    ensures n <= |s| && (forall k :: 0 <= k < n ==> p(s[k])) && (n < |s| ==> !p(s[n]))
  {
    if s == "" || !p(s[0]) then 0 else 1 + Run(s[1..], p)
  }

  // ---------- numbers ----------

  function Whole(t: string): (n: nat)
    requires forall k :: 0 <= k < |t| ==> Digit(t[k])
  {
    if t == "" then 0 else
    assert Digit(t[|t| - 1]);
    10 * Whole(t[..|t| - 1]) + (t[|t| - 1] as int - '0' as int)
  }

  function PowerOfTen(k: nat): (p: nat)
    ensures p > 0
  {
    if k == 0 then 1 else 10 * PowerOfTen(k - 1)
  }

  /** Digits with at most one point among them. */
  function NumOf(t: string): (r: Option<Amount>) {
    var k := Run(t, Digit);
    if k == |t| then Some(Whole(t) as real)
    else
      var frac := t[k + 1..];
      if t[k] == '.' && Run(frac, Digit) == |frac|
      then Some(Whole(t[..k]) as real + (Whole(frac) as real / PowerOfTen(|frac|) as real))
      else None
  }

  // ---------- words and symbols ----------

  function WordTok(w: string): (t: Tok) {
    if w == "if" then TIf else if w == "elif" then TElif else if w == "else" then TElse
    else if w == "end" then TEnd else if w == "for" then TFor else if w == "in" then TIn
    else if w == "and" then TAnd else if w == "or" then TOr else if w == "not" then TNot
    else if w == "emit" then TEmit else if w == "invoke" then TInvoke else if w == "source" then TSource
    else if w == "tool" then TTool else if w == "driver" then TDriver else if w == "api" then TApi
    else if w == "respond" then TRespond else if w == "true" then TTrue else if w == "false" then TFalse
    else if w == "null" then TNull else TIdent(w)
  }

  function Pair(a: char, b: char): (t: Option<Tok>) {
    if a == '?' && b == '.' then Some(TQDot)
    else if a == '?' && b == '?' then Some(TQQ)
    else if b != '=' then None
    else if a == '=' then Some(TEqEq)
    else if a == '!' then Some(TNe)
    else if a == '<' then Some(TLe)
    else if a == '>' then Some(TGe)
    else None
  }

  function Symbol(c: char): (t: Option<Tok>) {
    if c == ':' then Some(TColon) else if c == ',' then Some(TComma) else if c == '.' then Some(TDot)
    else if c == '{' then Some(TLBrace) else if c == '}' then Some(TRBrace)
    else if c == '[' then Some(TLBrack) else if c == ']' then Some(TRBrack)
    else if c == '(' then Some(TLParen) else if c == ')' then Some(TRParen)
    else if c == '=' then Some(TEq) else if c == '<' then Some(TLt) else if c == '>' then Some(TGt)
    else if c == '+' then Some(TPlus) else if c == '-' then Some(TMinus)
    else if c == '*' then Some(TStar) else if c == '/' then Some(TSlash)
    else None
  }

  // ---------- strings ----------

  function Unescape(c: char): (u: char) { if c == 'n' then '\n' else if c == 't' then '\t' else c }

  /** What follows an opening quote: the string, and how much text it takes with its closing quote. */
  function LexString(s: string): (r: Option<(string, nat)>)
    ensures r.Some? ==> 0 < r.value.1 <= |s|
  {
    if s == "" then None
    else if s[0] == '"' then Some(("", 1))
    else
      var (c, k) := if s[0] == '\\' && |s| > 1 then (Unescape(s[1]), 2) else (s[0], 1);
      match LexString(s[k..])
      case None => None
      case Some((t, n)) => Some(([c] + t, n + k))
  }

  function Flush(lit: string): (ps: seq<TPart>) { if lit == "" then [] else [TLit(lit)] }

  /** How much text a hole takes with its closing brace, at brace depth `depth`. */
  function HoleLength(s: string, depth: nat): (r: Option<nat>)
    requires depth > 0
    ensures r.Some? ==> 0 < r.value <= |s|
  {
    if s == "" then None
    else
      var d := if s[0] == '{' then depth + 1 else if s[0] == '}' then depth - 1 else depth;
      if d == 0 then Some(1)
      else match HoleLength(s[1..], d)
           case None => None
           case Some(n) => Some(n + 1)
  }

  /** What follows the quote of an f-string, `lit` being the text gathered since the last hole. */
  function LexFString(s: string, lit: string): (r: Option<(seq<TPart>, nat)>)
    ensures r.Some? ==> 0 < r.value.1 <= |s|
    decreases |s|, 0
  {
    if s == "" then None
    else if s[0] == '"' then Some((Flush(lit), 1))
    else if |s| > 1 && ((s[0] == '{' && s[1] == '{') || (s[0] == '}' && s[1] == '}')) then
      Further(LexFString(s[2..], lit + [s[0]]), [], 2)
    else if s[0] == '{' then
      match HoleLength(s[1..], 1)
      case None => None
      case Some(n) =>
        match LexFrom(s[1..n])
        case None => None
        case Some(inner) => Further(LexFString(s[n + 1..], ""), Flush(lit) + [THole(ToksOf(inner))], n + 1)
    else if s[0] == '\\' && |s| > 1 then Further(LexFString(s[2..], lit + [Unescape(s[1])]), [], 2)
    else Further(LexFString(s[1..], lit + [s[0]]), [], 1)
  }

  function Further(r: Option<(seq<TPart>, nat)>, ps: seq<TPart>, k: nat): (r': Option<(seq<TPart>, nat)>) {
    if r.None? then None else Some((ps + r.value.0, r.value.1 + k))
  }

  // ---------- one step, and the whole text ----------

  /** One step: nothing, a token, or an error; with the length it takes. */
  datatype Step = Blank(n: nat) | Token(t: Tok, n: nat) | Bad

  function LexOne(s: string): (r: Step)
    requires s != ""
    ensures !r.Bad? ==> 0 < r.n <= |s|
    decreases |s|, 1
  {
    var c := s[0];
    if Space(c) then Blank(1)
    else if c == '\n' then Token(TNewline, 1)
    else if c == '#' then Blank(Run(s, InLine))
    else if c == '"' then
      (match LexString(s[1..]) case None => Bad case Some((t, n)) => Token(TStr(t), n + 1))
    else if c == 'f' && |s| > 1 && s[1] == '"' then
      (match LexFString(s[2..], "") case None => Bad case Some((ps, n)) => Token(TFStr(ps), n + 2))
    else if Digit(c) then
      var n := Run(s, NumChar);
      (match NumOf(s[..n]) case None => Bad case Some(v) => Token(TNum(v), n))
    else if Letter(c) then
      var n := Run(s, WordChar);
      Token(WordTok(s[..n]), n)
    else if |s| > 1 && Pair(c, s[1]).Some? then Token(Pair(c, s[1]).value, 2)
    else match Symbol(c) case None => Bad case Some(t) => Token(t, 1)
  }

  /** A token and the length of the text from its first character on. */
  datatype Placed = Placed(tok: Tok, rem: nat)

  function ToksOf(ps: seq<Placed>): (ts: Toks)
    ensures |ts| == |ps| && forall k :: 0 <= k < |ps| ==> ts[k] == ps[k].tok
  {
    seq(|ps|, k requires 0 <= k < |ps| => ps[k].tok)
  }

  function LexFrom(s: string): (r: Option<seq<Placed>>)
    ensures r.Some? ==> |r.value| > 0
    decreases |s|, 2
  {
    if s == "" then Some([Placed(TNewline, 0)])
    else match LexOne(s)
         case Bad => None
         case Blank(n) => LexFrom(s[n..])
         case Token(t, n) =>
           match LexFrom(s[n..])
           case None => None
           case Some(rest) => Some([Placed(t, |s|)] + rest)
  }

  /** One turn of the loop over an f-string. */
  lemma {:induction false} FStringStep(s: string, lit: string)
    ensures LexFString(s, lit) ==
            if s == "" then None
            else if s[0] == '"' then Some((Flush(lit), 1))
            else if |s| > 1 && ((s[0] == '{' && s[1] == '{') || (s[0] == '}' && s[1] == '}')) then
              Further(LexFString(s[2..], lit + [s[0]]), [], 2)
            else if s[0] == '{' then
              var n := HoleLength(s[1..], 1);
              if n.None? || LexFrom(s[1..n.value]).None? then None
              else Further(LexFString(s[n.value + 1..], ""), Flush(lit) + [THole(ToksOf(LexFrom(s[1..n.value]).value))], n.value + 1)
            else if s[0] == '\\' && |s| > 1 then Further(LexFString(s[2..], lit + [Unescape(s[1])]), [], 2)
            else Further(LexFString(s[1..], lit + [s[0]]), [], 1)
  {
    hide LexFrom, HoleLength;
  }
}
