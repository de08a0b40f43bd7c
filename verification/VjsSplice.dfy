// Replacing the tokens of one surface literal (core/src/vjs.rs): every other line of the
// program parses to the same thing, and the edited one to the new value.

module VjsSplice {
  import opened Wrappers
  import opened VjsSyntax
  import opened VjsParser
  import opened VjsProgram
  import opened VjsLocal
  import opened VjsBrackets

  // ---------- one line of the program ----------

  ghost predicate ItemMoved(a: Item, b: Item, d: int) {
    match a
    case Const(name, v, from, to) => b.Const? && b.name == name && b.value == v && b.from == from + d && b.to == to + d
    case _ => b == a
  }

  ghost predicate ItemsMoved(a: seq<Item>, b: seq<Item>, d: int) {
    |b| == |a| && forall m :: 0 <= m < |a| ==> ItemMoved(a[m], b[m], d)
  }

  predicate NamesConst(ts: Toks, i: nat) {
    Peek(ts, i).TIdent? && SurfaceName(Peek(ts, i).s) && Peek(ts, i + 1) == TEq
  }

  /** Looking for a surface constant looks no further than the line that is parsed. */
  lemma {:induction false} ConstWithinItem(ts: Toks, i: nat)
    requires i <= |ts| && NamesConst(ts, i) && ParseItem(ts, i).Yes?
    ensures i + 2 <= |ts| && Reach(LiteralAt(ts, i + 2)) <= ParseItem(ts, i).next
  {
    hide LiteralAt, ParseExpr, ParseInvoke, SurfaceName;
    if !StartsConst(ts, i) {
      assert ParsePath(ts, i + 1, [ts[i].s]) == Yes([ts[i].s], i + 1);
      if Peek(ts, i + 2) == TInvoke {
        InvokeIsNoLiteral(ts, i + 2);
      } else {
        LiteralWithinExpr(ts, i + 2, 0);
      }
    }
  }

  lemma {:induction false} InvokeIsNoLiteral(ts: Toks, i: nat)
    requires i < |ts| && ts[i] == TInvoke
    ensures LiteralAt(ts, i) == LNo(i)
  {
    hide LiteralItems, LiteralFields;
  }

  lemma {:induction false} StartsConstSame(ts: Toks, us: Toks, i: nat, n: nat, d: int)
    requires i <= |ts| && Same(ts, us, i, n, d)
    requires ParseItem(ts, i).Yes? && ParseItem(ts, i).next < n
    ensures i + d <= |us| && StartsConst(us, i + d) == StartsConst(ts, i)
    ensures StartsConst(ts, i) ==> LMoved(LiteralAt(ts, i + 2), LiteralAt(us, i + 2 + d), d)
  {
    hide LiteralAt, SurfaceName, ParseItem;
    assert Peek(us, i + d) == Peek(ts, i);
    assert Peek(us, i + 1 + d) == Peek(ts, i + 1);
    if NamesConst(ts, i) {
      ConstWithinItem(ts, i);
      LiteralSame(ts, us, i + 2, n, d);
      var r := LiteralAt(ts, i + 2);
      if r.LYes? { assert Peek(us, r.next + d) == Peek(ts, r.next); }
    }
  }

  /** A line of the program is the same wherever its tokens stand. */
  lemma {:induction false} ItemSame(ts: Toks, us: Toks, i: nat, n: nat, d: int)
    requires i <= |ts| && Same(ts, us, i, n, d)
    requires ParseItem(ts, i).Yes? && ParseItem(ts, i).next < n
    ensures i + d <= |us| && ParseItem(us, i + d).Yes? && ParseItem(us, i + d).next == ParseItem(ts, i).next + d
    ensures ItemMoved(ParseItem(ts, i).value, ParseItem(us, i + d).value, d)
  {
    hide LiteralAt, SurfaceName, ParseStmt;
    assert Peek(us, i + d) == Peek(ts, i);
    assert Peek(us, i + 1 + d) == Peek(ts, i + 1);
    StartsConstSame(ts, us, i, n, d);
    if !IsDirective(Peek(ts, i)) && !StartsConst(ts, i) {
      StmtSame(ts, us, i, n, d);
    }
  }

  /** One turn of the top-level loop. */
  lemma {:induction false} ItemsStep(ts: Toks, i: nat)
    requires i <= |ts|
    ensures var k := SkipNewlines(ts, i);
            ParseItems'(ts, i) ==
            if AtEnd(ts, k) then Some([])
            else if ParseItem(ts, k).No? then None
            else var rest := ParseItems'(ts, ParseItem(ts, k).next);
                 if rest.None? then None else Some([ParseItem(ts, k).value] + rest.value)
  {
    hide SkipNewlines, ParseItem;
  }

  /** The rest of a program is the same after any edit before it. */
  lemma {:induction false} SuffixSame(ts: Toks, us: Toks, i: nat, d: int)
    requires i <= |ts| && Same(ts, us, i, |ts| + 1, d) && |us| == |ts| + d
    requires ParseItems'(ts, i).Some?
    ensures i + d <= |us| && ParseItems'(us, i + d).Some?
    ensures ItemsMoved(ParseItems'(ts, i).value, ParseItems'(us, i + d).value, d)
    decreases |ts| - i
  {
    hide SkipNewlines, ParseItem;
    var k := SkipNewlines(ts, i);
    SkipSame(ts, us, i, |ts| + 1, d);
    if !AtEnd(ts, k) {
      ItemSame(ts, us, k, |ts| + 1, d);
      SuffixSame(ts, us, ParseItem(ts, k).next, d);
    }
  }

  // ---------- one constant of the program ----------

  lemma {:induction false} ConstsFollow(ts: Toks, i: nat, m: nat)
    requires i <= |ts| && ParseItems'(ts, i).Some? && m < |ParseItems'(ts, i).value|
    requires ParseItems'(ts, i).value[m].Const?
    ensures i + 2 <= ParseItems'(ts, i).value[m].from < ParseItems'(ts, i).value[m].to <= |ts|
    decreases m
  {
    hide SkipNewlines, ParseItem;
    var k := SkipNewlines(ts, i);
    if m == 0 {
      ConstSpan(ts, k);
    } else {
      ConstsFollow(ts, ParseItem(ts, k).next, m - 1);
    }
  }

  lemma {:induction false} ConstSpan(ts: Toks, i: nat)
    requires i <= |ts| && !AtEnd(ts, i) && ParseItem(ts, i).Yes? && ParseItem(ts, i).value.Const?
    ensures StartsConst(ts, i) && NamesConst(ts, i)
    ensures var it := ParseItem(ts, i).value;
            it.from == i + 2 && LiteralAt(ts, it.from) == LYes(it.value, it.to)
            && it.to == ParseItem(ts, i).next && it.name == ts[i].s && Peek(ts, it.to) == TNewline
  {
    hide LiteralAt, SurfaceName, ParseStmt;
  }

  /** What stands where a constant was read: `NAME = literal` and the end of the line. */
  lemma {:induction false} ConstFacts(ts: Toks, i: nat, m: nat)
    requires i <= |ts| && ParseItems'(ts, i).Some? && m < |ParseItems'(ts, i).value|
    requires ParseItems'(ts, i).value[m].Const?
    ensures var c := ParseItems'(ts, i).value[m];
            && 2 <= c.from < c.to <= |ts| && ts[c.from - 1] == TEq && ts[c.from] != TNewline
            && LiteralAt(ts, c.from) == LYes(c.value, c.to) && ts[c.to - 1] != TNewline && Peek(ts, c.to) == TNewline
    decreases m
  {
    hide SkipNewlines, ParseItem, LiteralAt, ParseItems';
    ItemsStep(ts, i);
    var k := SkipNewlines(ts, i);
    if m == 0 {
      ConstSpan(ts, k);
      LiteralEnds(ts, k + 2);
    } else {
      ConstFacts(ts, ParseItem(ts, k).next, m - 1);
    }
  }

  /** A literal neither starts nor ends with a newline. */
  lemma {:induction false} LiteralEnds(ts: Toks, i: nat)
    requires i <= |ts| && LiteralAt(ts, i).LYes?
    ensures i < |ts| && ts[i] != TNewline && ts[LiteralAt(ts, i).next - 1] != TNewline
  {
    hide LiteralItems, LiteralFields, SkipNewlines, MapOf;
    match ts[i]
    case TLBrack => ItemsEnd(ts, SkipNewlines(ts, i + 1));
    case TLBrace => FieldsEnd(ts, SkipNewlines(ts, i + 1));
    case _ =>
  }

  lemma {:induction false} ItemsEnd(ts: Toks, i: nat)
    requires i <= |ts| && LiteralItems(ts, i).LYes?
    ensures ts[LiteralItems(ts, i).next - 1] == TRBrack
    decreases |ts| - i
  {
    hide LiteralAt, AfterItem;
    if Peek(ts, i) != TRBrack { ItemsEnd(ts, AfterItem(ts, LiteralAt(ts, i).next)); }
  }

  lemma {:induction false} FieldsEnd(ts: Toks, i: nat)
    requires i <= |ts| && LiteralFields(ts, i).LYes?
    ensures ts[LiteralFields(ts, i).next - 1] == TRBrace
    decreases |ts| - i
  {
    hide LiteralAt, AfterItem, WordOf;
    if Peek(ts, i) != TRBrace { FieldsEnd(ts, AfterItem(ts, LiteralAt(ts, i + 2).next)); }
  }

  /** Tokens put between `p` and `q` leave the ones around them as they were. */
  lemma {:induction false} SpliceSame(ts: Toks, p: nat, q: nat, ms: Toks, us: Toks, d: int)
    requires p <= q <= |ts| && us == ts[..p] + ms + ts[q..] && d == |ms| - (q - p)
    ensures |us| == |ts| + d && us[p..p + |ms|] == ms
    ensures Same(ts, us, 0, p, 0) && Same(ts, us, q, |ts| + 1, d)
  {
    forall k: nat | q <= k < |ts| + 1 ensures Peek(us, k + d) == Peek(ts, k) {
      if k < |ts| { assert us[k + d] == ts[q..][k - q]; }
    }
  }

  /** The tokens of constant `m` of a program were replaced, and it now reads as `v`. */
  ghost predicate ReplacedConst(a: seq<Item>, b: seq<Item>, m: nat, v: Value, d: int) {
    && m < |a| == |b| && a[m].Const?
    && b[..m] == a[..m]
    && a[m].to + d >= 0 && b[m] == Const(a[m].name, v, a[m].from, a[m].to + d)
    && ItemsMoved(a[m + 1..], b[m + 1..], d)
  }

  /**
   * One surface constant's tokens are exchanged for others that read as a literal: the lines
   * before it and after it parse to what they were.
   */
  lemma {:induction false} SpliceConst(ts: Toks, us: Toks, i: nat, m: nat, v: Value, d: int)
    requires i <= |ts| && ParseItems'(ts, i).Some? && m < |ParseItems'(ts, i).value|
    requires ParseItems'(ts, i).value[m].Const?
    requires var c := ParseItems'(ts, i).value[m];
             && Same(ts, us, i, c.from, 0)
             && 0 <= c.to + d && c.from <= |us| && LiteralAt(us, c.from) == LYes(v, c.to + d)
             && Same(ts, us, c.to, |ts| + 1, d) && |us| == |ts| + d
    ensures i <= |us| && ParseItems'(us, i).Some?
    ensures ReplacedConst(ParseItems'(ts, i).value, ParseItems'(us, i).value, m, v, d)
    decreases m
  {
    hide SkipNewlines, ParseItem, LiteralAt, ParseItems';
    ItemsStep(ts, i);
    var k := SkipNewlines(ts, i);
    var items := ParseItems'(ts, i).value;
    var c := items[m];
    var j := ParseItem(ts, k).next;
    ConstsFollow(ts, i, m);
    if m == 0 {
      ConstSpan(ts, k);
    } else {
      ConstsFollow(ts, j, m - 1);
    }
    SkipSame(ts, us, i, c.from, 0);
    ItemsStep(us, i);
    if m == 0 {
      EditedConst(ts, us, k, v, d);
      SuffixSame(ts, us, j, d);
      assert ParseItems'(us, i).value[1..] == ParseItems'(us, j + d).value;
      assert items[1..] == ParseItems'(ts, j).value;
    } else {
      ItemSame(ts, us, k, c.from, 0);
      ItemMovedNowhere(items[0], ParseItem(us, k).value);
      SpliceConst(ts, us, j, m - 1, v, d);
      var rest, rest' := ParseItems'(ts, j).value, ParseItems'(us, j).value;
      assert items == [items[0]] + rest && ParseItems'(us, i).value == [items[0]] + rest';
      assert items[m + 1..] == rest[m..];
      assert ParseItems'(us, i).value[m + 1..] == rest'[m..];
    }
  }

  lemma {:induction false} ItemMovedNowhere(a: Item, b: Item)
    requires ItemMoved(a, b, 0)
    ensures b == a
  {
  }

  lemma {:induction false} EditedConst(ts: Toks, us: Toks, i: nat, v: Value, d: int)
    requires i <= |ts| && !AtEnd(ts, i) && ParseItem(ts, i).Yes? && ParseItem(ts, i).value.Const?
    requires var c := ParseItem(ts, i).value;
             && Same(ts, us, i, c.from, 0)
             && 0 <= c.to + d && c.from <= |us| && LiteralAt(us, c.from) == LYes(v, c.to + d)
             && Same(ts, us, c.to, |ts| + 1, d) && |us| == |ts| + d
    ensures var c := ParseItem(ts, i).value;
            i <= |us| && ParseItem(us, i) == Yes(Const(c.name, v, c.from, c.to + d), c.to + d)
  {
    hide LiteralAt, SurfaceName, ParseStmt, ParseItem, Same;
    ConstSpan(ts, i);
    var c := ParseItem(ts, i).value;
    SamePeek(ts, us, i, c.from, 0, i);
    SamePeek(ts, us, i, c.from, 0, i + 1);
    SamePeek(ts, us, c.to, |ts| + 1, d, c.to);
    ConstReads(us, i);
  }

  lemma {:induction false} ConstReads(ts: Toks, i: nat)
    requires i <= |ts| && StartsConst(ts, i)
    ensures i + 2 <= |ts| && LiteralAt(ts, i + 2).LYes?
    ensures ParseItem(ts, i) == Yes(Const(ts[i].s, LiteralAt(ts, i + 2).value, i + 2, LiteralAt(ts, i + 2).next), LiteralAt(ts, i + 2).next)
  {
    hide LiteralAt, SurfaceName, ParseStmt;
  }

  // ---------- one entry of a document ----------

  /** Entry `m` was replaced by one of the same key with the value `v`. */
  ghost predicate ReplacedField(fs: seq<LField>, gs: seq<LField>, m: nat, v: Value, d: int) {
    && m < |fs| == |gs|
    && gs[..m] == fs[..m]
    && fs[m].to + d >= 0 && gs[m] == LField(fs[m].key, v, fs[m].from, fs[m].to + d)
    && FieldsMoved(fs[m + 1..], gs[m + 1..], d)
  }

  lemma {:induction false} FieldsFollow(ts: Toks, i: nat, m: nat)
    requires i <= |ts| && LiteralFields(ts, i).LYes? && m < |LiteralFields(ts, i).value|
    ensures var f := LiteralFields(ts, i).value[m];
            && i + 2 <= f.from < f.to < LiteralFields(ts, i).next && Peek(ts, f.from - 1) == TColon
            && LiteralAt(ts, f.from) == LYes(f.value, f.to)
            && f.to <= AfterItem(ts, f.to) < LiteralFields(ts, i).next
            && (Peek(ts, AfterItem(ts, f.to)) == TRBrace || WordOf(Peek(ts, AfterItem(ts, f.to))).Some?)
    decreases m
  {
    hide LiteralAt, AfterItem, WordOf;
    var k := AfterItem(ts, LiteralAt(ts, i + 2).next);
    if m > 0 { FieldsFollow(ts, k, m - 1); }
  }

  lemma {:induction false} FieldsShape(ts: Toks, i: nat)
    requires i <= |ts| && LiteralFields(ts, i).LYes? && LiteralFields(ts, i).value != []
    ensures i + 2 <= |ts| && EntryHead(ts, i)
  {
    hide LiteralAt, AfterItem, WordOf;
  }

  ghost predicate SplicedAt(ts: Toks, us: Toks, i: nat, f: LField, v: Value, d: int) {
    && Same(ts, us, i, f.from, 0)
    && 0 <= f.to + d && f.from <= |us| && LiteralAt(us, f.from) == LYes(v, f.to + d)
    && Same(ts, us, f.to, |ts| + 1, d) && |us| == |ts| + d
  }

  /** The first entry of a document, and the rest of it. */
  lemma {:induction false} FirstEntry(ts: Toks, i: nat)
    requires i <= |ts| && LiteralFields(ts, i).LYes? && LiteralFields(ts, i).value != []
    ensures i + 2 <= |ts| && EntryHead(ts, i)
    ensures var fs := LiteralFields(ts, i).value;
            && fs[0] == LField(WordOf(Peek(ts, i)).value, LiteralAt(ts, i + 2).value, i + 2, LiteralAt(ts, i + 2).next)
            && fs[0].to <= |ts| && LiteralFields(ts, AfterItem(ts, fs[0].to)) == LYes(fs[1..], LiteralFields(ts, i).next)
            && fs == [fs[0]] + fs[1..]
  {
    FieldsShape(ts, i);
    hide LiteralAt, AfterItem, WordOf, LiteralFields, Peek;
    FieldsStep(ts, i);
    var fs := LiteralFields(ts, i).value;
    assert fs[1..] == LiteralFields(ts, AfterItem(ts, LiteralAt(ts, i + 2).next)).value;
  }

  lemma {:induction false} SpliceFirst(ts: Toks, us: Toks, i: nat, v: Value, d: int)
    requires i <= |ts| && LiteralFields(ts, i).LYes? && LiteralFields(ts, i).value != []
    requires SplicedAt(ts, us, i, LiteralFields(ts, i).value[0], v, d)
    ensures i <= |us| && LiteralFields(us, i).LYes? && LiteralFields(us, i).next == LiteralFields(ts, i).next + d
    ensures ReplacedField(LiteralFields(ts, i).value, LiteralFields(us, i).value, 0, v, d)
  {
    hide LiteralAt, AfterItem, WordOf, LiteralFields, FieldsMoved, Peek, Same, ReplacedField;
    var fs := LiteralFields(ts, i).value;
    var f := fs[0];
    FirstEntry(ts, i);
    LiteralAdvances(ts, i + 2);
    SamePeek(ts, us, i, f.from, 0, i);
    SamePeek(ts, us, i, f.from, 0, i + 1);
    RestMoved(ts, us, f.to, d);
    FieldsStep(us, i);
    ReplacedFirst(f, v, fs[1..], LiteralFields(us, AfterItem(us, f.to + d)).value, d);
  }

  lemma {:induction false} LiteralAdvances(ts: Toks, i: nat)
    requires i <= |ts| && LiteralAt(ts, i).LYes?
    ensures i < LiteralAt(ts, i).next <= |ts|
  {
    hide LiteralAt;
  }

  lemma {:induction false} RestMoved(ts: Toks, us: Toks, q: nat, d: int)
    requires q <= |ts| && Same(ts, us, q, |ts| + 1, d) && |us| == |ts| + d
    ensures 0 <= q + d <= |us| && AfterItem(us, q + d) == AfterItem(ts, q) + d
    ensures LFieldsMoved(LiteralFields(ts, AfterItem(ts, q)), LiteralFields(us, AfterItem(us, q + d)), d)
  {
    hide LiteralAt, AfterItem, LiteralFields, Same;
    SamePeek(ts, us, q, |ts| + 1, d, q);
    AfterItemSame(ts, us, q, |ts| + 1, d);
    SameFrom(ts, us, q, AfterItem(ts, q), |ts| + 1, d);
    LiteralFieldsSame(ts, us, AfterItem(ts, q), |ts| + 1, d);
  }

  lemma {:induction false} ReplacedFirst(f: LField, v: Value, fs: seq<LField>, gs: seq<LField>, d: int)
    requires FieldsMoved(fs, gs, d) && f.to + d >= 0
    ensures ReplacedField([f] + fs, [LField(f.key, v, f.from, f.to + d)] + gs, 0, v, d)
  {
    assert ([f] + fs)[1..] == fs;
    assert ([LField(f.key, v, f.from, f.to + d)] + gs)[1..] == gs;
  }

  /** One entry's value is exchanged: the other entries keep their keys and values. */
  lemma {:induction false} SpliceField(ts: Toks, us: Toks, i: nat, m: nat, v: Value, d: int)
    requires i <= |ts| && LiteralFields(ts, i).LYes? && m < |LiteralFields(ts, i).value|
    requires SplicedAt(ts, us, i, LiteralFields(ts, i).value[m], v, d)
    ensures i <= |us| && LiteralFields(us, i).LYes? && LiteralFields(us, i).next == LiteralFields(ts, i).next + d
    ensures ReplacedField(LiteralFields(ts, i).value, LiteralFields(us, i).value, m, v, d)
    decreases m
  {
    hide LiteralAt, AfterItem, WordOf, LiteralFields;
    if m == 0 {
      SpliceFirst(ts, us, i, v, d);
    } else {
      var fs := LiteralFields(ts, i).value;
      FieldsFollow(ts, i, m);
      FieldsShape(ts, i);
      FieldsStep(ts, i);
      var j := LiteralAt(ts, i + 2).next;
      var k := AfterItem(ts, j);
      FieldsFollow(ts, k, m - 1);
      FieldUnchanged(ts, us, i, fs[m].from);
      SpliceField(ts, us, k, m - 1, v, d);
      FieldsStep(us, i);
      var rest, rest' := LiteralFields(ts, k).value, LiteralFields(us, k).value;
      assert fs == [fs[0]] + rest && LiteralFields(us, i).value == [fs[0]] + rest';
      assert fs[m + 1..] == rest[m..];
      assert LiteralFields(us, i).value[m + 1..] == rest'[m..];
    }
  }

  /** An entry that ends before the edit, with what follows it, reads as it did. */
  lemma {:induction false} FieldUnchanged(ts: Toks, us: Toks, i: nat, n: nat)
    requires i <= |ts| && Same(ts, us, i, n, 0)
    requires EntryHead(ts, i)
    requires AfterItem(ts, LiteralAt(ts, i + 2).next) < n
    ensures i + 2 <= |us| && Peek(us, i) == Peek(ts, i) && Peek(us, i + 1) == TColon
    ensures LiteralAt(us, i + 2) == LiteralAt(ts, i + 2)
    ensures LiteralAt(ts, i + 2).next <= |us|
    ensures AfterItem(us, LiteralAt(ts, i + 2).next) == AfterItem(ts, LiteralAt(ts, i + 2).next)
  {
    hide LiteralAt, AfterItem, WordOf;
    assert Peek(us, i + 0) == Peek(ts, i);
    assert Peek(us, i + 1 + 0) == Peek(ts, i + 1);
    LiteralSame(ts, us, i + 2, n, 0);
    AfterItemSame(ts, us, LiteralAt(ts, i + 2).next, n, 0);
  }

  // ---------- a new entry of a document ----------

  lemma {:induction false} SkipsNewlinesOnly(ts: Toks, i: nat)
    requires i <= |ts|
    ensures forall k :: i <= k < SkipNewlines(ts, i) ==> ts[k] == TNewline
    ensures SkipNewlines(ts, i) < |ts| ==> ts[SkipNewlines(ts, i)] != TNewline
    decreases |ts| - i
  {
    if i < |ts| && ts[i] == TNewline { SkipsNewlinesOnly(ts, i + 1); }
  }

  lemma {:induction false} SkipTo(ts: Toks, i: nat, j: nat)
    requires i <= j <= |ts| && (forall k :: i <= k < j ==> ts[k] == TNewline)
    requires j < |ts| ==> ts[j] != TNewline
    ensures SkipNewlines(ts, i) == j
    decreases j - i
  {
    if i < j { SkipTo(ts, i + 1, j); }
  }

  /** The token before the newlines that end at `k`. */
  function LastBefore(ts: Toks, k: nat): (t: Tok) {
    if k == 0 then TNewline else if Peek(ts, k - 1) == TNewline then LastBefore(ts, k - 1) else Peek(ts, k - 1)
  }

  lemma {:induction false} LastBeforeIs(ts: Toks, i: nat, k: nat)
    requires 0 < i <= k <= |ts| && ts[i - 1] != TNewline && (forall p :: i <= p < k ==> ts[p] == TNewline)
    ensures LastBefore(ts, k) == ts[i - 1]
    decreases k
  {
    if i < k { LastBeforeIs(ts, i, k - 1); }
  }

  /** With no trailing comma, a comma put before the closing bracket follows the last element. */
  lemma {:induction false} CommaAfterLast(ts: Toks, us: Toks, j: nat, c: nat)
    requires j <= c < |ts| && c + 1 < |us| && AfterItem(ts, j) == c && LastBefore(ts, c) != TComma
    requires Same(ts, us, j, c, 0) && us[c] == TComma && us[c + 1] != TNewline
    ensures AfterItem(us, j) == c + 1
  {
    var s := SkipNewlines(ts, j);
    SkipsNewlinesOnly(ts, j);
    if Peek(ts, s) == TComma {
      SkipsNewlinesOnly(ts, s + 1);
      LastBeforeIs(ts, s + 1, c);
    }
    forall k | j <= k < c ensures us[k] == TNewline {
      assert Peek(us, k + 0) == Peek(ts, k);
    }
    SkipTo(us, j, c);
    SkipTo(us, c + 1, c + 1);
  }

  /** At `p` stands the last entry, of the key `key` and the value `v`. */
  ghost predicate LastEntry(us: Toks, p: nat, key: string, v: Value, q: nat) {
    && p + 2 <= |us| && Peek(us, p) == TStr(key) && Peek(us, p + 1) == TColon
    && LiteralAt(us, p + 2) == LYes(v, q) && Peek(us, q) == TRBrace
  }

  lemma {:induction false} LastEntryReads(us: Toks, p: nat, key: string, v: Value, q: nat)
    requires LastEntry(us, p, key, v, q)
    ensures LiteralFields(us, p) == LYes([LField(key, v, p + 2, q)], q + 1)
  {
    hide LiteralAt;
    SkipTo(us, q, q);
    assert AfterItem(us, q) == q;
    assert LiteralFields(us, q) == LYes([], q + 1);
    FieldsStep(us, p);
    assert [LField(key, v, p + 2, q)] + [] == [LField(key, v, p + 2, q)];
  }

  /** Where the new entry's key stands, for the closing brace at `c`: a comma is put before it unless it is the first. */
  function KeyAt(fs: seq<LField>, c: nat): (p: nat) { if fs == [] then c else c + 1 }

  /** An entry put before the closing brace is read after the ones there are. */
  lemma {:induction false} SpliceNewField(ts: Toks, us: Toks, i: nat, key: string, v: Value, q: nat)
    requires i <= |ts| && LiteralFields(ts, i).LYes?
    requires var c := LiteralFields(ts, i).next - 1;
             && Same(ts, us, i, c, 0)
             && LastEntry(us, KeyAt(LiteralFields(ts, i).value, c), key, v, q)
             && (LiteralFields(ts, i).value != [] ==> Peek(us, c) == TComma && LastBefore(ts, c) != TComma)
    ensures i <= |us| && LiteralFields(us, i) ==
            LYes(LiteralFields(ts, i).value + [LField(key, v, KeyAt(LiteralFields(ts, i).value, LiteralFields(ts, i).next - 1) + 2, q)], q + 1)
    decreases |LiteralFields(ts, i).value|
  {
    hide LiteralAt, AfterItem, WordOf, LiteralFields, LastBefore, Same, Peek;
    var fs := LiteralFields(ts, i).value;
    var c := LiteralFields(ts, i).next - 1;
    if fs == [] {
      NoFields(ts, i);
      LastEntryReads(us, i, key, v, q);
      assert fs + [LField(key, v, i + 2, q)] == [LField(key, v, i + 2, q)];
    } else {
      FirstEntry(ts, i);
      var k := AfterItem(ts, fs[0].to);
      if fs[1..] == [] {
        AfterOnly(ts, us, i, key, v, q);
      } else {
        FieldsFollow(ts, k, 0);
        FieldUnchanged(ts, us, i, c);
        SameFrom(ts, us, i, k, c, 0);
        SpliceNewField(ts, us, k, key, v, q);
        FieldsStep(us, i);
        var last := LField(key, v, c + 3, q);
        assert [fs[0]] + (fs[1..] + [last]) == fs + [last];
      }
    }
  }

  lemma {:induction false} AfterOnly(ts: Toks, us: Toks, i: nat, key: string, v: Value, q: nat)
    requires i <= |ts| && LiteralFields(ts, i).LYes? && |LiteralFields(ts, i).value| == 1
    requires var c := LiteralFields(ts, i).next - 1;
             && Same(ts, us, i, c, 0) && LastEntry(us, c + 1, key, v, q) && Peek(us, c) == TComma && LastBefore(ts, c) != TComma
    ensures i <= |us| && LiteralFields(us, i) ==
            LYes(LiteralFields(ts, i).value + [LField(key, v, LiteralFields(ts, i).next + 2, q)], q + 1)
  {
    hide LiteralAt, AfterItem, WordOf, LiteralFields, LastBefore, Same, Peek, LastEntry;
    var fs := LiteralFields(ts, i).value;
    var c := LiteralFields(ts, i).next - 1;
    OneBefore(us, c, key, v, q);
    FirstEntry(ts, i);
    var j := fs[0].to;
    NoFields(ts, AfterItem(ts, j));
    EntryBeforeLast(ts, us, i, c);
    SameFrom(ts, us, i, j, c, 0);
    CommaAfterLast(ts, us, j, c);
    LastEntryReads(us, c + 1, key, v, q);
    FieldsStep(us, i);
    var last := LField(key, v, c + 3, q);
    assert fs == [fs[0]] && [fs[0]] + [last] == fs + [last];
  }

  lemma {:induction false} OneBefore(us: Toks, c: nat, key: string, v: Value, q: nat)
    requires LastEntry(us, c + 1, key, v, q) && Peek(us, c) == TComma
    ensures c + 1 < |us| && us[c] == TComma && us[c + 1] != TNewline
  {
    hide LiteralAt;
  }


  lemma {:induction false} NoFields(ts: Toks, i: nat)
    requires i <= |ts| && LiteralFields(ts, i).LYes? && LiteralFields(ts, i).value == []
    ensures Peek(ts, i) == TRBrace && LiteralFields(ts, i).next == i + 1
  {
    hide LiteralAt, AfterItem, WordOf;
  }

  lemma {:induction false} EntryBeforeLast(ts: Toks, us: Toks, i: nat, c: nat)
    requires i <= |ts| && c < |ts| && Same(ts, us, i, c, 0) && c < |us|
    requires EntryHead(ts, i)
    requires LiteralAt(ts, i + 2).next <= c
    ensures Peek(us, i) == Peek(ts, i) && Peek(us, i + 1) == TColon && LiteralAt(us, i + 2) == LiteralAt(ts, i + 2)
  {
    hide LiteralAt, AfterItem, WordOf;
    assert Peek(us, i + 0) == Peek(ts, i);
    assert Peek(us, i + 1 + 0) == Peek(ts, i + 1);
    LiteralSame(ts, us, i + 2, c, 0);
  }

  // ---------- what a document reads as after an edit ----------

  /** No later entry has the key of entry `m`: what a reader gets for it is this one. */
  ghost predicate Governs(fs: seq<LField>, m: nat) {
    m < |fs| && forall k :: m < k < |fs| ==> fs[k].key != fs[m].key
  }

  lemma {:induction false} MapOfKeys(fs: seq<LField>, key: string)
    ensures key in MapOf(fs) <==> exists k :: 0 <= k < |fs| && fs[k].key == key
  {
    if fs != [] {
      MapOfKeys(fs[1..], key);
      assert forall k :: 1 <= k < |fs| ==> fs[k] == fs[1..][k - 1];
    }
  }

  /** Replacing an entry's value replaces it in the document exactly when no later entry has its key. */
  lemma {:induction false} MapOfReplaced(fs: seq<LField>, gs: seq<LField>, m: nat, v: Value, d: int)
    requires ReplacedField(fs, gs, m, v, d)
    ensures MapOf(gs) == if Governs(fs, m) then MapOf(fs)[fs[m].key := v] else MapOf(fs)
    decreases m
  {
    hide Governs, FieldsMoved, MapOf;
    MapOfFirst(fs);
    MapOfFirst(gs);
    if m == 0 {
      MapOfMoved(fs[1..], gs[1..], d);
      GovernsFirst(fs);
    } else {
      ReplacedTail(fs, gs, m, v, d);
      MapOfReplaced(fs[1..], gs[1..], m - 1, v, d);
      GovernsTail(fs, m, v);
    }
  }

  lemma {:induction false} MapOfFirst(fs: seq<LField>)
    requires fs != []
    ensures MapOf(fs) == map[fs[0].key := fs[0].value] + MapOf(fs[1..])
  {
  }

  lemma {:induction false} ReplacedTail(fs: seq<LField>, gs: seq<LField>, m: nat, v: Value, d: int)
    requires ReplacedField(fs, gs, m, v, d) && m > 0
    ensures gs[0] == fs[0] && ReplacedField(fs[1..], gs[1..], m - 1, v, d)
  {
    hide FieldsMoved;
    assert fs[1..][m..] == fs[m + 1..] && gs[1..][m..] == gs[m + 1..];
    assert gs[0] == gs[..m][0] && fs[..m][0] == fs[0];
    assert gs[1..][..m - 1] == gs[..m][1..] && fs[1..][..m - 1] == fs[..m][1..];
    assert fs[1..][m - 1] == fs[m] && gs[1..][m - 1] == gs[m];
  }

  lemma {:induction false} GovernsFirst(fs: seq<LField>)
    requires fs != []
    ensures Governs(fs, 0) <==> fs[0].key !in MapOf(fs[1..])
  {
    MapOfKeys(fs[1..], fs[0].key);
    assert forall k :: 1 <= k < |fs| ==> fs[k] == fs[1..][k - 1];
  }

  lemma {:induction false} GovernsTail(fs: seq<LField>, m: nat, v: Value)
    requires 0 < m < |fs|
    ensures Governs(fs, m) <==> Governs(fs[1..], m - 1)
    ensures map[fs[0].key := fs[0].value] + MapOf(fs[1..])[fs[m].key := v] == MapOf(fs)[fs[m].key := v]
  {
    hide MapOf;
    MapOfFirst(fs);
    var gs := fs[1..];
    assert forall k :: 1 <= k < |fs| ==> fs[k] == gs[k - 1];
    assert Governs(gs, m - 1) ==> Governs(fs, m);
    if Governs(fs, m) {
      forall k | m - 1 < k < |gs| ensures gs[k].key != gs[m - 1].key { assert gs[k] == fs[k + 1]; }
    }
  }
}
