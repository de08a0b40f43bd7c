// What a package exports (core/src/vjs.rs), read off the manifest as an operator reads its settings.

module VjsExports {
  import opened Wrappers
  import opened VjsSyntax
  import opened VjsParser
  import opened VjsProgram
  import opened VjsLexer
  import opened VjsEdit
  import P = VjsPure
  import L = VjsStmtLaws

  lemma {:induction false} SurfaceListed(items: seq<Item>, s: string)
    ensures L.Listed(SurfaceOf(items), s) <==>
            var m := FindConst(items, "EXPORTS");
            m < |items| && items[m].value.Arr? && Str(s) in items[m].value.items
    decreases |items|
  {
    hide L.Listed;
    if items == [] {
      L.NothingListed(s);
    } else {
      var rest := SurfaceOf(items[1..]);
      if items[0].Const? {
        var e := SurfaceEntry(items[0].name, items[0].value);
        assert SurfaceOf(items) == [e] + rest && ([e] + rest)[1..] == rest;
        L.ListedStep([e] + rest, s);
      } else {
        assert SurfaceOf(items) == rest;
      }
      if !(items[0].Const? && items[0].name == "EXPORTS") { SurfaceListed(items[1..], s); }
    }
  }

  /**
   * A service can be called from another package exactly when reading the literal EXPORTS of the package's
   * manifest gives a list that holds its name.
   */
  lemma {:induction false} ExportsAreTheLiteral(w: World, pkg: string, svc: string)
    requires w.parse == Parse && pkg in w.manifests
    ensures var exports := P.ExportsOf(w, pkg);
            var read := GetLiteral(w.manifests[pkg], "EXPORTS", "-");
            (exports.Ok? && svc in exports.value) <==> (read.Some? && read.value.Arr? && Str(svc) in read.value.items)
  {
    hide LexFrom, ParseItems', StmtsOf, SurfaceOf, FindConst, P.ExportList, L.Listed;
    var src := w.manifests[pkg];
    assert w.parse(src) == Parse(src);
    if ReadSource(src).Some? {
      var items := ReadSource(src).value.items;
      assert Parse(src) == Ok(Program(StmtsOf(items), SurfaceOf(items)));
      SurfaceListed(items, svc);
      L.ExportListIs(SurfaceOf(items), svc);
    } else {
      assert Parse(src).Err?;
    }
  }
}
