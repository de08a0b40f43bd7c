// Governed change: version overlays forked from a git baseline (core/src/versions.rs) and the
// proposal queue pinned to a baseline hash (core/src/proposals.rs, core/src/main.rs). Several
// instances, each with its own files, share the two buckets. Each operation is atomic and its
// writes succeed.

module Governed {
  import opened Wrappers

  datatype Status = Pending | Approved | Rejected | Expired

  /** A proposed change; a field the payload lacks is None. */
  datatype Change =
    | SetLiteral(name: Option<string>, key: string, value: string)
    | Version(candidate: Option<string>)

  datatype Proposal = Proposal(unit: string, change: Change, baseline: string, status: Status)

  datatype Overlay = Overlay(source: string, parent: string)

  /** `files[(i, u)]` is instance `i`'s own file of unit `u`; `clustered` are the instances that run in a cluster. */
  datatype World = World(
    clustered: set<nat>,
    files: map<(nat, string), string>,
    versions: map<string, Overlay>,
    proposals: map<nat, Proposal>,
    nextId: nat)

  /** The content hash, the literal editor and the parser. */
  datatype Tools = Tools(
    hash: string -> string,
    setLiteral: (string, string, string, string) -> Option<string>,
    parses: string -> bool)

  // ---------- overlays ----------

  predicate Alphanumeric(c: char) { 'a' <= c <= 'z' || 'A' <= c <= 'Z' || '0' <= c <= '9' }

  predicate TokenChar(c: char) { Alphanumeric(c) || c == '_' }

  /** A unit's key in the version bucket. */
  function KeyOf(u: string): (k: string) {
    seq(|u|, i requires 0 <= i < |u| => if TokenChar(u[i]) then u[i] else '_')
  }

  /** There is an overlay, and it forked from exactly this instance's file. */
  predicate Valid(t: Tools, w: World, i: nat, u: string)
    requires (i, u) in w.files
  {
    KeyOf(u) in w.versions && w.versions[KeyOf(u)].parent == t.hash(w.files[(i, u)])
  }

  function Effective(t: Tools, w: World, i: nat, u: string): (s: string)
    requires (i, u) in w.files
  {
    if Valid(t, w, i, u) then w.versions[KeyOf(u)].source else w.files[(i, u)]
  }

  /** resolve_source: an overlay of another baseline is evicted. */
  function Resolved(t: Tools, w: World, i: nat, u: string): (r: World)
    requires (i, u) in w.files
  {
    if Valid(t, w, i, u) then w else w.(versions := w.versions - {KeyOf(u)})
  }

  function Forked(t: Tools, w: World, i: nat, u: string, source: string): (r: World)
    requires (i, u) in w.files
  {
    w.(versions := w.versions[KeyOf(u) := Overlay(source, t.hash(w.files[(i, u)]))])
  }

  // ---------- operations ----------

  function Edited(t: Tools, src: string, c: Change): (r: Option<string>)
    requires c.SetLiteral?
  {
    if c.name.None? then None else t.setLiteral(src, c.name.value, c.key, c.value)
  }

  /** promote_version: edit the effective source and fork it from the instance's file. */
  function Promoted(t: Tools, w: World, i: nat, u: string, c: Change): (r: Option<World>)
    requires (i, u) in w.files && c.SetLiteral?
  {
    match Edited(t, Effective(t, w, i, u), c)
    case None => None
    case Some(src) => Some(Forked(t, Resolved(t, w, i, u), i, u, src))
  }

  /** The edit of the instance's own file. */
  function Rewritten(t: Tools, w: World, i: nat, u: string, c: Change): (r: Option<World>)
    requires (i, u) in w.files && c.SetLiteral?
  {
    match Edited(t, w.files[(i, u)], c)
    case None => None
    case Some(src) => Some(w.(files := w.files[(i, u) := src]))
  }

  /** A literal set by a person or an agent: a version in a cluster, a local write otherwise; refused, it may still evict. */
  function Set(t: Tools, w: World, i: nat, u: string, c: Change): (r: World)
    requires (i, u) in w.files && c.SetLiteral?
  {
    if i in w.clustered then
      (match Promoted(t, w, i, u, c) case Some(r) => r case None => Resolved(t, w, i, u))
    else (match Rewritten(t, w, i, u, c) case Some(r) => r case None => w)
  }

  /** apply_approved: None when the change cannot be made. */
  function Applied(t: Tools, w: World, i: nat, u: string, c: Change): (r: Option<World>)
    requires (i, u) in w.files
  {
    match c
    case SetLiteral(_, _, _) =>
      if i in w.clustered then Promoted(t, w, i, u, c) else Rewritten(t, w, i, u, c)
    case Version(candidate) =>
      if candidate.None? || !t.parses(candidate.value) then None
      else if i in w.clustered then Some(Forked(t, w, i, u, candidate.value))
      else Some(w.(files := w.files[(i, u) := candidate.value]))
  }

  function Marked(w: World, id: nat, st: Status): (r: World)
    requires id in w.proposals
  {
    w.(proposals := w.proposals[id := w.proposals[id].(status := st)])
  }

  function Submitted(t: Tools, w: World, i: nat, u: string, c: Change): (r: World) {
    if (i, u) !in w.files then w
    else
      var w1 := Resolved(t, w, i, u);
      var p := Proposal(u, c, t.hash(Effective(t, w, i, u)), Pending);
      w1.(proposals := w1.proposals[w1.nextId := p], nextId := w1.nextId + 1)
  }

  /** decide_proposal. */
  function Decided(t: Tools, w: World, i: nat, id: nat, approve: bool): (r: World) {
    if id !in w.proposals || !w.proposals[id].status.Pending? then w
    else
      var p := w.proposals[id];
      if !approve then Marked(w, id, Rejected)
      else if (i, p.unit) !in w.files then w
      else
        var w1 := Resolved(t, w, i, p.unit);
        if t.hash(Effective(t, w, i, p.unit)) != p.baseline then Marked(w1, id, Expired)
        else match Applied(t, w1, i, p.unit, p.change)
             case None => w1
             case Some(w2) => Marked(w2, id, Approved)
  }

  /** One proposal of a listing: expired if its baseline has moved. */
  function Reconciled(t: Tools, w: World, i: nat, id: nat): (r: World) {
    if id !in w.proposals || !w.proposals[id].status.Pending? then w
    else
      var p := w.proposals[id];
      if (i, p.unit) !in w.files then w
      else
        var w1 := Resolved(t, w, i, p.unit);
        var current := t.hash(Effective(t, w, i, p.unit));
        if current != "" && current != p.baseline then Marked(w1, id, Expired) else w1
  }

  function Listed(t: Tools, w: World, i: nat, ids: seq<nat>): (r: World)
    decreases |ids|
  {
    if ids == [] then w else Listed(t, Reconciled(t, w, i, ids[0]), i, ids[1..])
  }

  datatype Op =
    | Deploy(i: nat, u: string, content: Option<string>)
    | Resolve(i: nat, u: string)
    | Promote(i: nat, u: string, c: Change)
    | Submit(i: nat, u: string, c: Change)
    | Decide(i: nat, id: nat, approve: bool)
    | List(i: nat, ids: seq<nat>)
    | Restart(i: nat, clustered: bool)

  function Step(t: Tools, w: World, op: Op): (r: World) {
    match op
    case Deploy(i, u, content) =>
      if content.Some? then w.(files := w.files[(i, u) := content.value]) else w.(files := w.files - {(i, u)})
    case Resolve(i, u) => if (i, u) in w.files then Resolved(t, w, i, u) else w
    case Promote(i, u, c) =>
      if (i, u) !in w.files || !c.SetLiteral? then w else Set(t, w, i, u, c)
    case Submit(i, u, c) => Submitted(t, w, i, u, c)
    case Decide(i, id, approve) => Decided(t, w, i, id, approve)
    case List(i, ids) => Listed(t, w, i, ids)
    case Restart(i, clustered) => w.(clustered := if clustered then w.clustered + {i} else w.clustered - {i})
  }

  function Run(t: Tools, w: World, ops: seq<Op>): (r: World)
    decreases |ops|
  {
    if ops == [] then w else Run(t, Step(t, w, ops[0]), ops[1..])
  }

  // ---------- the runtime itself ----------

  class Store {
    var clustered: set<nat>
    var files: map<(nat, string), string>
    var versions: map<string, Overlay>
    var proposals: map<nat, Proposal>
    var nextId: nat
    const tools: Tools

    function View(): (w: World)
      reads this
    {
      World(clustered, files, versions, proposals, nextId)
    }

    constructor (tools: Tools, clustered: set<nat>)
      ensures this.tools == tools && View() == World(clustered, map[], map[], map[], 1)
    {
      this.tools, this.clustered := tools, clustered;
      files, versions, proposals, nextId := map[], map[], map[], 1;
    }

    /** The source is the overlay's exactly when it forked from this file; otherwise it is evicted. */
    method ResolveSource(i: nat, u: string) returns (src: string, overlaid: bool)
      requires (i, u) in files
      modifies this`versions
      ensures View() == Resolved(tools, old(View()), i, u)
      ensures src == Effective(tools, old(View()), i, u) && overlaid == Valid(tools, old(View()), i, u)
    {
      var baseline := files[(i, u)];
      if KeyOf(u) !in versions {
        assert versions - {KeyOf(u)} == versions;
        return baseline, false;
      }
      var ov := versions[KeyOf(u)];
      if ov.parent == tools.hash(baseline) {
        return ov.source, true;
      }
      versions := versions - {KeyOf(u)};
      return baseline, false;
    }

    method PutVersion(u: string, source: string, parent: string)
      modifies this`versions
      ensures versions == old(versions)[KeyOf(u) := Overlay(source, parent)]
    {
      versions := versions[KeyOf(u) := Overlay(source, parent)];
    }

    method PromoteVersion(i: nat, u: string, c: Change) returns (ok: bool)
      requires (i, u) in files && c.SetLiteral?
      modifies this`versions
      ensures View() == match Promoted(tools, old(View()), i, u, c)
                        case Some(w) => w case None => Resolved(tools, old(View()), i, u)
      ensures ok == Promoted(tools, old(View()), i, u, c).Some?
    {
      var current, _ := ResolveSource(i, u);
      var edited := Edited(tools, current, c);
      if edited.None? { return false; }
      PutVersion(u, edited.value, tools.hash(files[(i, u)]));
      return true;
    }

    /** Setting a literal from the panel or by an agent. */
    method SetSurface(i: nat, u: string, c: Change) returns (ok: bool)
      requires (i, u) in files && c.SetLiteral?
      modifies this`versions, this`files
      ensures View() == Set(tools, old(View()), i, u, c)
      ensures ok == if i in clustered then Promoted(tools, old(View()), i, u, c).Some? else Rewritten(tools, old(View()), i, u, c).Some?
    {
      if i in clustered {
        ok := PromoteVersion(i, u, c);
      } else {
        var edited := Edited(tools, files[(i, u)], c);
        if edited.None? { return false; }
        files := files[(i, u) := edited.value];
        return true;
      }
    }

    method SetStatus(id: nat, st: Status)
      requires id in proposals
      modifies this`proposals
      ensures View() == Marked(old(View()), id, st)
    {
      proposals := proposals[id := proposals[id].(status := st)];
    }

    method SubmitProposal(i: nat, u: string, c: Change) returns (id: Option<nat>)
      modifies this`versions, this`proposals, this`nextId
      ensures View() == Submitted(tools, old(View()), i, u, c)
      ensures id == if (i, u) in files then Some(old(nextId)) else None
    {
      if (i, u) !in files { return None; }
      var src, _ := ResolveSource(i, u);
      id := Some(nextId);
      proposals := proposals[nextId := Proposal(u, c, tools.hash(src), Pending)];
      nextId := nextId + 1;
    }

    method ApplyApproved(i: nat, u: string, c: Change) returns (ok: bool)
      requires (i, u) in files && (KeyOf(u) in versions ==> Valid(tools, View(), i, u))
      modifies this`files, this`versions
      ensures View() == match Applied(tools, old(View()), i, u, c) case Some(w) => w case None => old(View())
      ensures ok == Applied(tools, old(View()), i, u, c).Some?
    {
      match c
      case SetLiteral(_, _, _) =>
        if i in clustered {
          assert !Valid(tools, View(), i, u) ==> versions - {KeyOf(u)} == versions;
          ok := PromoteVersion(i, u, c);
        } else {
          var edited := Edited(tools, files[(i, u)], c);
          if edited.None? { return false; }
          files := files[(i, u) := edited.value];
          return true;
        }
      case Version(candidate) =>
        if candidate.None? || !tools.parses(candidate.value) { return false; }
        if i in clustered {
          PutVersion(u, candidate.value, tools.hash(files[(i, u)]));
        } else {
          files := files[(i, u) := candidate.value];
        }
        return true;
    }

    method DecideProposal(i: nat, id: nat, approve: bool)
      modifies this
      ensures View() == Decided(tools, old(View()), i, id, approve)
    {
      if id !in proposals || !proposals[id].status.Pending? { return; }
      var p := proposals[id];
      if !approve {
        SetStatus(id, Rejected);
        return;
      }
      if (i, p.unit) !in files { return; }
      var src, _ := ResolveSource(i, p.unit);
      if tools.hash(src) != p.baseline {
        SetStatus(id, Expired);
        return;
      }
      var ok := ApplyApproved(i, p.unit, p.change);
      if ok { SetStatus(id, Approved); }
    }

    /** `ids` are the keys of the queue, in the order the listing shows them. */
    method ReconcileAndList(i: nat, ids: seq<nat>)
      modifies this
      ensures View() == Listed(tools, old(View()), i, ids)
    {
      var k := 0;
      assert ids[0..] == ids;
      while k < |ids|
        invariant 0 <= k <= |ids| && Listed(tools, View(), i, ids[k..]) == Listed(tools, old(View()), i, ids)
      {
        var id := ids[k];
        assert ids[k..][0] == id && ids[k..][1..] == ids[k + 1..];
        k := k + 1;
        if id in proposals && proposals[id].status.Pending? && (i, proposals[id].unit) in files {
          var p := proposals[id];
          var src, _ := ResolveSource(i, p.unit);
          var current := tools.hash(src);
          if current != "" && current != p.baseline { SetStatus(id, Expired); }
        }
      }
    }
  }

  // ---------- overlays: exactly when ----------

  /**
   * An overlay is used exactly when its parent is the hash of the instance's own file; any other
   * is gone after the resolve. The effective source is the same before and after, the resolve is
   * final, and no other unit's overlay is touched.
   */
  lemma {:induction false} ResolveExact(t: Tools, w: World, i: nat, u: string)
    requires (i, u) in w.files
    ensures var r := Resolved(t, w, i, u);
            && Effective(t, r, i, u) == Effective(t, w, i, u)
            && (Valid(t, w, i, u) ==> r == w && Effective(t, w, i, u) == w.versions[KeyOf(u)].source)
            && (!Valid(t, w, i, u) ==> KeyOf(u) !in r.versions && Effective(t, w, i, u) == w.files[(i, u)])
            && Resolved(t, r, i, u) == r && r.files == w.files && r.proposals == w.proposals
            && (forall k :: k != KeyOf(u) ==> (k in r.versions <==> k in w.versions) && (k in w.versions ==> r.versions[k] == w.versions[k]))
  {
    var r := Resolved(t, w, i, u);
    if !Valid(t, w, i, u) { assert r.versions - {KeyOf(u)} == r.versions; }
  }

  /** A deploy wins over every overlay but one forked from the very content deployed. */
  lemma {:induction false} DeployWins(t: Tools, w: World, i: nat, u: string, content: string)
    ensures var r := Step(t, w, Deploy(i, u, Some(content)));
            && (Valid(t, r, i, u) <==> KeyOf(u) in w.versions && w.versions[KeyOf(u)].parent == t.hash(content))
            && (!Valid(t, r, i, u) ==> Effective(t, r, i, u) == content && KeyOf(u) !in Step(t, r, Resolve(i, u)).versions)
  {
  }

  /** What an approval edits is what its evidence saw, unless an instance outside the cluster is under an overlay. */
  lemma {:induction false} ApprovalEditsTheEvidence(t: Tools, w: World, i: nat, id: nat)
    requires id in w.proposals && w.proposals[id].status.Pending? && (i, w.proposals[id].unit) in w.files
    requires var p := w.proposals[id];
             p.change.SetLiteral? && t.hash(Effective(t, w, i, p.unit)) == p.baseline
    ensures var p := w.proposals[id];
            var r := Decided(t, w, i, id, true);
            var seen := Effective(t, w, i, p.unit);
            var edited := if i in w.clustered then seen else w.files[(i, p.unit)];
            && (r.proposals[id].status.Approved? <==> Edited(t, edited, p.change).Some?)
            && (r.proposals[id].status.Approved? && i in w.clustered ==> Effective(t, r, i, p.unit) == Edited(t, seen, p.change).value)
            && (r.proposals[id].status.Approved? && i !in w.clustered ==>
                 r.files == w.files[(i, p.unit) := Edited(t, w.files[(i, p.unit)], p.change).value])
            && (edited == seen <==> i in w.clustered || !Valid(t, w, i, p.unit) || w.versions[KeyOf(p.unit)].source == w.files[(i, p.unit)])
  {
  }

  /** The literal editor of the run below appends, and the hash tells all sources apart. */
  const SHOWN := Tools(s => s, (src, name, key, value) => Some(src + value), s => true)

  function SetTo(value: string): (c: Change) { SetLiteral(Some("X"), "-", value) }

  /**
   * It happens: of two instances with the same file one is in a cluster and promotes. A proposal
   * made on the other is pinned to the overlay, and approving it there edits the file instead: the
   * promoted change is gone, in a source no evidence was gathered on.
   */
  lemma {:induction false} ApprovalMissesTheOverlay()
    ensures var w := World({0}, map[(0, "u") := "a", (1, "u") := "a"], map[], map[], 1);
            var r := Run(SHOWN, w, [Promote(0, "u", SetTo("1")), Submit(1, "u", SetTo("2")), Decide(1, 1, true)]);
            var before := Run(SHOWN, w, [Promote(0, "u", SetTo("1")), Submit(1, "u", SetTo("2"))]);
            && Effective(SHOWN, before, 1, "u") == "a1" && before.proposals[1].baseline == "a1"
            && r.proposals[1].status.Approved? && Effective(SHOWN, r, 1, "u") == "a2"
  {
    var w := World({0}, map[(0, "u") := "a", (1, "u") := "a"], map[], map[], 1);
    var a, b, c := Promote(0, "u", SetTo("1")), Submit(1, "u", SetTo("2")), Decide(1, 1, true);
    var w1 := Step(SHOWN, w, a);
    assert w1 == w.(versions := map[KeyOf("u") := Overlay("a1", "a")]) by { assert "a" + "1" == "a1"; }
    var w2 := Step(SHOWN, w1, b);
    assert w2.proposals[1] == Proposal("u", SetTo("2"), "a1", Pending);
    var w3 := Step(SHOWN, w2, c);
    assert w3.files[(1, "u")] == "a2" by { assert "a" + "2" == "a2"; }
    assert [a, b, c][1..] == [b, c] && [b, c][1..] == [c] && [c][1..] == [] && [a, b][1..] == [b] && [b][1..] == [];
    assert Run(SHOWN, w3, []) == w3 && Run(SHOWN, w2, [c]) == w3 && Run(SHOWN, w1, [b, c]) == w3;
    assert Run(SHOWN, w2, []) == w2 && Run(SHOWN, w1, [b]) == w2;
  }

  // ---------- units and their keys ----------

  /** Two names share a key exactly when they differ only where neither has a letter or a digit. */
  lemma {:induction false} KeysEqual(u: string, v: string)
    ensures KeyOf(u) == KeyOf(v) <==>
            |u| == |v| && forall k :: 0 <= k < |u| ==> u[k] == v[k] || (!Alphanumeric(u[k]) && !Alphanumeric(v[k]))
  {
    assert forall k :: 0 <= k < |u| ==> KeyOf(u)[k] == if TokenChar(u[k]) then u[k] else '_';
    assert forall k :: 0 <= k < |v| ==> KeyOf(v)[k] == if TokenChar(v[k]) then v[k] else '_';
    assert |KeyOf(u)| == |u| && |KeyOf(v)| == |v|;
    if |u| == |v| && forall k :: 0 <= k < |u| ==> u[k] == v[k] || (!Alphanumeric(u[k]) && !Alphanumeric(v[k])) {
      assert forall k :: 0 <= k < |u| ==> KeyOf(u)[k] == KeyOf(v)[k];
    }
  }

  /**
   * What a promote of one unit is to another, on any instance: under another key nothing; under
   * the same key its overlay if their files have the same hash, and otherwise the end of whatever
   * overlay it had.
   */
  lemma {:induction false} PromoteSeen(t: Tools, w: World, i: nat, u: string, c: Change, j: nat, v: string)
    requires i in w.clustered && (i, u) in w.files && (j, v) in w.files && c.SetLiteral? && Promoted(t, w, i, u, c).Some?
    ensures var r := Step(t, w, Promote(i, u, c));
            var same := t.hash(w.files[(j, v)]) == t.hash(w.files[(i, u)]);
            && (Valid(t, r, j, v) <==> if KeyOf(u) == KeyOf(v) then same else Valid(t, w, j, v))
            && Effective(t, r, j, v) ==
               (if KeyOf(u) != KeyOf(v) then Effective(t, w, j, v)
                else if same then Edited(t, Effective(t, w, i, u), c).value
                else w.files[(j, v)])
  {
  }

  /** The same for a resolve, which takes another unit's overlay away exactly when it shares the key and does not fit here. */
  lemma {:induction false} ResolveSeen(t: Tools, w: World, i: nat, u: string, j: nat, v: string)
    requires (i, u) in w.files && (j, v) in w.files
    ensures Effective(t, Step(t, w, Resolve(i, u)), j, v) ==
            if KeyOf(u) == KeyOf(v) && !Valid(t, w, i, u) then w.files[(j, v)] else Effective(t, w, j, v)
  {
  }

  /** Two units with different keys do not see each other's promotes, deploys and evictions. */
  lemma {:induction false} OtherUnitsUntouched(t: Tools, w: World, i: nat, u: string, c: Change, j: nat, v: string)
    requires KeyOf(u) != KeyOf(v) && (i, u) in w.files && (j, v) in w.files && c.SetLiteral?
    ensures Effective(t, Step(t, w, Promote(i, u, c)), j, v) == Effective(t, w, j, v)
    ensures Effective(t, Step(t, w, Resolve(i, u)), j, v) == Effective(t, w, j, v)
    ensures forall content :: Effective(t, Step(t, w, Deploy(i, u, Some(content))), j, v) == Effective(t, w, j, v)
  {
  }

  /** Units are isolated from each other's promotes exactly by their keys. */
  lemma {:induction false} Isolated(t: Tools, i: nat, u: string, j: nat, v: string)
    requires (i, u) != (j, v) && exists src, c: Change :: c.SetLiteral? && Edited(t, src, c).Some? && Edited(t, src, c).value != src
    ensures KeyOf(u) != KeyOf(v) <==>
            forall w: World, c: Change :: i in w.clustered && (i, u) in w.files && (j, v) in w.files && c.SetLiteral? ==>
              Effective(t, Step(t, w, Promote(i, u, c)), j, v) == Effective(t, w, j, v)
  {
    if KeyOf(u) == KeyOf(v) {
      var src, c: Change :| c.SetLiteral? && Edited(t, src, c).Some? && Edited(t, src, c).value != src;
      var w := World({i}, map[(i, u) := src, (j, v) := src], map[], map[], 1);
      PromoteSeen(t, w, i, u, c, j, v);
      assert Effective(t, w, j, v) == src;
      assert Effective(t, Step(t, w, Promote(i, u, c)), j, v) != Effective(t, w, j, v);
    }
  }

  /** It happens: promoting `a-b` changes what `a_b` runs. */
  lemma {:induction false} KeysCollide()
    ensures KeyOf("a-b") == KeyOf("a_b")
    ensures var w := World({0}, map[(0, "a-b") := "a", (0, "a_b") := "a"], map[], map[], 1);
            Effective(SHOWN, w, 0, "a_b") == "a" && Effective(SHOWN, Step(SHOWN, w, Promote(0, "a-b", SetTo("1"))), 0, "a_b") == "a1"
  {
    KeysEqual("a-b", "a_b");
    var w := World({0}, map[(0, "a-b") := "a", (0, "a_b") := "a"], map[], map[], 1);
    PromoteSeen(SHOWN, w, 0, "a-b", SetTo("1"), 0, "a_b");
    assert "a" + "1" == "a1";
  }

  // ---------- proposals: at most once, and only on their baseline ----------

  ghost predicate Numbered(w: World) { forall id :: id in w.proposals ==> id < w.nextId }

  /** `r` follows `w`: what was decided stays, and what is pinned stays pinned. */
  ghost predicate Follows(w: World, r: World) {
    && w.nextId <= r.nextId
    && forall id :: id in w.proposals ==>
         && id in r.proposals
         && r.proposals[id] == w.proposals[id].(status := r.proposals[id].status)
         && (!w.proposals[id].status.Pending? ==> r.proposals[id] == w.proposals[id])
  }

  lemma {:induction false} ListFollows(t: Tools, w: World, i: nat, ids: seq<nat>)
    requires Numbered(w)
    ensures Numbered(Listed(t, w, i, ids)) && Follows(w, Listed(t, w, i, ids))
    ensures forall id :: id in w.proposals ==>
              Listed(t, w, i, ids).proposals[id].status.Approved? ==> w.proposals[id].status.Approved?
    decreases |ids|
  {
    if ids != [] {
      ListFollows(t, Reconciled(t, w, i, ids[0]), i, ids[1..]);
    }
  }

  /** Marking a pending proposal, whatever else was done to files and overlays. */
  lemma {:induction false} MarkFollows(w: World, w1: World, id: nat, st: Status)
    requires Numbered(w) && w1.proposals == w.proposals && w1.nextId == w.nextId && id in w.proposals && w.proposals[id].status.Pending?
    ensures Numbered(Marked(w1, id, st)) && Follows(w, Marked(w1, id, st))
  {
  }

  lemma {:induction false} ApplyKeepsQueue(t: Tools, w: World, i: nat, u: string, c: Change)
    requires (i, u) in w.files
    ensures var r := Applied(t, w, i, u, c); r.Some? ==> r.value.proposals == w.proposals && r.value.nextId == w.nextId
  {
  }

  lemma {:induction false} DecideFollows(t: Tools, w: World, i: nat, id: nat, approve: bool)
    requires Numbered(w)
    ensures Numbered(Decided(t, w, i, id, approve)) && Follows(w, Decided(t, w, i, id, approve))
  {
    hide Marked, Applied, Valid;
    if id in w.proposals && w.proposals[id].status.Pending? {
      MarkFollows(w, w, id, Rejected);
      var p := w.proposals[id];
      if (i, p.unit) in w.files {
        var w1 := Resolved(t, w, i, p.unit);
        MarkFollows(w, w1, id, Expired);
        ApplyKeepsQueue(t, w1, i, p.unit, p.change);
        var a := Applied(t, w1, i, p.unit, p.change);
        if a.Some? { MarkFollows(w, a.value, id, Approved); }
      }
    }
  }

  lemma {:induction false} StepFollows(t: Tools, w: World, op: Op)
    requires Numbered(w)
    ensures Numbered(Step(t, w, op)) && Follows(w, Step(t, w, op))
  {
    hide Listed, Decided, Valid;
    match op
    case List(i, ids) => ListFollows(t, w, i, ids);
    case Decide(i, id, approve) => DecideFollows(t, w, i, id, approve);
    case _ =>
  }

  /**
   * The only way to Approved: an approval at an instance whose effective source still has the
   * pinned hash, with the change applied there and then.
   */
  lemma {:induction false} ApprovedOnBaseline(t: Tools, w: World, op: Op, id: nat)
    requires Numbered(w) && id in w.proposals && w.proposals[id].status.Pending?
    requires id in Step(t, w, op).proposals && Step(t, w, op).proposals[id].status.Approved?
    ensures op.Decide? && op.id == id && op.approve
    ensures var p := w.proposals[id];
            && (op.i, p.unit) in w.files && t.hash(Effective(t, w, op.i, p.unit)) == p.baseline
            && Applied(t, Resolved(t, w, op.i, p.unit), op.i, p.unit, p.change).Some?
            && Step(t, w, op) == Marked(Applied(t, Resolved(t, w, op.i, p.unit), op.i, p.unit, p.change).value, id, Approved)
  {
    if op.List? { ListFollows(t, w, op.i, op.ids); }
  }

  /** A decision that does not approve lands nothing: the files stay, and overlays are only evicted. */
  lemma {:induction false} UnapprovedLandsNothing(t: Tools, w: World, i: nat, id: nat, approve: bool)
    requires id in w.proposals
    requires !(w.proposals[id].status.Pending? && Decided(t, w, i, id, approve).proposals[id].status.Approved?)
    ensures var r := Decided(t, w, i, id, approve);
            r.files == w.files && forall k :: k in r.versions ==> k in w.versions && r.versions[k] == w.versions[k]
  {
  }

  function Pends(w: World, id: nat): (b: bool) { id in w.proposals && w.proposals[id].status.Pending? }

  /** How often a proposal goes from pending to decided in a run. */
  ghost function Departures(t: Tools, w: World, ops: seq<Op>, id: nat): (n: nat)
    decreases |ops|
  {
    if ops == [] then 0
    else
      var r := Step(t, w, ops[0]);
      (if Pends(w, id) && !Pends(r, id) then 1 else 0) + Departures(t, r, ops[1..], id)
  }

  lemma {:induction false} DepartsAtMostOnce(t: Tools, w: World, ops: seq<Op>, id: nat)
    requires Numbered(w)
    ensures Departures(t, w, ops, id) <= 1
    ensures id in w.proposals && !Pends(w, id) ==> Departures(t, w, ops, id) == 0
    ensures Numbered(Run(t, w, ops)) && Follows(w, Run(t, w, ops))
    decreases |ops|
  {
    hide Step;
    if ops != [] {
      StepFollows(t, w, ops[0]);
      DepartsAtMostOnce(t, Step(t, w, ops[0]), ops[1..], id);
    }
  }

  /**
   * Governed change. In any sequence of deploys, promotes, submissions, decisions, listings and
   * resolves a proposal leaves pending at most once; and wherever it becomes approved, the
   * effective source of the deciding instance had the hash it was pinned to.
   */
  lemma {:induction false} GovernedChange(t: Tools, w: World, ops: seq<Op>, k: nat, id: nat)
    requires Numbered(w) && k < |ops|
    ensures Departures(t, w, ops, id) <= 1
    ensures var before := Run(t, w, ops[..k]);
            var after := Step(t, before, ops[k]);
            Pends(before, id) && id in after.proposals && after.proposals[id].status.Approved? ==>
              && ops[k].Decide? && ops[k].id == id
              && (ops[k].i, before.proposals[id].unit) in before.files
              && t.hash(Effective(t, before, ops[k].i, before.proposals[id].unit)) == before.proposals[id].baseline
  {
    hide Step;
    DepartsAtMostOnce(t, w, ops, id);
    DepartsAtMostOnce(t, w, ops[..k], id);
    var before := Run(t, w, ops[..k]);
    var after := Step(t, before, ops[k]);
    if Pends(before, id) && id in after.proposals && after.proposals[id].status.Approved? {
      ApprovedOnBaseline(t, before, ops[k], id);
    }
  }
}
