// What each governed operation leaves behind (core/src/main.rs, core/src/versions.rs,
// core/src/proposals.rs): which status a proposal gets, exactly when, and what an approved change
// lands as, in the files, the overlays and the effective source.

module GovernedLaws {
  import opened Wrappers
  import opened Governed

  /** The overlays are those of `w`, but for one of another baseline under this unit's key. */
  ghost predicate OnlyEvicted(t: Tools, w: World, r: World, i: nat, u: string)
    requires (i, u) in w.files
  {
    && (forall k :: k in r.versions <==> k in w.versions && (k == KeyOf(u) ==> w.versions[k].parent == t.hash(w.files[(i, u)])))
    && (forall k :: k in r.versions ==> r.versions[k] == w.versions[k])
  }

  /** The unit runs `source` here, as an overlay of its own file; files and all other overlays stay. */
  ghost predicate LandsAsOverlay(t: Tools, w: World, r: World, i: nat, u: string, source: string)
    requires (i, u) in w.files
  {
    && r.files == w.files && KeyOf(u) in r.versions && r.versions[KeyOf(u)] == Overlay(source, t.hash(w.files[(i, u)]))
    && Effective(t, r, i, u) == source
    && (forall k :: k != KeyOf(u) ==> (k in r.versions <==> k in w.versions) && (k in w.versions ==> r.versions[k] == w.versions[k]))
  }

  /** The unit's own file is `source` now; every other file stays, and overlays are at most evicted. */
  ghost predicate LandsInFile(t: Tools, w: World, r: World, i: nat, u: string, source: string)
    requires (i, u) in w.files
  {
    && OnlyEvicted(t, w, r, i, u)
    && (forall f :: f in r.files <==> f in w.files)
    && (forall f :: f in w.files ==> r.files[f] == if f == (i, u) then source else w.files[f])
  }

  /** Nothing but the status of this proposal is new in the queue. */
  ghost predicate OnlyStatus(w: World, r: World, id: nat, st: Status)
    requires id in w.proposals
  {
    && r.nextId == w.nextId && r.clustered == w.clustered && (forall k :: k in r.proposals <==> k in w.proposals)
    && (forall k :: k in w.proposals && k != id ==> r.proposals[k] == w.proposals[k])
    && r.proposals[id] == Proposal(w.proposals[id].unit, w.proposals[id].change, w.proposals[id].baseline, st)
  }

  /** What an approved change makes of the sources it can be made of: the own file, or what the instance runs. */
  ghost function Outcome(t: Tools, w: World, i: nat, p: Proposal): (s: Option<string>)
    requires (i, p.unit) in w.files
  {
    match p.change
    case Version(candidate) => if candidate.Some? && t.parses(candidate.value) then candidate else None
    case SetLiteral(name, key, value) =>
      if name.None? then None
      else t.setLiteral(if i in w.clustered then Effective(t, w, i, p.unit) else w.files[(i, p.unit)], name.value, key, value)
  }

  /**
   * A decision. One that is not pending, or whose unit has no file here, is left alone; a rejection
   * is only that; an approval off its baseline expires it; one on its baseline makes the change if it
   * can be made, as an overlay in a cluster and in the file outside, and otherwise leaves it pending.
   */
  lemma {:induction false} DecideLaw(t: Tools, w: World, i: nat, id: nat, approve: bool)
    ensures var r := Step(t, w, Decide(i, id, approve));
            if id !in w.proposals || w.proposals[id].status != Pending then r == w
            else
              var p := w.proposals[id];
              if !approve then OnlyStatus(w, r, id, Rejected) && r.files == w.files && r.versions == w.versions
              else if (i, p.unit) !in w.files then r == w
              else if t.hash(Effective(t, w, i, p.unit)) != p.baseline then
                OnlyStatus(w, r, id, Expired) && r.files == w.files && OnlyEvicted(t, w, r, i, p.unit)
              else if Outcome(t, w, i, p).None? then
                OnlyStatus(w, r, id, Pending) && r.files == w.files && OnlyEvicted(t, w, r, i, p.unit)
              else
                && OnlyStatus(w, r, id, Approved)
                && if i in w.clustered then LandsAsOverlay(t, w, r, i, p.unit, Outcome(t, w, i, p).value)
                   else LandsInFile(t, w, r, i, p.unit, Outcome(t, w, i, p).value)
  {
    hide KeyOf, Applied, Marked, Valid, Effective, OnlyStatus, OnlyEvicted, LandsAsOverlay, LandsInFile, Outcome;
    if id in w.proposals && w.proposals[id].status == Pending {
      var p := w.proposals[id];
      MarkLaw(w, w, id, Rejected);
      if (i, p.unit) in w.files {
        var w1 := Resolved(t, w, i, p.unit);
        EvictLaw(t, w, i, p.unit);
        MarkLaw(w, w1, id, Expired);
        ApplyLaw(t, w, i, p);
        StillPending(t, w, w1, id);
        var a := Applied(t, w1, i, p.unit, p.change);
        if a.Some? {
          MarkLaw(w, a.value, id, Approved);
          LandsMarked(t, w, a.value, Marked(a.value, id, Approved), i, p.unit, Outcome(t, w, i, p).value);
        }
        EvictedMarked(t, w, w1, Marked(w1, id, Expired), i, p.unit);
      }
    }
  }

  lemma {:induction false} MarkLaw(w: World, w1: World, id: nat, st: Status)
    requires id in w.proposals && w1.proposals == w.proposals && w1.nextId == w.nextId && w1.clustered == w.clustered
    ensures OnlyStatus(w, Marked(w1, id, st), id, st) && Marked(w1, id, st).files == w1.files && Marked(w1, id, st).versions == w1.versions
  {
  }

  lemma {:induction false} StillPending(t: Tools, w: World, w1: World, id: nat)
    requires id in w.proposals && w.proposals[id].status == Pending && w1.proposals == w.proposals && w1.nextId == w.nextId && w1.clustered == w.clustered
    ensures OnlyStatus(w, w1, id, Pending)
  {
  }

  lemma {:induction false} EvictLaw(t: Tools, w: World, i: nat, u: string)
    requires (i, u) in w.files
    ensures var r := Resolved(t, w, i, u);
            OnlyEvicted(t, w, r, i, u) && r.files == w.files && r.proposals == w.proposals && r.nextId == w.nextId && r.clustered == w.clustered
  {
    hide KeyOf;
  }

  /** What is said of files and overlays does not depend on the queue. */
  lemma {:induction false} EvictedMarked(t: Tools, w: World, w1: World, r: World, i: nat, u: string)
    requires (i, u) in w.files && r.versions == w1.versions && OnlyEvicted(t, w, w1, i, u)
    ensures OnlyEvicted(t, w, r, i, u)
  {
  }

  lemma {:induction false} LandsMarked(t: Tools, w: World, w2: World, r: World, i: nat, u: string, source: string)
    requires (i, u) in w.files && r.versions == w2.versions && r.files == w2.files
    ensures LandsAsOverlay(t, w, w2, i, u, source) ==> LandsAsOverlay(t, w, r, i, u, source)
    ensures LandsInFile(t, w, w2, i, u, source) ==> LandsInFile(t, w, r, i, u, source)
  {
    hide KeyOf;
  }

  /** A change is made exactly when it has an outcome, and that lands. */
  lemma {:induction false} ApplyLaw(t: Tools, w: World, i: nat, p: Proposal)
    requires (i, p.unit) in w.files
    ensures var a := Applied(t, Resolved(t, w, i, p.unit), i, p.unit, p.change);
            && (a.Some? <==> Outcome(t, w, i, p).Some?)
            && (a.Some? ==>
                 && a.value.proposals == w.proposals && a.value.nextId == w.nextId && a.value.clustered == w.clustered
                 && if i in w.clustered then LandsAsOverlay(t, w, a.value, i, p.unit, Outcome(t, w, i, p).value)
                    else LandsInFile(t, w, a.value, i, p.unit, Outcome(t, w, i, p).value))
  {
    hide KeyOf;
  }

  /**
   * An approved version: it is approved exactly when the candidate is there and parses. Outside a
   * cluster it is then the file, and in a cluster what the instance runs.
   */
  lemma {:induction false} ApprovedVersion(t: Tools, w: World, i: nat, id: nat)
    requires id in w.proposals && w.proposals[id].status == Pending && w.proposals[id].change.Version?
    requires var p := w.proposals[id]; (i, p.unit) in w.files && t.hash(Effective(t, w, i, p.unit)) == p.baseline
    ensures var r, p := Step(t, w, Decide(i, id, true)), w.proposals[id];
            var c := p.change.candidate;
            && (r.proposals[id].status == Approved <==> c.Some? && t.parses(c.value))
            && (r.proposals[id].status == Approved ==>
                 if i in w.clustered then r.files == w.files && Effective(t, r, i, p.unit) == c.value
                 else r.files == w.files[(i, p.unit) := c.value])
  {
    DecideLaw(t, w, i, id, true);
    hide KeyOf, Step;
    var r, p := Step(t, w, Decide(i, id, true)), w.proposals[id];
    if i !in w.clustered && Outcome(t, w, i, p).Some? {
      assert r.files == w.files[(i, p.unit) := p.change.candidate.value];
    }
  }

  /** Setting a literal lands as a change of what the instance runs, in a cluster, and of its file outside; refused, it lands nowhere. */
  lemma {:induction false} PromoteLaw(t: Tools, w: World, i: nat, u: string, c: Change)
    requires (i, u) in w.files && c.SetLiteral?
    ensures var r := Step(t, w, Promote(i, u, c));
            var base := if i in w.clustered then Effective(t, w, i, u) else w.files[(i, u)];
            var edit := if c.name.None? then None else t.setLiteral(base, c.name.value, c.key, c.value);
            && r.proposals == w.proposals && r.nextId == w.nextId && r.clustered == w.clustered
            && (if edit.None? then r.files == w.files && (if i in w.clustered then OnlyEvicted(t, w, r, i, u) else r.versions == w.versions)
                else if i in w.clustered then LandsAsOverlay(t, w, r, i, u, edit.value)
                else r.versions == w.versions && r.files == w.files[(i, u) := edit.value])
  {
    hide KeyOf;
  }

  /** A submission adds one pending proposal, pinned to the hash of what the instance runs, and nothing else. */
  lemma {:induction false} SubmitLaw(t: Tools, w: World, i: nat, u: string, c: Change)
    ensures var r := Step(t, w, Submit(i, u, c));
            if (i, u) !in w.files then r == w
            else
              && r.files == w.files && OnlyEvicted(t, w, r, i, u) && r.clustered == w.clustered && r.nextId == w.nextId + 1
              && (forall k :: k in r.proposals <==> k in w.proposals || k == w.nextId)
              && (forall k :: k in w.proposals && k != w.nextId ==> r.proposals[k] == w.proposals[k])
              && r.proposals[w.nextId] == Proposal(u, c, t.hash(Effective(t, w, i, u)), Pending)
  {
    hide KeyOf;
  }

  /** A listing looks at one proposal after the other: each expires exactly when it is pending and what runs here has another hash. */
  lemma {:induction false} ListLaw(t: Tools, w: World, i: nat, id: nat, more: seq<nat>)
    ensures Step(t, w, List(i, [])) == w
    ensures Step(t, w, List(i, [id] + more)) == Step(t, Step(t, w, List(i, [id])), List(i, more))
    ensures var r := Step(t, w, List(i, [id]));
            if id !in w.proposals || w.proposals[id].status != Pending || (i, w.proposals[id].unit) !in w.files then r == w
            else
              var p := w.proposals[id];
              var now := t.hash(Effective(t, w, i, p.unit));
              && r.files == w.files && OnlyEvicted(t, w, r, i, p.unit)
              && OnlyStatus(w, r, id, if now != "" && now != p.baseline then Expired else Pending)
  {
    hide KeyOf;
    assert ([id] + more)[1..] == more && [id][1..] == [];
    var w1 := Reconciled(t, w, i, id);
    assert Listed(t, w1, i, []) == w1;
  }

  /** A deploy changes one file, and a restart where one instance runs; neither touches anything shared. */
  lemma {:induction false} DeployLaw(t: Tools, w: World, i: nat, u: string, content: Option<string>)
    ensures var r := Step(t, w, Deploy(i, u, content));
            && r == World(w.clustered, r.files, w.versions, w.proposals, w.nextId)
            && (forall f :: f in r.files <==> if f == (i, u) then content.Some? else f in w.files)
            && (forall f :: f in r.files ==> r.files[f] == if f == (i, u) then content.value else w.files[f])
  {
  }

  lemma {:induction false} RestartLaw(t: Tools, w: World, i: nat, clustered: bool)
    ensures var r := Step(t, w, Restart(i, clustered));
            && r == World(r.clustered, w.files, w.versions, w.proposals, w.nextId)
            && forall j :: j in r.clustered <==> if j == i then clustered else j in w.clustered
  {
  }
}
