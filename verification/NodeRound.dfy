/** `directory_nodes` in the engine. Its Tier-A half inserts the identity of an unknown node, its
    Tier-B half, in the same round and on the same row, moves the heartbeat: what the engine does
    to the physical table is exactly `NodeDirectory.Pull`. */
module NodeRound {
  import opened Ordering
  import opened Reconciliation
  import opened Merges
  import opened Rows
  import opened Store
  import opened Channel
  import opened Engine
  import opened RoundProperties
  import opened SteadyState
  import ND = NodeDirectory

  // ----- the two registrations of the table -----

  function Identity(id: string, region: string): Body {
    Body(map["node_id" := Text(id), "region" := Text(region)])
  }

  /** The mutable columns of a row. */
  function Beat(id: string, status: string, at: string): Body {
    Body(ND.Columns(id, ND.NodeRow("", status, at)))
  }

  function BeatRow(id: string, r: ND.NodeRow): Body {
    Beat(id, r.status, r.at)
  }

  function HeartbeatOf(b: Body): Heartbeat {
    Heartbeat(TextOf(b, "node_id"), TextOf(b, "status"), TextOf(b, "last_heartbeat_at"))
  }

  function BodyOf(h: Heartbeat): Body {
    Beat(h.nodeId, h.status, h.at)
  }

  predicate ValidBeat(b: Body) {
    && Column(b.columns, "node_id").Text? && Column(b.columns, "status").Text?
    && Column(b.columns, "last_heartbeat_at").Text?
  }

  predicate HasIdentity(b: Body) {
    Column(b.columns, "node_id").Text? && Column(b.columns, "region").Text?
  }

  /** Both identity columns are NOT NULL; `node_id` is the only unique one. A new row gets the
      column defaults, status `active` and no heartbeat. */
  function NodeSpecA(hashOf: Body -> RecordHash): SpecA {
    SpecA(b => TextOf(b, "node_id"), hashOf, b => true, Unchained,
          (rows, b) => HasIdentity(b),
          Some(b => Beat(TextOf(b, "node_id"), "active", "0")))
  }

  function NodeSpecB(w: ND.Wiring): SpecB {
    SpecB(b => TextOf(b, "node_id"), b => ValidBeat(b), b => BodyOf(HeartbeatOf(b)),
          (x, y) => BodyOf(MergeHeartbeat(w.num, w.json, HeartbeatOf(x), HeartbeatOf(y))),
          b => w.recordHash(ND.HEARTBEAT_SPEC.table, ND.Fields(w.decimal, ND.HEARTBEAT_SPEC.versionColumns,
                                                               BodyOf(HeartbeatOf(b)).columns)),
          false, Some((x, y) => StillDivergent(HeartbeatOf(x), HeartbeatOf(y))))
  }

  lemma BeatFacts(w: ND.Wiring, id: string, r: ND.NodeRow)
    ensures HeartbeatOf(BeatRow(id, r)) == ND.BeatOf(id, r) && ValidBeat(BeatRow(id, r))
    ensures NodeSpecB(w).version(BeatRow(id, r)) == ND.Version(w, id, r)
  {
  }

  /** The physical table holds the directory. */
  ghost predicate Represents(x: Table, d: ND.Directory) {
    IdentitiesOf(x.a, d) && BeatsOf(x.b, d)
  }

  ghost predicate IdentitiesOf(rows: RowsA, d: ND.Directory) {
    && (forall b :: b in rows ==> IsIdentity(d, b))
    && (forall id :: id in d ==> HasIdentityOf(rows, d, id))
  }

  ghost predicate IsIdentity(d: ND.Directory, b: Body) {
    var id := TextOf(b, "node_id");
    id in d && b == Identity(id, d[id].region)
  }

  ghost predicate HasIdentityOf(rows: RowsA, d: ND.Directory, id: string)
    requires id in d
  {
    Identity(id, d[id].region) in rows
  }

  ghost predicate BeatsOf(rows: RowsB, d: ND.Directory) {
    forall id :: BeatAt(rows, d, id)
  }

  ghost predicate BeatAt(rows: RowsB, d: ND.Directory, id: string) {
    RowAt(rows, id) == if id in d then Some(BeatRow(id, d[id])) else None
  }

  // ----- the Tier-A half -----

  ghost predicate ReadyNodes(hashOf: Body -> RecordHash, u: set<Body>, rows: RowsA, peer: RowsA,
                            x: ND.Directory, y: ND.Directory)
  {
    && Universe(NodeSpecA(hashOf), u) && Sane(NodeSpecA(hashOf), u, rows) && Sane(NodeSpecA(hashOf), u, peer)
    && IdentitiesOf(rows, x) && IdentitiesOf(peer, y)
  }

  function PulledRows(hashOf: Body -> RecordHash, rows: RowsA, peer: RowsA): RowsA {
    Pulled(NodeSpecA(hashOf), rows, peer).rows
  }

  /** What a pull of identities keeps, adds and binds. */
  lemma PulledShape(hashOf: Body -> RecordHash, u: set<Body>, rows: RowsA, peer: RowsA, x: ND.Directory,
                    y: ND.Directory)
    requires ReadyNodes(hashOf, u, rows, peer, x, y)
    ensures var spec, p := NodeSpecA(hashOf), PulledRows(hashOf, rows, peer);
      && |rows| <= |p| && p[..|rows|] == rows && KeysDistinct(spec, p)
      && (forall b :: b in rows ==> b in p) && (forall b :: b in p ==> b in rows || b in peer)
      && (forall b :: b in peer && HasIdentity(b) ==> Bound(spec, p, spec.keyOf(b)))
  {
    var spec, p := NodeSpecA(hashOf), PulledRows(hashOf, rows, peer);
    PullExhaustsThePeer(spec, u, rows, peer);
    forall b | b in rows ensures b in p { assert b in p[..|rows|]; }
    forall b | b in peer && HasIdentity(b) ensures Bound(spec, p, spec.keyOf(b)) {
      assert !Inserts(spec, p, b) && spec.accepts(p, b);
    }
  }

  /** Every row of the pulled table is the identity of a node of either side, the local one's where
      both know it. */
  lemma NewIdentities(hashOf: Body -> RecordHash, u: set<Body>, rows: RowsA, peer: RowsA, x: ND.Directory,
                      y: ND.Directory, b: Body)
    requires ReadyNodes(hashOf, u, rows, peer, x, y) && b in PulledRows(hashOf, rows, peer)
    ensures IsIdentity(ND.AfterTierA(x, y), b) && (b in rows <==> TextOf(b, "node_id") in x)
  {
    var spec, id := NodeSpecA(hashOf), TextOf(b, "node_id");
    PulledShape(hashOf, u, rows, peer, x, y);
    assert b in rows ==> IsIdentity(x, b);
    assert b in peer ==> IsIdentity(y, b);
    if id in x {
      assert HasIdentityOf(rows, x, id);
      var c := Identity(id, x[id].region);
      assert c in PulledRows(hashOf, rows, peer) && spec.keyOf(c) == spec.keyOf(b);
      HeldDoesNotConflict(spec, PulledRows(hashOf, rows, peer), b);
    }
  }

  lemma IdentityArrives(hashOf: Body -> RecordHash, u: set<Body>, rows: RowsA, peer: RowsA, x: ND.Directory,
                        y: ND.Directory, id: string)
    requires ReadyNodes(hashOf, u, rows, peer, x, y) && id in ND.AfterTierA(x, y)
    ensures HasIdentityOf(PulledRows(hashOf, rows, peer), ND.AfterTierA(x, y), id)
  {
    PulledShape(hashOf, u, rows, peer, x, y);
    if id in x {
      assert HasIdentityOf(rows, x, id);
    } else {
      assert HasIdentityOf(peer, y, id);
      var b, p, spec := Identity(id, y[id].region), PulledRows(hashOf, rows, peer), NodeSpecA(hashOf);
      assert HasIdentity(b) && Bound(spec, p, id);
      var i :| 0 <= i < |p| && spec.keyOf(p[i]) == id;
      NewIdentities(hashOf, u, rows, peer, x, y, p[i]);
    }
  }

  lemma IdentitiesArrive(hashOf: Body -> RecordHash, u: set<Body>, rows: RowsA, peer: RowsA, x: ND.Directory,
                         y: ND.Directory)
    requires ReadyNodes(hashOf, u, rows, peer, x, y)
    ensures IdentitiesOf(PulledRows(hashOf, rows, peer), ND.AfterTierA(x, y))
  {
    var p, d := PulledRows(hashOf, rows, peer), ND.AfterTierA(x, y);
    forall b | b in p ensures IsIdentity(d, b) { NewIdentities(hashOf, u, rows, peer, x, y, b); }
    forall id | id in d ensures HasIdentityOf(p, d, id) { IdentityArrives(hashOf, u, rows, peer, x, y, id); }
  }

  lemma {:induction false} OpenedAt(hashOf: Body -> RecordHash, b: RowsB, added: RowsA, k: string)
    ensures var spec := NodeSpecA(hashOf);
      RowAt(Opened(spec, b, added), k) == if Bound(spec, added, k) then Some(Beat(k, "active", "0")) else RowAt(b, k)
  {
    if added != [] {
      var n, spec := |added| - 1, NodeSpecA(hashOf);
      OpenedAt(hashOf, b, added[..n], k);
      BoundOneMore(spec, added, k);
    }
  }

  lemma BoundOneMore(spec: SpecA, rows: RowsA, k: string)
    requires rows != []
    ensures var n := |rows| - 1; Bound(spec, rows, k) <==> Bound(spec, rows[..n], k) || spec.keyOf(rows[n]) == k
  {
    var n := |rows| - 1;
    if Bound(spec, rows[..n], k) {
      var i :| 0 <= i < n && spec.keyOf(rows[..n][i]) == k;
      assert rows[i] == rows[..n][i];
    }
    if Bound(spec, rows, k) && spec.keyOf(rows[n]) != k {
      var i :| 0 <= i < |rows| && spec.keyOf(rows[i]) == k;
      assert rows[..n][i] == rows[i];
    }
  }

  lemma BeatsOpen(hashOf: Body -> RecordHash, u: set<Body>, t: Table, peer: RowsA, x: ND.Directory, y: ND.Directory)
    requires ReadyNodes(hashOf, u, t.a, peer, x, y) && BeatsOf(t.b, x)
    ensures |t.a| <= |PulledRows(hashOf, t.a, peer)|
    ensures BeatsOf(Opened(NodeSpecA(hashOf), t.b, PulledRows(hashOf, t.a, peer)[|t.a|..]), ND.AfterTierA(x, y))
  {
    PulledShape(hashOf, u, t.a, peer, x, y);
    var added := PulledRows(hashOf, t.a, peer)[|t.a|..];
    forall k ensures BeatAt(Opened(NodeSpecA(hashOf), t.b, added), ND.AfterTierA(x, y), k) {
      AddedExactly(hashOf, u, t.a, peer, x, y, k);
      OpenedAt(hashOf, t.b, added, k);
      assert BeatAt(t.b, x, k);
    }
  }

  /** The new rows are exactly the nodes only the peer knows. */
  lemma AddedExactly(hashOf: Body -> RecordHash, u: set<Body>, rows: RowsA, peer: RowsA, x: ND.Directory,
                     y: ND.Directory, k: string)
    requires ReadyNodes(hashOf, u, rows, peer, x, y)
    ensures var spec := NodeSpecA(hashOf); var p := PulledRows(hashOf, rows, peer);
      |rows| <= |p| && (Bound(spec, p[|rows|..], k) <==> k in y && k !in x)
  {
    var spec := NodeSpecA(hashOf);
    var p := PulledRows(hashOf, rows, peer);
    PulledShape(hashOf, u, rows, peer, x, y);
    var added := p[|rows|..];
    if Bound(spec, added, k) {
      var i :| 0 <= i < |added| && spec.keyOf(added[i]) == k;
      assert added[i] == p[|rows| + i] && added[i] in p;
      NewIdentities(hashOf, u, rows, peer, x, y, added[i]);
      AddedIsNew(spec, p, |rows|, i);
    }
    if k in y && k !in x {
      IdentityArrives(hashOf, u, rows, peer, x, y, k);
      var b := Identity(k, ND.AfterTierA(x, y)[k].region);
      NewIdentities(hashOf, u, rows, peer, x, y, b);
      InTail(p, |rows|, b);
      var i :| 0 <= i < |added| && added[i] == b;
    }
  }

  lemma AddedIsNew(spec: SpecA, p: RowsA, n: nat, i: nat)
    requires KeysDistinct(spec, p) && n + i < |p|
    ensures p[n + i] !in p[..n]
  {
  }

  lemma InTail(p: RowsA, n: nat, b: Body)
    requires n <= |p| && b in p && b !in p[..n]
    ensures b in p[n..]
  {
    assert p == p[..n] + p[n..];
  }

  // ----- the Tier-B half -----

  /** One planned row: the heartbeat moves to the later one and the status stays. */
  lemma BeatLands(w: ND.Wiring, rows: RowsB, id: string, r: ND.NodeRow, s: ND.NodeRow)
    requires ND.Sound(w) && id in rows && rows[id] == BeatRow(id, r)
    ensures var m := MergeHeartbeat(w.num, w.json, ND.BeatOf(id, r), ND.BeatOf(id, s));
      && Landed(NodeSpecB(w), rows, RecordB(id, BeatRow(id, s))) == Some(BeatRow(id, r.(at := m.at)))
      && (Disagrees(NodeSpecB(w), rows, RecordB(id, BeatRow(id, s)))
          <==> StillDivergent(ND.BeatOf(id, r), ND.BeatOf(id, s)))
      && Sound(NodeSpecB(w), RecordB(id, BeatRow(id, s)))
  {
    var m := MergeHeartbeat(w.num, w.json, ND.BeatOf(id, r), ND.BeatOf(id, s));
    BeatFacts(w, id, r);
    BeatFacts(w, id, s);
    HeartbeatKeepsLater(w.num, w.json, ND.BeatOf(id, r), ND.BeatOf(id, s));
    BeatFacts(w, id, r.(at := m.at));
    ND.VersionIsExact(w, id, r, r.(at := m.at));
    assert BodyOf(m) == BeatRow(id, r.(at := m.at));
  }

  lemma PlannedAt(w: ND.Wiring, rows: RowsB, peer: RowsB, x: ND.Directory, y: ND.Directory, id: string)
    requires BeatsOf(rows, x) && BeatsOf(peer, y)
    ensures (id in peer && (id !in rows || NodeSpecB(w).version(rows[id]) != NodeSpecB(w).version(peer[id])))
      <==> id in ND.Planned(w, x, y)
  {
    assert BeatAt(rows, x, id) && BeatAt(peer, y, id);
    if id in x { BeatFacts(w, id, x[id]); }
    if id in y { BeatFacts(w, id, y[id]); }
  }

  /** The planned keys are the ids whose versions differ, before anything is applied. */
  lemma PlannedIds(w: ND.Wiring, e: Env, t: string, rows: RowsB, peer: RowsB, x: ND.Directory, y: ND.Directory)
    requires e.schema.specB(t) == NodeSpecB(w) && HonestB(e, t, peer) && BeatsOf(rows, x) && BeatsOf(peer, y)
    requires DiscernsB(e.digestB, Versions(NodeSpecB(w), rows), Versions(NodeSpecB(w), peer))
    ensures PlanB(e, t, rows).Got? && Distinct(PlanB(e, t, rows).value)
    ensures Elements(PlanB(e, t, rows).value) == ND.Planned(w, x, y)
  {
    HonestPlanB(e, t, rows, peer);
    StaleIds(w, rows, peer, x, y, PlanB(e, t, rows).value);
  }

  lemma StaleIds(w: ND.Wiring, rows: RowsB, peer: RowsB, x: ND.Directory, y: ND.Directory, plan: seq<string>)
    requires BeatsOf(rows, x) && BeatsOf(peer, y) && StaleAgainst(NodeSpecB(w), rows, peer, plan)
    ensures Elements(plan) == ND.Planned(w, x, y)
  {
    forall id ensures id in plan <==> id in ND.Planned(w, x, y) {
      PlannedAt(w, rows, peer, x, y, id);
    }
  }

  /** The peer's records meet a table that Tier A has already brought up to its nodes. */
  ghost predicate Meets(w: ND.Wiring, rows: RowsB, peer: RowsB, x: ND.Directory, y: ND.Directory, plan: seq<string>,
                        rs: seq<RecordB>) {
    && ND.Sound(w) && BeatsOf(rows, ND.AfterTierA(x, y)) && BeatsOf(peer, y)
    && Elements(plan) == ND.Planned(w, x, y) && AnswersRows(rs, peer, plan)
  }

  lemma AnsweredBeats(w: ND.Wiring, rows: RowsB, peer: RowsB, x: ND.Directory, y: ND.Directory, plan: seq<string>,
                      rs: seq<RecordB>)
    requires Meets(w, rows, peer, x, y, plan, rs)
    ensures AllSound(NodeSpecB(w), rs)
  {
    forall i | 0 <= i < |rs| ensures Sound(NodeSpecB(w), rs[i]) {
      assert rs[i] in rs;
      var id := rs[i].key;
      assert BeatAt(rows, ND.AfterTierA(x, y), id) && BeatAt(peer, y, id);
      BeatLands(w, rows, id, ND.AfterTierA(x, y)[id], y[id]);
    }
  }

  lemma BeatMergesAt(w: ND.Wiring, rows: RowsB, peer: RowsB, x: ND.Directory, y: ND.Directory, plan: seq<string>,
                     rs: seq<RecordB>, k: string)
    requires Meets(w, rows, peer, x, y, plan, rs) && AllSound(NodeSpecB(w), rs)
    ensures var f := FoldB(NodeSpecB(w), None, rows, rs);
      BeatAt(f.rows, ND.Pull(w, x, y), k) && (k in f.disagreeing <==> k in ND.Divergent(w, x, y))
  {
    var d := ND.AfterTierA(x, y);
    assert BeatAt(rows, d, k) && BeatAt(peer, y, k);
    assert k in plan <==> k in Elements(plan);
    if k in plan {
      assert RecordB(k, peer[k]) in rs;
      var i :| 0 <= i < |rs| && rs[i] == RecordB(k, peer[k]);
      FoldBAt(NodeSpecB(w), rows, rs, i);
      BeatLands(w, rows, k, d[k], y[k]);
    } else {
      forall i | 0 <= i < |rs| ensures rs[i].key != k { assert rs[i] in rs; }
      FoldBElsewhere(NodeSpecB(w), rows, rs, k);
    }
  }

  lemma BeatsMerge(w: ND.Wiring, rows: RowsB, peer: RowsB, x: ND.Directory, y: ND.Directory, plan: seq<string>,
                   rs: seq<RecordB>)
    requires Meets(w, rows, peer, x, y, plan, rs)
    ensures var f := FoldB(NodeSpecB(w), None, rows, rs);
      && !f.thrown && BeatsOf(f.rows, ND.Pull(w, x, y))
      && |f.disagreeing| == |ND.Divergent(w, x, y)|
  {
    AnsweredBeats(w, rows, peer, x, y, plan, rs);
    NoneUnsound(w, rows, rs);
    DisagreeingOnce(NodeSpecB(w), rows, rs);
    var f := FoldB(NodeSpecB(w), None, rows, rs);
    forall k ensures BeatAt(f.rows, ND.Pull(w, x, y), k) && (k in f.disagreeing <==> k in ND.Divergent(w, x, y)) {
      BeatMergesAt(w, rows, peer, x, y, plan, rs, k);
    }
    DistinctLength(f.disagreeing);
    assert Elements(f.disagreeing) == ND.Divergent(w, x, y);
  }

  lemma NoneUnsound(w: ND.Wiring, rows: RowsB, rs: seq<RecordB>)
    requires AllSound(NodeSpecB(w), rs)
    ensures !FoldB(NodeSpecB(w), None, rows, rs).thrown
  {
    FoldBThrowsExactly(NodeSpecB(w), None, rows, rs);
    forall r | r in rs ensures Sound(NodeSpecB(w), r) {
      var i :| 0 <= i < |rs| && rs[i] == r;
    }
  }

  // ----- the round -----

  ghost predicate Registered(w: ND.Wiring, hashOf: Body -> RecordHash, e: Env, t: string) {
    && t in e.schema.tierA && t in e.schema.tierB && ND.Sound(w)
    && e.schema.specA(t) == NodeSpecA(hashOf) && e.schema.specB(t) == NodeSpecB(w) && e.schema.parent(t).None?
  }

  /** An honest peer holding the directory `y` in its table, and nothing failing here. */
  ghost predicate ReadyTable(w: ND.Wiring, hashOf: Body -> RecordHash, e: Env, t: string, u: set<Body>,
                             here: Table, peer: Table, x: ND.Directory, y: ND.Directory)
  {
    && Registered(w, hashOf, e, t) && Represents(here, x) && Represents(peer, y)
    && ReadyA(e, t, u, here.a, peer.a) && HonestB(e, t, peer.b)
    && DiscernsB(e.digestB, Versions(NodeSpecB(w), here.b), Versions(NodeSpecB(w), peer.b))
  }

  lemma PullKeepsIdentities(w: ND.Wiring, rows: RowsA, x: ND.Directory, y: ND.Directory)
    requires IdentitiesOf(rows, ND.AfterTierA(x, y))
    ensures IdentitiesOf(rows, ND.Pull(w, x, y))
  {
    var d, p := ND.AfterTierA(x, y), ND.Pull(w, x, y);
    forall b | b in rows ensures IsIdentity(p, b) { assert IsIdentity(d, b); }
    forall id | id in p ensures HasIdentityOf(rows, p, id) { assert HasIdentityOf(rows, d, id); }
  }

  /** After the Tier-A half the table holds the known nodes and, with defaults, the new ones. */
  lemma TierAHalf(w: ND.Wiring, hashOf: Body -> RecordHash, e: Env, m: Tables, t: string, u: set<Body>,
                  peer: Table, x: ND.Directory, y: ND.Directory)
    requires ReadyTable(w, hashOf, e, t, u, TableOf(m, t), peer, x, y)
    ensures Represents(RoundA(e, m, t).0, ND.AfterTierA(x, y))
  {
    var here := TableOf(m, t);
    HonestRoundA(e, m, t, u, peer.a);
    assert ReadyNodes(hashOf, u, here.a, peer.a, x, y);
    IdentitiesArrive(hashOf, u, here.a, peer.a, x, y);
    BeatsOpen(hashOf, u, here, peer.a, x, y);
  }

  lemma AnswersInFull(rs: seq<RecordB>, peer: RowsB, plan: seq<string>)
    requires AnswersRows(rs, peer, plan) && Distinct(plan) && forall k :: k in plan ==> k in peer
    ensures |rs| == |plan| && Keep(KeyOf, rs, plan) == rs
  {
    AnswersAreKept(rs, peer, plan);
    forall k | k in plan ensures k in Labels(KeyOf, rs) {
      assert RecordB(k, peer[k]) in rs;
      LabelOf(KeyOf, rs, RecordB(k, peer[k]));
    }
    KeptCount(KeyOf, rs, plan);
  }

  lemma ServedBeats(e: Env, t: string, x: Table, plan: seq<string>, rs: seq<RecordB>)
    requires e.script.pullB(t, plan) == Got(rs) && Keep(KeyOf, rs, plan) == rs && |rs| == |plan|
    requires Outage(e.faults.applyB, t) == None && !FoldB(e.schema.specB(t), None, x.b, rs).thrown
    ensures var f := FoldB(e.schema.specB(t), None, x.b, rs);
      && ApplyB(e, t, x, plan).0 == Table(x.a, f.rows)
      && (e.schema.specB(t).disagrees.Some? ==>
            var c := ApplyB(e, t, x, plan).1;
            && c.planned == |plan| && c.pulled == |plan| && c.applied == f.changed && !c.failed && !c.aborted
            && c.divergent == |f.disagreeing|)
  {
    if plan == [] {
      assert rs == [];
    }
  }

  /** The engine's round over the shared table is `Pull`, in its rows, its plan and its verdict. */
  lemma EngineRoundIsPull(w: ND.Wiring, hashOf: Body -> RecordHash, e: Env, m: Tables, t: string, u: set<Body>,
                          peer: Table, x: ND.Directory, y: ND.Directory)
    requires ReadyTable(w, hashOf, e, t, u, TableOf(m, t), peer, x, y)
    ensures Represents(RoundB(e, m, t).0, ND.Pull(w, x, y))
    ensures PlanB(e, t, TableOf(m, t).b).Got? && Elements(WantedB(e, m, t)) == ND.Planned(w, x, y)
    ensures var c := RoundB(e, m, t).1;
      && c.planned == c.pulled == |ND.Planned(w, x, y)| && c.divergent == |ND.Divergent(w, x, y)|
      && !c.failed && !c.aborted
  {
    TierAHalf(w, hashOf, e, m, t, u, peer, x, y);
    TierBHalf(w, e, m, t, peer, x, y);
    PullKeepsIdentities(w, RoundA(e, m, t).0.a, x, y);
  }

  lemma TierBHalf(w: ND.Wiring, e: Env, m: Tables, t: string, peer: Table, x: ND.Directory, y: ND.Directory)
    requires e.schema.specB(t) == NodeSpecB(w) && ND.Sound(w) && HonestB(e, t, peer.b)
    requires BeatsOf(TableOf(m, t).b, x) && BeatsOf(peer.b, y)
    requires DiscernsB(e.digestB, Versions(NodeSpecB(w), TableOf(m, t).b), Versions(NodeSpecB(w), peer.b))
    requires BeatsOf(RoundA(e, m, t).0.b, ND.AfterTierA(x, y))
    ensures RoundB(e, m, t).0.a == RoundA(e, m, t).0.a && BeatsOf(RoundB(e, m, t).0.b, ND.Pull(w, x, y))
    ensures PlanB(e, t, TableOf(m, t).b).Got? && Elements(WantedB(e, m, t)) == ND.Planned(w, x, y)
    ensures var c := RoundB(e, m, t).1;
      && c.planned == c.pulled == |ND.Planned(w, x, y)| && c.divergent == |ND.Divergent(w, x, y)|
      && !c.failed && !c.aborted
  {
    PlannedIds(w, e, t, TableOf(m, t).b, peer.b, x, y);
    var plan, mid := WantedB(e, m, t), RoundA(e, m, t).0;
    var rs := e.script.pullB(t, plan).value;
    assert AnswersRows(rs, peer.b, plan);
    forall k | k in plan ensures k in peer.b { assert k in Elements(plan) && BeatAt(peer.b, y, k); }
    AnswersInFull(rs, peer.b, plan);
    BeatsMerge(w, mid.b, peer.b, x, y, plan, rs);
    ServedBeats(e, t, mid, plan, rs);
    DistinctLength(plan);
  }

  // ----- settled nodes, all tables -----

  lemma BeatsDetermine(r: RowsB, s: RowsB, d: ND.Directory)
    requires BeatsOf(r, d) && BeatsOf(s, d)
    ensures r == s
  {
    forall k ensures RowAt(r, k) == RowAt(s, k) { assert BeatAt(r, d, k) && BeatAt(s, d, k); }
    assert forall k :: k in r <==> RowAt(r, k).Some?;
    assert forall k :: k in s <==> RowAt(s, k).Some?;
    assert forall k :: k in r ==> RowAt(r, k) == Some(r[k]);
    assert forall k :: k in s ==> RowAt(s, k) == Some(s[k]);
  }

  /** Once the heartbeats agree the shared table is quiet; it plans and reports exactly the status
      disagreements. */
  lemma SettledNodesAreQuiet(w: ND.Wiring, hashOf: Body -> RecordHash, e: Env, m: Tables, t: string, u: set<Body>,
                             peer: Table, x: ND.Directory, y: ND.Directory)
    requires ReadyTable(w, hashOf, e, t, u, TableOf(m, t), peer, x, y) && ND.SameHeartbeats(x, y)
    requires OnlyUnsettled(e, m, t, peer.a)
    ensures QuietB(e, m, t)
    ensures RoundB(e, m, t).1.planned == RoundB(e, m, t).1.divergent == |ND.StatusForks(x, y)|
  {
    EngineRoundIsPull(w, hashOf, e, m, t, u, peer, x, y);
    ND.SettledRound(w, x, y);
    BeatsDetermine(RoundB(e, m, t).0.b, TableOf(m, t).b, x);
    NothingMoves(w, e, m, t, peer, x, y);
  }

  lemma NothingMoves(w: ND.Wiring, e: Env, m: Tables, t: string, peer: Table, x: ND.Directory, y: ND.Directory)
    requires e.schema.specB(t) == NodeSpecB(w) && ND.Sound(w) && HonestB(e, t, peer.b) && ND.SameHeartbeats(x, y)
    requires BeatsOf(TableOf(m, t).b, x) && BeatsOf(peer.b, y) && RoundA(e, m, t).0 == TableOf(m, t)
    requires DiscernsB(e.digestB, Versions(NodeSpecB(w), TableOf(m, t).b), Versions(NodeSpecB(w), peer.b))
    ensures RoundB(e, m, t).0 == TableOf(m, t) && RoundB(e, m, t).1.applied == 0
  {
    PlannedIds(w, e, t, TableOf(m, t).b, peer.b, x, y);
    var plan, here := WantedB(e, m, t), TableOf(m, t);
    var rs := e.script.pullB(t, plan).value;
    assert AnswersRows(rs, peer.b, plan);
    forall k | k in plan ensures k in peer.b { assert k in Elements(plan) && BeatAt(peer.b, y, k); }
    AnswersInFull(rs, peer.b, plan);
    forall i | 0 <= i < |rs|
      ensures Sound(NodeSpecB(w), rs[i]) && rs[i].key in here.b && !Moves(NodeSpecB(w), here.b[rs[i].key], rs[i].body)
    {
      assert rs[i] in rs;
      SameBeatStays(w, here.b, peer.b, x, y, rs[i].key);
    }
    FoldBStill(NodeSpecB(w), here.b, rs);
    ServedBeats(e, t, here, plan, rs);
  }

  lemma SameBeatStays(w: ND.Wiring, rows: RowsB, peer: RowsB, x: ND.Directory, y: ND.Directory, id: string)
    requires ND.Sound(w) && ND.SameHeartbeats(x, y) && BeatsOf(rows, x) && BeatsOf(peer, y) && id in peer
    ensures id in rows && !Moves(NodeSpecB(w), rows[id], peer[id]) && Sound(NodeSpecB(w), RecordB(id, peer[id]))
  {
    assert BeatAt(rows, x, id) && BeatAt(peer, y, id);
    var r, s := x[id], y[id];
    BeatLands(w, rows, id, r, s);
    HeartbeatKeepsLater(w.num, w.json, ND.BeatOf(id, r), ND.BeatOf(id, s));
    BeatFacts(w, id, r);
    BeatFacts(w, id, s);
  }

  /** The whole state of two nodes that have settled; `t` is the shared table. */
  ghost predicate Steady(w: ND.Wiring, hashOf: Body -> RecordHash, e: Env, m: Tables, pm: Tables,
                         u: string -> set<Body>,
                         t: string, x: ND.Directory, y: ND.Directory)
  {
    && e.faults.readA == {} && e.faults.readB == {}
    && ReadyTable(w, hashOf, e, t, u(t), TableOf(m, t), TableOf(pm, t), x, y) && ND.SameHeartbeats(x, y)
    && SettledTables(e, m, pm, u)
    && (forall s :: s in e.schema.tierB && s != t ==>
          ReadyB(e, s, TableOf(m, s).b, TableOf(pm, s).b) && TableOf(m, s).b == TableOf(pm, s).b)
  }

  /** Every later round between the two, over all tables of both tiers: it finishes, changes no row,
      fetches all it plans, fails nowhere; it plans exactly the unsettled append-only records and
      the status disagreements, and reports exactly their numbers as divergent. */
  lemma SteadyRound(w: ND.Wiring, hashOf: Body -> RecordHash, e: Env, m: Tables, pm: Tables, u: string -> set<Body>,
                    t: string, x: ND.Directory, y: ND.Directory)
    requires Steady(w, hashOf, e, m, pm, u, t, x, y)
    ensures !Dies(e, m) && forall s :: RoundB(e, m, s).0 == TableOf(m, s)
    ensures forall s :: s in e.schema.tierA ==> OnlyUnsettled(e, m, s, TableOf(pm, s).a)
    ensures forall s :: s in e.schema.tierB && s != t ==> RoundB(e, m, s).1.planned == 0
    ensures RoundB(e, m, t).1.planned == RoundB(e, m, t).1.divergent == |ND.StatusForks(x, y)|
    ensures var r := Result(e, m);
      && r.a.applied == 0 && r.b.applied == 0 && r.Pulled() == r.Planned() && r.Failures() == []
      && (AppendsAgree(e, m, pm) && ND.StatusForks(x, y) == {} ==> r.Planned() == 0)
  {
    forall s | s in e.schema.tierA ensures OnlyUnsettled(e, m, s, TableOf(pm, s).a) {
      SteadyTables(e, m, pm, u, s);
    }
    SettledNodesAreQuiet(w, hashOf, e, m, t, u(t), TableOf(pm, t), x, y);
    forall s | s in e.schema.tierB ensures QuietB(e, m, s) && (s != t ==> RoundB(e, m, s).1.planned == 0) {
      if s != t {
        EqualTablesAreQuiet(e, m, s, TableOf(pm, s).b);
      }
    }
    QuietRound(e, m, pm);
  }

  // ----- one round each way -----

  /** Everything is in place for a round of `m` against an honest peer holding `pm`. */
  ghost predicate RoundReady(w: ND.Wiring, hashOf: Body -> RecordHash, e: Env, m: Tables, pm: Tables,
                             u: string -> set<Body>,
                             t: string, x: ND.Directory, y: ND.Directory)
  {
    && e.faults.readA == {} && e.faults.readB == {}
    && ReadyTable(w, hashOf, e, t, u(t), TableOf(m, t), TableOf(pm, t), x, y)
    && (forall s :: s in e.schema.tierA ==> ReadyA(e, s, u(s), TableOf(m, s).a, TableOf(pm, s).a))
    && (forall s :: s in e.schema.tierB && s != t ==> ReadyB(e, s, TableOf(m, s).b, TableOf(pm, s).b))
  }

  /** Nothing more can pass between the two, in either direction. */
  ghost predicate Rested(schema: Schema, t: string, m: Tables, pm: Tables) {
    && (forall s :: s in schema.tierA ==> RestedA(schema, m, pm, s))
    && (forall s :: s in schema.tierB && s != t ==> TableOf(m, s).b == TableOf(pm, s).b)
  }

  ghost predicate RestedA(schema: Schema, m: Tables, pm: Tables, s: string) {
    && Closed(SpecIn(schema, m, s), TableOf(m, s).a, TableOf(pm, s).a)
    && Closed(SpecIn(schema, pm, s), TableOf(pm, s).a, TableOf(m, s).a)
  }

  /** Parents are registered before their children. */
  ghost predicate Ordered(schema: Schema) {
    forall t :: t in schema.tierA && schema.parent(t).Some? ==>
      Position(schema.tierA, schema.parent(t).value.table) < Position(schema.tierA, t)
  }

  lemma RestedIsSteady(w: ND.Wiring, hashOf: Body -> RecordHash, e: Env, m: Tables, pm: Tables, u: string -> set<Body>,
                       t: string, x: ND.Directory, y: ND.Directory)
    requires RoundReady(w, hashOf, e, m, pm, u, t, x, y) && Rested(e.schema, t, m, pm) && ND.SameHeartbeats(x, y)
    ensures Steady(w, hashOf, e, m, pm, u, t, x, y)
  {
    forall s | s in e.schema.tierA
      ensures ReadyA(e, s, u(s), TableOf(m, s).a, TableOf(pm, s).a)
      ensures Closed(SpecIn(e.schema, m, s), TableOf(m, s).a, TableOf(pm, s).a)
    {
      assert RestedA(e.schema, m, pm, s);
    }
  }

  /** The round left exactly the tables its own functions say. */
  ghost predicate Leaves(e: Env, m: Tables, after: Tables) {
    AllSettled(RoundsB(e, m), after)
  }

  lemma LeftTable(e: Env, m: Tables, after: Tables, s: string)
    requires Leaves(e, m, after)
    ensures TableOf(after, s) == RoundB(e, m, s).0 && TableOf(after, s).a == RoundA(e, m, s).0.a
  {
    assert Settled(RoundsB(e, m), after, s) && RoundsB(e, m)(s) == RoundB(e, m, s);
  }

  /** With parents first, a child was checked against the very parent rows the round left. */
  lemma CheckedAgainstTheResult(e: Env, m: Tables, after: Tables, s: string)
    requires Ordered(e.schema) && Leaves(e, m, after) && s in e.schema.tierA
    ensures SpecAt(e, m, s) == SpecIn(e.schema, after, s)
  {
    if e.schema.parent(s).Some? {
      LeftTable(e, m, after, e.schema.parent(s).value.table);
    }
  }

  lemma RestAfterBothA(e: Env, f: Env, x: Tables, y: Tables, x1: Tables, y1: Tables, u: set<Body>, s: string)
    requires e.schema == f.schema && Ordered(e.schema) && Leaves(e, x, x1) && Leaves(f, y, y1) && s in e.schema.tierA
    requires ReadyA(e, s, u, TableOf(x, s).a, TableOf(y, s).a) && ReadyA(f, s, u, TableOf(y, s).a, TableOf(x1, s).a)
    ensures RestedA(e.schema, x1, y1, s)
  {
    LeftTable(e, x, x1, s);
    LeftTable(f, y, y1, s);
    CheckedAgainstTheResult(e, x, x1, s);
    CheckedAgainstTheResult(f, y, y1, s);
    TwoRoundsSettleA(e, f, s, u, x, y);
  }

  lemma RestAfterBothB(e: Env, f: Env, x: Tables, y: Tables, x1: Tables, y1: Tables, s: string)
    requires e.schema == f.schema && Leaves(e, x, x1) && Leaves(f, y, y1)
    requires ReadyB(e, s, TableOf(x, s).b, TableOf(y, s).b) && ReadyB(f, s, TableOf(y, s).b, TableOf(x1, s).b)
    ensures TableOf(x1, s).b == TableOf(y1, s).b
  {
    LeftTable(e, x, x1, s);
    LeftTable(f, y, y1, s);
    TwoRoundsSettleB(e, f, s, x, y);
  }

  lemma NodesAfterBoth(w: ND.Wiring, hashOf: Body -> RecordHash, e: Env, x: Tables, y: Tables, x1: Tables, u: set<Body>,
                       t: string, dx: ND.Directory, dy: ND.Directory)
    requires ReadyTable(w, hashOf, e, t, u, TableOf(x, t), TableOf(y, t), dx, dy) && Leaves(e, x, x1)
    ensures Represents(TableOf(x1, t), ND.Pull(w, dx, dy))
  {
    EngineRoundIsPull(w, hashOf, e, x, t, u, TableOf(y, t), dx, dy);
    LeftTable(e, x, x1, t);
  }

  /** After one round each way, `x` pulling first, the two nodes have settled: every table of both
      tiers, and the shared one exactly when no node only `x` knew was older than the default. */
  lemma TwoRoundsSettle(w: ND.Wiring, hashOf: Body -> RecordHash, e: Env, f: Env, x: Tables, y: Tables, x1: Tables,
                        y1: Tables,
                        u: string -> set<Body>, t: string, dx: ND.Directory, dy: ND.Directory)
    requires e.schema == f.schema && Ordered(e.schema) && Leaves(e, x, x1) && Leaves(f, y, y1)
    requires RoundReady(w, hashOf, e, x, y, u, t, dx, dy)
    requires RoundReady(w, hashOf, f, y, x1, u, t, dy, ND.Pull(w, dx, dy))
    ensures var d1 := ND.Pull(w, dx, dy); var d2 := ND.Pull(w, dy, d1);
      && Rested(e.schema, t, x1, y1) && Rested(e.schema, t, y1, x1)
      && Represents(TableOf(x1, t), d1) && Represents(TableOf(y1, t), d2)
      && (ND.SameHeartbeats(d1, d2) <==> forall id :: ND.NoEarlyRow(w, dx, dy, id))
  {
    var d1 := ND.Pull(w, dx, dy);
    forall s | s in e.schema.tierA ensures RestedA(e.schema, x1, y1, s) && RestedA(e.schema, y1, x1, s) {
      RestAfterBothA(e, f, x, y, x1, y1, u(s), s);
    }
    forall s | s in e.schema.tierB && s != t ensures TableOf(x1, s).b == TableOf(y1, s).b {
      RestAfterBothB(e, f, x, y, x1, y1, s);
    }
    NodesAfterBoth(w, hashOf, e, x, y, x1, u(t), t, dx, dy);
    NodesAfterBoth(w, hashOf, f, y, x1, y1, u(t), t, dy, d1);
    ND.TwoPullsSettleExactly(w, dx, dy, d1, ND.Pull(w, dy, d1));
  }

  /** Two nodes, and rounds between them: `true` is the first one pulling. */
  datatype Pass = Pass(first: bool, e: Env)
  type Pair = (Tables, Tables)

  ghost predicate Exchanged(turn: Pass, p: Pair, q: Pair) {
    if turn.first then Leaves(turn.e, p.0, q.0) && q.1 == p.1 else Leaves(turn.e, p.1, q.1) && q.0 == p.0
  }

  ghost predicate TurnReady(w: ND.Wiring, hashOf: Body -> RecordHash, turn: Pass, schema: Schema, p: Pair,
                            u: string -> set<Body>, t: string, x: ND.Directory, y: ND.Directory)
  {
    && turn.e.schema == schema
    && if turn.first then RoundReady(w, hashOf, turn.e, p.0, p.1, u, t, x, y)
       else RoundReady(w, hashOf, turn.e, p.1, p.0, u, t, y, x)
  }

  ghost predicate SameTables(p: Tables, q: Tables) {
    forall s :: TableOf(p, s) == TableOf(q, s)
  }

  lemma RestedStays(schema: Schema, t: string, m: Tables, pm: Tables, m': Tables, pm': Tables)
    requires Rested(schema, t, m, pm) && SameTables(m, m') && SameTables(pm, pm')
    ensures Rested(schema, t, m', pm')
  {
    forall s | s in schema.tierA ensures RestedA(schema, m', pm', s) {
      assert RestedA(schema, m, pm, s) && TableOf(m, s) == TableOf(m', s) && TableOf(pm, s) == TableOf(pm', s);
      SameSpecIn(schema, m, m', s);
      SameSpecIn(schema, pm, pm', s);
    }
    forall s | s in schema.tierB && s != t ensures TableOf(m', s).b == TableOf(pm', s).b {
      assert TableOf(m, s) == TableOf(m', s) && TableOf(pm, s) == TableOf(pm', s);
    }
  }

  lemma SameSpecIn(schema: Schema, m: Tables, m': Tables, s: string)
    requires SameTables(m, m')
    ensures SpecIn(schema, m, s) == SpecIn(schema, m', s)
  {
    if schema.parent(s).Some? {
      assert TableOf(m, schema.parent(s).value.table) == TableOf(m', schema.parent(s).value.table);
    }
  }

  /** One later round, in either direction: nothing changes. */
  lemma OneLaterRound(w: ND.Wiring, hashOf: Body -> RecordHash, turn: Pass, schema: Schema, p: Pair, q: Pair,
                      u: string -> set<Body>, t: string, x: ND.Directory, y: ND.Directory)
    requires TurnReady(w, hashOf, turn, schema, p, u, t, x, y) && Exchanged(turn, p, q)
    requires Rested(schema, t, p.0, p.1) && Rested(schema, t, p.1, p.0) && ND.SameHeartbeats(x, y)
    ensures SameTables(p.0, q.0) && SameTables(p.1, q.1)
  {
    if turn.first {
      OneQuietRound(w, hashOf, turn.e, p.0, p.1, q.0, u, t, x, y);
    } else {
      OneQuietRound(w, hashOf, turn.e, p.1, p.0, q.1, u, t, y, x);
    }
  }

  lemma OneQuietRound(w: ND.Wiring, hashOf: Body -> RecordHash, e: Env, m: Tables, pm: Tables, after: Tables,
                      u: string -> set<Body>, t: string, x: ND.Directory, y: ND.Directory)
    requires RoundReady(w, hashOf, e, m, pm, u, t, x, y) && Rested(e.schema, t, m, pm) && ND.SameHeartbeats(x, y)
    requires Leaves(e, m, after)
    ensures SameTables(m, after)
  {
    RestedIsSteady(w, hashOf, e, m, pm, u, t, x, y);
    SteadyRound(w, hashOf, e, m, pm, u, t, x, y);
    forall s ensures TableOf(m, s) == TableOf(after, s) { LeftTable(e, m, after, s); }
  }

  /** Once two nodes have settled, no sequence of honest rounds in either direction changes a row of
      any table on either of them. */
  lemma {:induction false} NoLaterRoundChangesAnything(w: ND.Wiring, hashOf: Body -> RecordHash, schema: Schema,
                                                       turns: seq<Pass>,
                                                       states: seq<Pair>, u: string -> set<Body>, t: string,
                                                       x: ND.Directory, y: ND.Directory)
    requires |states| == |turns| + 1 && ND.SameHeartbeats(x, y)
    requires forall i :: 0 <= i < |turns| ==>
      TurnReady(w, hashOf, turns[i], schema, states[i], u, t, x, y) && Exchanged(turns[i], states[i], states[i + 1])
    requires Rested(schema, t, states[0].0, states[0].1) && Rested(schema, t, states[0].1, states[0].0)
    ensures SameTables(states[0].0, states[|turns|].0) && SameTables(states[0].1, states[|turns|].1)
    decreases |turns|
  {
    if turns != [] {
      var n := |turns| - 1;
      NoLaterRoundChangesAnything(w, hashOf, schema, turns[..n], states[..n + 1], u, t, x, y);
      var p, q := states[n], states[n + 1];
      RestedStays(schema, t, states[0].0, states[0].1, p.0, p.1);
      RestedStays(schema, t, states[0].1, states[0].0, p.1, p.0);
      OneLaterRound(w, hashOf, turns[n], schema, p, q, u, t, x, y);
      SameTablesTransitive(states[0].0, p.0, q.0);
      SameTablesTransitive(states[0].1, p.1, q.1);
    }
  }

  lemma SameTablesTransitive(p: Tables, q: Tables, r: Tables)
    requires SameTables(p, q) && SameTables(q, r)
    ensures SameTables(p, r)
  {
    forall s ensures TableOf(p, s) == TableOf(r, s) { assert TableOf(p, s) == TableOf(q, s); }
  }

  /** The composition: after one honest round each way, and where no node only `x` knew was older
      than the default, no sequence of further honest rounds changes a row of any table. */
  lemma OneRoundEachSettlesForGood(w: ND.Wiring, hashOf: Body -> RecordHash, e: Env, f: Env, x: Tables, y: Tables,
                                   u: string -> set<Body>, t: string, dx: ND.Directory, dy: ND.Directory,
                                   turns: seq<Pass>, states: seq<Pair>)
    requires e.schema == f.schema && Ordered(e.schema) && |states| == |turns| + 1
    requires Leaves(e, x, states[0].0) && Leaves(f, y, states[0].1)
    requires RoundReady(w, hashOf, e, x, y, u, t, dx, dy)
    requires RoundReady(w, hashOf, f, y, states[0].0, u, t, dy, ND.Pull(w, dx, dy))
    requires forall id :: ND.NoEarlyRow(w, dx, dy, id)
    requires var d1 := ND.Pull(w, dx, dy); var d2 := ND.Pull(w, dy, d1);
      forall i :: 0 <= i < |turns| ==>
        TurnReady(w, hashOf, turns[i], e.schema, states[i], u, t, d1, d2)
            && Exchanged(turns[i], states[i], states[i + 1])
    ensures SameTables(states[0].0, states[|turns|].0) && SameTables(states[0].1, states[|turns|].1)
  {
    var d1 := ND.Pull(w, dx, dy);
    TwoRoundsSettle(w, hashOf, e, f, x, y, states[0].0, states[0].1, u, t, dx, dy);
    NoLaterRoundChangesAnything(w, hashOf, e.schema, turns, states, u, t, d1, ND.Pull(w, dy, d1));
  }

  /** And each of those rounds finds the nodes steady, whichever side pulls. */
  lemma TwoRoundsMakeSteady(w: ND.Wiring, hashOf: Body -> RecordHash, e: Env, f: Env, g: Env, h: Env, x: Tables,
                            y: Tables,
                            x1: Tables, y1: Tables, u: string -> set<Body>, t: string, dx: ND.Directory,
                                dy: ND.Directory)
    requires e.schema == f.schema == g.schema == h.schema && Ordered(e.schema) && Leaves(e, x, x1) && Leaves(f, y, y1)
    requires RoundReady(w, hashOf, e, x, y, u, t, dx, dy)
    requires RoundReady(w, hashOf, f, y, x1, u, t, dy, ND.Pull(w, dx, dy))
    requires forall id :: ND.NoEarlyRow(w, dx, dy, id)
    requires var d1 := ND.Pull(w, dx, dy); var d2 := ND.Pull(w, dy, d1);
      RoundReady(w, hashOf, g, x1, y1, u, t, d1, d2) && RoundReady(w, hashOf, h, y1, x1, u, t, d2, d1)
    ensures var d1 := ND.Pull(w, dx, dy); var d2 := ND.Pull(w, dy, d1);
      Steady(w, hashOf, g, x1, y1, u, t, d1, d2) && Steady(w, hashOf, h, y1, x1, u, t, d2, d1)
  {
    var d1 := ND.Pull(w, dx, dy);
    var d2 := ND.Pull(w, dy, d1);
    TwoRoundsSettle(w, hashOf, e, f, x, y, x1, y1, u, t, dx, dy);
    RestedIsSteady(w, hashOf, g, x1, y1, u, t, d1, d2);
    RestedIsSteady(w, hashOf, h, y1, x1, u, t, d2, d1);
  }
}
