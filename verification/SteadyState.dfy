/** Two nodes that have pulled from each other once: from then on no round in either direction
    changes a row. Append-only conflicts are allowed, under the natural key or under any other
    constraint; they are what every later round plans, and all it plans. */
module SteadyState {
  import opened Ordering
  import opened Reconciliation
  import opened Merges
  import opened Rows
  import opened Store
  import opened Channel
  import opened Engine
  import opened RoundProperties

  // ----- an honest peer, one Tier-A table -----

  /** The rows in play: hashes tell them apart, they pass the checks before an INSERT, and what a
      constraint refuses beside some rows it refuses beside more. */
  ghost predicate Universe(spec: SpecA, u: set<Body>) {
    && (forall x, y :: x in u && y in u && spec.hashOf(x) == spec.hashOf(y) ==> x == y)
    && (forall x :: x in u ==> Genuine(spec, RecordA(spec.hashOf(x), x)))
    && (forall rows, x, y :: x in u && !spec.accepts(rows, x) ==> !spec.accepts(rows + [y], x))
  }

  ghost predicate Sane(spec: SpecA, u: set<Body>, rows: RowsA) {
    KeysDistinct(spec, rows) && forall x :: x in rows ==> x in u
  }

  /** No row of the peer's could be inserted here. */
  ghost predicate Closed(spec: SpecA, rows: RowsA, peer: RowsA) {
    forall x :: x in peer ==> !Inserts(spec, rows, x)
  }

  /** Rows of the peer whose natural key is bound here to different content. */
  ghost predicate Conflicting(spec: SpecA, rows: RowsA, x: Body) {
    exists r :: r in rows && spec.keyOf(r) == spec.keyOf(x) && r != x
  }

  /** Rows of the peer that can never land here: bound to different content, or refused by some
      other constraint. */
  ghost function Unsettled(spec: SpecA, rows: RowsA, peer: RowsA): set<Body> {
    set x | x in peer && (Conflicting(spec, rows, x) || (!Bound(spec, rows, spec.keyOf(x)) && !spec.accepts(rows, x)))
  }

  function Wanted(spec: SpecA, rows: RowsA, peer: RowsA): seq<string> {
    MissingLocally(Hashes(spec, rows), Hashes(spec, peer))
  }

  /** The table after pulling from an honest peer. */
  function Pulled(spec: SpecA, rows: RowsA, peer: RowsA): BatchA {
    FoldA(spec, {}, rows, Serve(spec, peer, Wanted(spec, rows, peer)))
  }

  lemma HashesElements(spec: SpecA, rows: RowsA)
    ensures Elements(Hashes(spec, rows)) == set x | x in rows :: spec.hashOf(x)
  {
    var hs := Hashes(spec, rows);
    forall x | x in rows ensures spec.hashOf(x) in hs {
      var i :| 0 <= i < |rows| && rows[i] == x;
      assert hs[i] == spec.hashOf(x);
    }
    forall h | h in hs ensures exists x :: x in rows && spec.hashOf(x) == h {
      var i :| 0 <= i < |hs| && hs[i] == h;
      assert rows[i] in rows;
    }
  }

  /** What is wanted: exactly the hashes of the peer's rows that are not held here. */
  lemma WantedRows(spec: SpecA, u: set<Body>, rows: RowsA, peer: RowsA)
    requires Universe(spec, u) && Sane(spec, u, rows) && Sane(spec, u, peer)
    ensures Distinct(Wanted(spec, rows, peer))
    ensures forall x :: x in u ==> (spec.hashOf(x) in Wanted(spec, rows, peer) <==> x in peer && x !in rows)
    ensures forall h :: h in Wanted(spec, rows, peer) ==> exists x :: x in peer && x !in rows && spec.hashOf(x) == h
  {
    HashesElements(spec, rows);
    HashesElements(spec, peer);
    MissingLocallyIsDifference(Hashes(spec, rows), Hashes(spec, peer));
    var w := Wanted(spec, rows, peer);
    forall h ensures h in w <==> h in Elements(w) {}
    forall x | x in u ensures spec.hashOf(x) in w <==> x in peer && x !in rows {
      if spec.hashOf(x) in Elements(w) {
        var y :| y in peer && spec.hashOf(y) == spec.hashOf(x);
      }
    }
  }

  lemma ServedForWanted(spec: SpecA, u: set<Body>, rows: RowsA, peer: RowsA)
    requires Universe(spec, u) && Sane(spec, u, rows) && Sane(spec, u, peer)
    ensures var rs := Serve(spec, peer, Wanted(spec, rows, peer));
      && (forall r :: r in rs ==> Genuine(spec, r) && r.body in peer && r.body !in rows)
      && (forall x :: x in peer && x !in rows ==> RecordA(spec.hashOf(x), x) in rs)
  {
    ServedAreTheRows(spec, peer, Wanted(spec, rows, peer));
    WantedRows(spec, u, rows, peer);
  }

  lemma StaysOut(spec: SpecA, u: set<Body>, rows: RowsA, x: Body, y: Body)
    requires Universe(spec, u) && x in u && !Inserts(spec, rows, x)
    ensures !Inserts(spec, rows + [y], x)
  {
    if Bound(spec, rows, spec.keyOf(x)) {
      var i :| 0 <= i < |rows| && spec.keyOf(rows[i]) == spec.keyOf(x);
      assert (rows + [y])[i] == rows[i];
    }
  }

  lemma NowBound(spec: SpecA, rows: RowsA, x: Body)
    requires x in rows
    ensures Bound(spec, rows, spec.keyOf(x))
  {
    var i :| 0 <= i < |rows| && rows[i] == x;
  }

  /** After a batch of genuine rows none of them could be inserted any more, nor could any row
      that could not before. */
  lemma {:induction false} FoldACloses(spec: SpecA, u: set<Body>, rows: RowsA, records: seq<RecordA>)
    requires Universe(spec, u) && forall r :: r in records ==> Genuine(spec, r) && r.body in u
    ensures var f := FoldA(spec, {}, rows, records);
      && !f.thrown
      && (forall r :: r in records ==> !Inserts(spec, f.rows, r.body))
      && (forall x :: x in u && !Inserts(spec, rows, x) ==> !Inserts(spec, f.rows, x))
      && forall x :: x in f.rows ==> x in rows || exists r :: r in records && r.body == x
  {
    if records != [] {
      var n := |records| - 1;
      FoldACloses(spec, u, rows, records[..n]);
      var before, after := FoldA(spec, {}, rows, records[..n]).rows, FoldA(spec, {}, rows, records).rows;
      assert records == records[..n] + [records[n]] && records[n] in records;
      if after != before {
        forall x | x in u && !Inserts(spec, before, x) ensures !Inserts(spec, after, x) {
          StaysOut(spec, u, before, x, records[n].body);
        }
        NowBound(spec, after, records[n].body);
      }
    }
  }

  /** A pull takes from the peer all it can: what the peer holds beyond it could not be inserted.
      It keeps its own rows, adds only rows of the peer's, and stays among the rows in play. */
  lemma PullExhaustsThePeer(spec: SpecA, u: set<Body>, rows: RowsA, peer: RowsA)
    requires Universe(spec, u) && Sane(spec, u, rows) && Sane(spec, u, peer)
    ensures var p := Pulled(spec, rows, peer);
      && !p.thrown && Sane(spec, u, p.rows) && Closed(spec, p.rows, peer)
      && |rows| <= |p.rows| && p.rows[..|rows|] == rows && (forall x :: x in p.rows ==> x in rows || x in peer)
      && forall x :: x in u && !Inserts(spec, rows, x) ==> !Inserts(spec, p.rows, x)
  {
    var rs := Serve(spec, peer, Wanted(spec, rows, peer));
    ServedForWanted(spec, u, rows, peer);
    FoldACloses(spec, u, rows, rs);
    FoldAOnlyAppends(spec, {}, rows, rs);
    var p := Pulled(spec, rows, peer);
    forall x | x in peer ensures !Inserts(spec, p.rows, x) {
      if x in rows {
        assert x in p.rows[..|rows|];
        NowBound(spec, p.rows, x);
      } else {
        assert RecordA(spec.hashOf(x), x) in rs;
      }
    }
  }

  /** Once nothing of the peer's can be inserted, a pull changes nothing and wants exactly the
      unsettled rows, one hash each. */
  lemma SettledPull(spec: SpecA, u: set<Body>, rows: RowsA, peer: RowsA)
    requires Universe(spec, u) && Sane(spec, u, rows) && Sane(spec, u, peer) && Closed(spec, rows, peer)
    ensures Pulled(spec, rows, peer) == BatchA(rows, 0, false)
    ensures Elements(Wanted(spec, rows, peer)) == set x | x in Unsettled(spec, rows, peer) :: spec.hashOf(x)
    ensures |Wanted(spec, rows, peer)| == |Unsettled(spec, rows, peer)|
  {
    var rs, w, cs := Serve(spec, peer, Wanted(spec, rows, peer)), Wanted(spec, rows, peer), Unsettled(spec, rows, peer);
    ServedForWanted(spec, u, rows, peer);
    WantedRows(spec, u, rows, peer);
    FoldAOnClosedRows(spec, rows, rs);
    UnsettledAreTheMissing(spec, u, rows, peer);
    assert Elements(w) == set x | x in cs :: spec.hashOf(x);
    DistinctLength(w);
    ImageSize(spec, u, cs);
  }

  /** Unsettled is exactly not held. */
  lemma UnsettledAreTheMissing(spec: SpecA, u: set<Body>, rows: RowsA, peer: RowsA)
    requires Sane(spec, u, rows) && Sane(spec, u, peer) && Closed(spec, rows, peer)
    ensures forall x :: x in Unsettled(spec, rows, peer) <==> x in peer && x !in rows
    ensures Unsettled(spec, rows, peer) <= u
  {
    forall x | x in peer ensures x in Unsettled(spec, rows, peer) <==> x !in rows {
      if x in rows {
        NowBound(spec, rows, x);
        HeldDoesNotConflict(spec, rows, x);
      } else if Bound(spec, rows, spec.keyOf(x)) {
        var i :| 0 <= i < |rows| && spec.keyOf(rows[i]) == spec.keyOf(x);
        assert rows[i] in rows;
      }
    }
  }

  lemma HeldDoesNotConflict(spec: SpecA, rows: RowsA, x: Body)
    requires KeysDistinct(spec, rows) && x in rows
    ensures !Conflicting(spec, rows, x)
  {
    forall q | q in rows && spec.keyOf(q) == spec.keyOf(x) ensures q == x {
      var i :| 0 <= i < |rows| && rows[i] == q;
      var j :| 0 <= j < |rows| && rows[j] == x;
    }
  }

  lemma {:induction false} FoldAOnClosedRows(spec: SpecA, rows: RowsA, records: seq<RecordA>)
    requires forall r :: r in records ==> Genuine(spec, r) && !Inserts(spec, rows, r.body)
    ensures FoldA(spec, {}, rows, records) == BatchA(rows, 0, false)
  {
    if records != [] {
      FoldAOnClosedRows(spec, rows, records[..|records| - 1]);
      assert records[|records| - 1] in records;
    }
  }

  lemma {:induction false} ImageSize(spec: SpecA, u: set<Body>, s: set<Body>)
    requires Universe(spec, u) && s <= u
    ensures |set x | x in s :: spec.hashOf(x)| == |s|
  {
    var image := set x | x in s :: spec.hashOf(x);
    if s != {} {
      var x :| x in s;
      ImageSize(spec, u, s - {x});
      var rest := set y | y in s - {x} :: spec.hashOf(y);
      assert image == rest + {spec.hashOf(x)} && spec.hashOf(x) !in rest;
    }
  }

  /** The two tables after each side has pulled once, the first node first. The two nodes register
      the table alike but check its foreign key each against their own parent table: `r` and `s`. */
  function AfterBoth(r: SpecA, s: SpecA, x: RowsA, y: RowsA): (RowsA, RowsA) {
    var x1 := Pulled(r, x, y).rows;
    (x1, Pulled(s, y, x1).rows)
  }

  /** Any further rounds; `true` is the first node pulling from the second. */
  function Exchange(r: SpecA, s: SpecA, p: (RowsA, RowsA), rounds: seq<bool>): (RowsA, RowsA) {
    if rounds == [] then p
    else
      var q := Exchange(r, s, p, rounds[..|rounds| - 1]);
      if rounds[|rounds| - 1] then (Pulled(r, q.0, q.1).rows, q.1) else (q.0, Pulled(s, q.1, q.0).rows)
  }

  ghost predicate SettledPair(r: SpecA, s: SpecA, u: set<Body>, p: (RowsA, RowsA)) {
    && Sane(r, u, p.0) && Sane(r, u, p.1) && Closed(r, p.0, p.1) && Closed(s, p.1, p.0)
  }

  lemma SaneCoding(r: SpecA, s: SpecA, u: set<Body>, rows: RowsA)
    requires SameCoding(r, s)
    ensures Sane(r, u, rows) <==> Sane(s, u, rows)
  {
  }

  lemma TwoPullsSettle(r: SpecA, s: SpecA, u: set<Body>, x: RowsA, y: RowsA)
    requires SameCoding(r, s) && Universe(r, u) && Universe(s, u) && Sane(r, u, x) && Sane(r, u, y)
    ensures SettledPair(r, s, u, AfterBoth(r, s, x, y))
  {
    var x1 := Pulled(r, x, y).rows;
    PullExhaustsThePeer(r, u, x, y);
    SaneCoding(r, s, u, x1);
    SaneCoding(r, s, u, y);
    PullExhaustsThePeer(s, u, y, x1);
    var y1 := Pulled(s, y, x1).rows;
    SaneCoding(r, s, u, y1);
    forall z | z in y1 ensures !Inserts(r, x1, z) {
      if z !in y {
        NowBound(r, x1, z);
      }
    }
  }

  /** After one pull each way, no later round in either direction changes a row. */
  lemma {:induction false} NoLaterRoundChangesARow(r: SpecA, s: SpecA, u: set<Body>, p: (RowsA, RowsA),
                                                   rounds: seq<bool>)
    requires SameCoding(r, s) && Universe(r, u) && Universe(s, u) && SettledPair(r, s, u, p)
    ensures Exchange(r, s, p, rounds) == p
  {
    if rounds != [] {
      NoLaterRoundChangesARow(r, s, u, p, rounds[..|rounds| - 1]);
      SettledPull(r, u, p.0, p.1);
      SaneCoding(r, s, u, p.0);
      SaneCoding(r, s, u, p.1);
      SettledPull(s, u, p.1, p.0);
    }
  }

  // ----- the same, in the engine's terms -----

  /** The peer answers about table `t` from the rows `peer`, and nothing fails here. */
  ghost predicate HonestA(e: Env, t: string, peer: RowsA) {
    var theirs := Hashes(e.schema.specA(t), peer);
    && t in e.schema.tierA && FaultFree(e.faults, t)
    && Digest(e.state.tierA, t) == Some(TableDigest(e.sha, theirs))
    && AnswersFrom(e.sha, e.script, t, theirs)
    && forall want :: e.script.pullA(t, want) == Got(Serve(e.schema.specA(t), peer, want))
  }

  /** SHA-256 has no collision among the texts hashed to compare the two tables. */
  ghost predicate Discerns(sha: string -> string, mine: seq<string>, theirs: seq<string>)
    requires AllWellFormed(mine) && AllWellFormed(theirs)
  {
    (forall x :: |sha(x)| == HASH_CHARS) && CollisionFree(sha, HashedTexts(sha, mine, theirs))
  }

  lemma NoMembers<T>(s: seq<T>)
    ensures s == [] <==> Elements(s) == {}
  {
    if s != [] {
      assert s[0] in Elements(s);
    }
  }

  lemma HonestPlanA(e: Env, t: string, rows: RowsA, peer: RowsA)
    requires HonestA(e, t, peer)
    requires Discerns(e.sha, Hashes(e.schema.specA(t), rows), Hashes(e.schema.specA(t), peer))
    ensures PlanA(e, t, rows) == Got(Wanted(e.schema.specA(t), rows, peer))
  {
    var spec := e.schema.specA(t);
    var mine, theirs := Hashes(spec, rows), Hashes(spec, peer);
    if ComparesA(e, t, mine) {
      WalkIsFullExchange(e.sha, e.script, e.faults.rereadA, t, mine, theirs);
    } else {
      TableDigestIsExact(e.sha, mine, theirs);
      MissingLocallyIsDifference(mine, theirs);
      NoMembers(Wanted(spec, rows, peer));
    }
  }

  lemma {:induction false} KeepsAll<R>(name: R -> string, raw: seq<R>, requested: seq<string>)
    requires Distinct(Labels(name, raw)) && forall h :: h in Labels(name, raw) ==> h in requested
    ensures Keep(name, raw, requested) == raw
  {
    if raw != [] {
      var n := |raw| - 1;
      assert Labels(name, raw)[..n] == Labels(name, raw[..n]);
      KeepsAll(name, raw[..n], requested);
      assert Labels(name, raw)[n] == name(raw[n]);
      assert raw == raw[..n] + [raw[n]];
    }
  }

  lemma {:induction false} ServedOnce(spec: SpecA, u: set<Body>, peer: RowsA, want: seq<string>)
    requires Universe(spec, u) && Sane(spec, u, peer)
    ensures Distinct(Labels(HashOf, Serve(spec, peer, want)))
    ensures forall h :: h in Labels(HashOf, Serve(spec, peer, want)) ==>
      h in want && exists x :: x in peer && spec.hashOf(x) == h
  {
    if peer != [] {
      var n := |peer| - 1;
      ServedOnce(spec, u, peer[..n], want);
      var before, now := Serve(spec, peer[..n], want), Serve(spec, peer, want);
      if spec.hashOf(peer[n]) in want {
        assert Labels(HashOf, now) == Labels(HashOf, before) + [spec.hashOf(peer[n])];
        forall x | x in peer[..n] ensures spec.hashOf(x) != spec.hashOf(peer[n]) {
          var i :| 0 <= i < n && peer[i] == x;
          assert spec.keyOf(peer[i]) != spec.keyOf(peer[n]);
        }
      }
      assert forall x :: x in peer[..n] ==> x in peer;
      assert peer[n] in peer;
    }
  }

  lemma EverythingWantedIsServed(spec: SpecA, u: set<Body>, rows: RowsA, peer: RowsA)
    requires Universe(spec, u) && Sane(spec, u, rows) && Sane(spec, u, peer)
    ensures var w := Wanted(spec, rows, peer); var rs := Serve(spec, peer, w);
      Keep(HashOf, rs, w) == rs && |rs| == |w|
  {
    var w := Wanted(spec, rows, peer);
    var rs := Serve(spec, peer, w);
    WantedRows(spec, u, rows, peer);
    ServedOnce(spec, u, peer, w);
    KeepsAll(HashOf, rs, w);
    ServedForWanted(spec, u, rows, peer);
    forall h | h in w ensures h in Labels(HashOf, rs) {
      var x :| x in peer && x !in rows && spec.hashOf(x) == h;
      LabelOf(HashOf, rs, RecordA(h, x));
    }
    KeptCount(HashOf, rs, w);
  }

  // What is wanted and served depends on the coding alone.

  lemma WantedCoding(r: SpecA, s: SpecA, rows: RowsA, peer: RowsA)
    requires SameCoding(r, s)
    ensures Hashes(r, rows) == Hashes(s, rows) && Wanted(r, rows, peer) == Wanted(s, rows, peer)
  {
    assert Hashes(r, rows) == Hashes(s, rows) && Hashes(r, peer) == Hashes(s, peer);
  }

  lemma {:induction false} ServeCoding(r: SpecA, s: SpecA, peer: RowsA, want: seq<string>)
    requires SameCoding(r, s)
    ensures Serve(r, peer, want) == Serve(s, peer, want)
  {
    if peer != [] {
      ServeCoding(r, s, peer[..|peer| - 1], want);
    }
  }

  /** A foreign key only takes away from what is accepted, and the same beside any rows. */
  lemma UniverseAgainst(e: Env, m: Tables, t: string, u: set<Body>)
    requires Universe(e.schema.specA(t), u)
    ensures Universe(SpecAt(e, m, t), u)
  {
    var spec, eff := e.schema.specA(t), SpecAt(e, m, t);
    SpecAtCoding(e, m, t);
    forall x | x in u ensures Genuine(eff, RecordA(eff.hashOf(x), x)) {
      assert Genuine(spec, RecordA(spec.hashOf(x), x));
    }
    forall rows, x, y | x in u && !eff.accepts(rows, x) ensures !eff.accepts(rows + [y], x) {
      assert !spec.accepts(rows, x) ==> !spec.accepts(rows + [y], x);
    }
  }

  /** The whole plan was fetched and applied; what did not insert is reported. */
  ghost predicate Complete(e: Env, m: Tables, t: string, peer: RowsA) {
    var x, spec := TableOf(m, t), SpecAt(e, m, t);
    var w := Wanted(spec, x.a, peer);
    && PlanA(e, t, x.a) == Got(w)
    && RoundA(e, m, t) == (InsertedInto(spec, {}, x, Serve(spec, peer, w)),
                           Inserted(|w|, |w|, Pulled(spec, x.a, peer).inserted))
  }

  lemma ServedPlan(e: Env, m: Tables, t: string, u: set<Body>, peer: RowsA)
    requires Universe(SpecAt(e, m, t), u) && Refused(e.faults.refusedA, t) == {}
    requires Sane(SpecAt(e, m, t), u, TableOf(m, t).a) && Sane(SpecAt(e, m, t), u, peer)
    requires var w := Wanted(SpecAt(e, m, t), TableOf(m, t).a, peer);
      PlanA(e, t, TableOf(m, t).a) == Got(w) && e.script.pullA(t, w) == Got(Serve(SpecAt(e, m, t), peer, w))
    ensures Complete(e, m, t, peer)
  {
    var x, spec := TableOf(m, t), SpecAt(e, m, t);
    PullExhaustsThePeer(spec, u, x.a, peer);
    EverythingWantedIsServed(spec, u, x.a, peer);
    var w := Wanted(spec, x.a, peer);
    ServedBatch(e, t, spec, x, w, Serve(spec, peer, w));
  }

  lemma ServedBatch(e: Env, t: string, spec: SpecA, x: Table, plan: seq<string>, rs: seq<RecordA>)
    requires ServedA(e.script, t, plan) == Got(rs) && |rs| == |plan| && Refused(e.faults.refusedA, t) == {}
    requires !FoldA(spec, {}, x.a, rs).thrown
    ensures ApplyA(e, t, spec, x, plan)
      == (InsertedInto(spec, {}, x, rs), Inserted(|plan|, |plan|, FoldA(spec, {}, x.a, rs).inserted))
  {
    if plan == [] {
      assert rs == [];
      assert x.a[|x.a|..] == [];
    }
  }

  /** Against an honest peer the round fetches all it planned and reports every fetched record
      that did not insert. */
  lemma HonestRoundA(e: Env, m: Tables, t: string, u: set<Body>, peer: RowsA)
    requires ReadyA(e, t, u, TableOf(m, t).a, peer)
    ensures Complete(e, m, t, peer)
  {
    HonestPlanA(e, t, TableOf(m, t).a, peer);
    ReadyAtTurn(e, m, t, u, peer);
    ServedPlan(e, m, t, u, peer);
  }

  /** What is ready stays ready with the foreign key checked. */
  lemma ReadyAtTurn(e: Env, m: Tables, t: string, u: set<Body>, peer: RowsA)
    requires ReadyA(e, t, u, TableOf(m, t).a, peer)
    ensures var spec := SpecAt(e, m, t);
      && Universe(spec, u) && Sane(spec, u, TableOf(m, t).a) && Sane(spec, u, peer)
            && Refused(e.faults.refusedA, t) == {}
      && var w := Wanted(spec, TableOf(m, t).a, peer);
         && w == Wanted(e.schema.specA(t), TableOf(m, t).a, peer) && e.script.pullA(t, w) == Got(Serve(spec, peer, w))
  {
    var spec, base := SpecAt(e, m, t), e.schema.specA(t);
    SpecAtCoding(e, m, t);
    UniverseAgainst(e, m, t, u);
    SaneCoding(spec, base, u, TableOf(m, t).a);
    SaneCoding(spec, base, u, peer);
    WantedCoding(spec, base, TableOf(m, t).a, peer);
    ServeCoding(spec, base, peer, Wanted(spec, TableOf(m, t).a, peer));
  }

  ghost predicate ReadyA(e: Env, t: string, u: set<Body>, rows: RowsA, peer: RowsA) {
    && HonestA(e, t, peer) && Universe(e.schema.specA(t), u)
    && Sane(e.schema.specA(t), u, rows) && Sane(e.schema.specA(t), u, peer)
    && Discerns(e.sha, Hashes(e.schema.specA(t), rows), Hashes(e.schema.specA(t), peer))
  }

  // ----- one Tier-B table that owns its rows -----

  /** The table's merge is a join on the stored rows of one key, and the version tells them apart. */
  ghost predicate Lattice(spec: SpecB) {
    && spec.owns && spec.disagrees.None?
    && forall x, y {:trigger Mergeable(spec, x, y)} :: Mergeable(spec, x, y) ==>
         && Stored(spec, spec.merge(x, y)) && spec.keyOf(spec.merge(x, y)) == spec.keyOf(x)
         && spec.merge(x, y) == spec.merge(y, x) && spec.merge(x, x) == x
         && spec.merge(x, spec.merge(x, y)) == spec.merge(x, y)
         && (spec.version(x) == spec.version(y) ==> x == y)
  }

  predicate Stored(spec: SpecB, x: Body) {
    spec.valid(x) && spec.stored(x) == x
  }

  predicate Mergeable(spec: SpecB, x: Body, y: Body) {
    Stored(spec, x) && Stored(spec, y) && spec.keyOf(x) == spec.keyOf(y)
  }

  ghost predicate RowsOk(spec: SpecB, rows: RowsB) {
    forall k :: k in rows ==> Stored(spec, rows[k]) && spec.keyOf(rows[k]) == k
  }

  function Joined(spec: SpecB, x: RowsB, y: RowsB): RowsB {
    map k | k in x.Keys + y.Keys :: if k !in y then x[k] else if k !in x then y[k] else spec.merge(x[k], y[k])
  }

  lemma JoinedSettles(spec: SpecB, x: RowsB, y: RowsB)
    requires Lattice(spec) && RowsOk(spec, x) && RowsOk(spec, y)
    ensures RowsOk(spec, Joined(spec, x, y))
    ensures Joined(spec, y, Joined(spec, x, y)) == Joined(spec, x, y)
    ensures Joined(spec, x, x) == x
  {
    var j := Joined(spec, x, y);
    forall k | k in j ensures Stored(spec, j[k]) && spec.keyOf(j[k]) == k && Joined(spec, y, j)[k] == j[k] {
      JoinedAt(spec, x, y, k);
    }
    forall k | k in x ensures Joined(spec, x, x)[k] == x[k] {
      Absorbs(spec, x[k], x[k]);
    }
  }

  lemma JoinedAt(spec: SpecB, x: RowsB, y: RowsB, k: string)
    requires Lattice(spec) && RowsOk(spec, x) && RowsOk(spec, y) && k in x.Keys + y.Keys
    ensures var j := Joined(spec, x, y);
      Stored(spec, j[k]) && spec.keyOf(j[k]) == k && (k in y ==> spec.merge(y[k], j[k]) == j[k])
  {
    if k in x && k in y {
      Absorbs(spec, x[k], y[k]);
    } else if k in y {
      Absorbs(spec, y[k], y[k]);
    }
  }

  lemma Absorbs(spec: SpecB, x: Body, y: Body)
    requires Lattice(spec) && Mergeable(spec, x, y)
    ensures spec.merge(x, x) == x && spec.merge(y, spec.merge(x, y)) == spec.merge(x, y)
    ensures Stored(spec, spec.merge(x, y)) && spec.keyOf(spec.merge(x, y)) == spec.keyOf(x)
    ensures !Moves(spec, x, y) ==> spec.merge(x, y) == x
  {
    assert Mergeable(spec, y, x);
    assert Mergeable(spec, spec.merge(x, y), x);
  }

  ghost predicate HonestB(e: Env, t: string, peer: RowsB) {
    var spec := e.schema.specB(t);
    && t in e.schema.tierB && FaultFree(e.faults, t)
    && Digest(e.state.tierB, t) == Some(e.digestB(Versions(spec, peer)))
    && e.script.versions(t).Got? && KeysOnce(e.script.versions(t).value)
    && Lists(e.script.versions(t).value, Versions(spec, peer))
    && forall want :: e.script.pullB(t, want).Got? && AnswersRows(e.script.pullB(t, want).value, peer, want)
  }

  ghost predicate AnswersRows(rs: seq<RecordB>, peer: RowsB, want: seq<string>) {
    KeysUnique(rs) && forall r :: r in rs <==> r.key in want && r.key in peer && r.body == peer[r.key]
  }

  ghost predicate DiscernsB(digestB: map<string, string> -> string, x: map<string, string>, y: map<string, string>) {
    digestB(x) == digestB(y) ==> x == y
  }

  lemma HonestPlanB(e: Env, t: string, rows: RowsB, peer: RowsB)
    requires HonestB(e, t, peer)
      && DiscernsB(e.digestB, Versions(e.schema.specB(t), rows), Versions(e.schema.specB(t), peer))
    ensures PlanB(e, t, rows).Got? && Distinct(PlanB(e, t, rows).value)
    ensures StaleAgainst(e.schema.specB(t), rows, peer, PlanB(e, t, rows).value)
  {
    var spec := e.schema.specB(t);
    var mine, theirs := Versions(spec, rows), Versions(spec, peer);
    var es := e.script.versions(t).value;
    if ComparesB(e, t, mine) {
      StaleIsExact(mine, es);
      StaleIsStaleKeys(mine, es, theirs);
      assert forall k :: k in Stale(mine, es) <==> k in Elements(Stale(mine, es));
    } else {
      assert mine == theirs;
      forall k | k in peer ensures k in rows && spec.version(rows[k]) == spec.version(peer[k]) {
        assert k in theirs && k in mine && mine[k] == theirs[k];
      }
    }
  }

  lemma AnswersAreKept(rs: seq<RecordB>, peer: RowsB, plan: seq<string>)
    requires AnswersRows(rs, peer, plan)
    ensures Keep(KeyOf, rs, plan) == rs
  {
    var ls := Labels(KeyOf, rs);
    forall i | 0 <= i < |rs| ensures ls[i] == rs[i].key && ls[i] in plan { assert rs[i] in rs; }
    assert Distinct(ls);
    KeepsAll(KeyOf, rs, plan);
  }

  ghost predicate ReadyB(e: Env, t: string, rows: RowsB, peer: RowsB) {
    && t !in e.schema.tierA && HonestB(e, t, peer) && Lattice(e.schema.specB(t))
    && RowsOk(e.schema.specB(t), rows) && RowsOk(e.schema.specB(t), peer)
    && DiscernsB(e.digestB, Versions(e.schema.specB(t), rows), Versions(e.schema.specB(t), peer))
  }

  /** Against an honest peer a Tier-B round computes the join of the two tables, whether or not a
      key was planned, and plans nothing when the tables are already equal. */
  lemma HonestRoundB(e: Env, m: Tables, t: string, peer: RowsB)
    requires ReadyB(e, t, TableOf(m, t).b, peer)
    ensures RoundB(e, m, t).0 == Table(TableOf(m, t).a, Joined(e.schema.specB(t), TableOf(m, t).b, peer))
    ensures !RoundB(e, m, t).1.failed && !RoundB(e, m, t).1.aborted
    ensures TableOf(m, t).b == peer ==> RoundB(e, m, t).1 == Nothing(0, false, false)
  {
    var spec, rows := e.schema.specB(t), TableOf(m, t).b;
    var plan := PlanB(e, t, rows).value;
    HonestPlanB(e, t, rows, peer);
    var rs := e.script.pullB(t, plan).value;
    assert AnswersRows(rs, peer, plan);
    AnswersAreKept(rs, peer, plan);
    AnsweredRowsJoin(spec, rows, peer, plan, rs);
    assert rows == peer ==> Elements(plan) == {};
    NoMembers(plan);
    UntrackedA(e, m, t);
    assert RoundA(e, m, t) == RoundsA(e, m)(t);
  }

  ghost predicate StaleAgainst(spec: SpecB, rows: RowsB, peer: RowsB, plan: seq<string>) {
    forall k :: k in plan <==> k in peer && (k !in rows || spec.version(rows[k]) != spec.version(peer[k]))
  }

  lemma AnsweredRowsJoin(spec: SpecB, rows: RowsB, peer: RowsB, plan: seq<string>, rs: seq<RecordB>)
    requires Lattice(spec) && RowsOk(spec, rows) && RowsOk(spec, peer) && AnswersRows(rs, peer, plan)
    requires StaleAgainst(spec, rows, peer, plan)
    ensures !FoldB(spec, None, rows, rs).thrown && FoldB(spec, None, rows, rs).rows == Joined(spec, rows, peer)
    ensures plan == [] ==> rows == Joined(spec, rows, peer)
  {
    AnswersAreSound(spec, peer, plan, rs);
    FoldBThrowsExactly(spec, None, rows, rs);
    var f, j := FoldB(spec, None, rows, rs).rows, Joined(spec, rows, peer);
    forall k ensures (k in f <==> k in j) && (k in j ==> f[k] == j[k]) {
      AnsweredAt(spec, rows, peer, plan, rs, k);
    }
    forall k | k in j && k !in plan ensures k in rows && j[k] == rows[k] {
      UnplannedIsEqual(spec, rows, peer, plan, k);
    }
  }

  lemma AnswersAreSound(spec: SpecB, peer: RowsB, plan: seq<string>, rs: seq<RecordB>)
    requires (forall k :: k in peer ==> spec.valid(peer[k]) && spec.keyOf(peer[k]) == k) && AnswersRows(rs, peer, plan)
    ensures AllSound(spec, rs)
  {
    forall i | 0 <= i < |rs| ensures Sound(spec, rs[i]) { assert rs[i] in rs; }
  }

  lemma UnplannedIsEqual(spec: SpecB, rows: RowsB, peer: RowsB, plan: seq<string>, k: string)
    requires Lattice(spec) && RowsOk(spec, rows) && RowsOk(spec, peer) && StaleAgainst(spec, rows, peer, plan)
    requires k in rows.Keys + peer.Keys && k !in plan
    ensures k in rows && Joined(spec, rows, peer)[k] == rows[k]
  {
    if k in peer {
      assert Mergeable(spec, rows[k], peer[k]);
      Absorbs(spec, rows[k], rows[k]);
    }
  }

  lemma AnsweredAt(spec: SpecB, rows: RowsB, peer: RowsB, plan: seq<string>, rs: seq<RecordB>, k: string)
    requires Lattice(spec) && RowsOk(spec, rows) && RowsOk(spec, peer) && AnswersRows(rs, peer, plan)
    requires StaleAgainst(spec, rows, peer, plan) && AllSound(spec, rs)
    ensures var f, j := FoldB(spec, None, rows, rs).rows, Joined(spec, rows, peer);
      (k in f <==> k in j) && (k in j ==> f[k] == j[k])
  {
    if k in plan {
      assert RecordB(k, peer[k]) in rs;
      var i :| 0 <= i < |rs| && rs[i] == RecordB(k, peer[k]);
      FoldBAt(spec, rows, rs, i);
      if k in rows {
        Absorbs(spec, rows[k], peer[k]);
      }
    } else {
      forall i | 0 <= i < |rs| ensures rs[i].key != k { assert rs[i] in rs; }
      FoldBElsewhere(spec, rows, rs, k);
      if k in rows.Keys + peer.Keys {
        UnplannedIsEqual(spec, rows, peer, plan, k);
      }
    }
  }

  // ----- two nodes, all tables -----

  /** The first round brings `x` its part, the second, run against the result, settles both. */
  lemma TwoRoundsSettleA(e: Env, f: Env, t: string, u: set<Body>, x: Tables, y: Tables)
    requires e.schema == f.schema && ReadyA(e, t, u, TableOf(x, t).a, TableOf(y, t).a)
    requires ReadyA(f, t, u, TableOf(y, t).a, RoundA(e, x, t).0.a)
    ensures var r, s, p := SpecAt(e, x, t), SpecAt(f, y, t), (RoundA(e, x, t).0.a, RoundA(f, y, t).0.a);
      p == AfterBoth(r, s, TableOf(x, t).a, TableOf(y, t).a) && SettledPair(r, s, u, p)
  {
    var r, s := SpecAt(e, x, t), SpecAt(f, y, t);
    HonestRoundA(e, x, t, u, TableOf(y, t).a);
    HonestRoundA(f, y, t, u, RoundA(e, x, t).0.a);
    ReadyAtTurn(e, x, t, u, TableOf(y, t).a);
    ReadyAtTurn(f, y, t, u, RoundA(e, x, t).0.a);
    SpecAtCoding(e, x, t);
    SpecAtCoding(f, y, t);
    TwoPullsSettle(r, s, u, TableOf(x, t).a, TableOf(y, t).a);
  }

  /** So after one round each way no sequence of further pulls, in either direction, changes a row. */
  lemma TwoRoundsSettleForever(e: Env, f: Env, t: string, u: set<Body>, x: Tables, y: Tables, rounds: seq<bool>)
    requires e.schema == f.schema && ReadyA(e, t, u, TableOf(x, t).a, TableOf(y, t).a)
    requires ReadyA(f, t, u, TableOf(y, t).a, RoundA(e, x, t).0.a)
    ensures var p := (RoundA(e, x, t).0.a, RoundA(f, y, t).0.a);
      Exchange(SpecAt(e, x, t), SpecAt(f, y, t), p, rounds) == p
  {
    TwoRoundsSettleA(e, f, t, u, x, y);
    ReadyAtTurn(e, x, t, u, TableOf(y, t).a);
    ReadyAtTurn(f, y, t, u, RoundA(e, x, t).0.a);
    SpecAtCoding(e, x, t);
    SpecAtCoding(f, y, t);
    NoLaterRoundChangesARow(SpecAt(e, x, t), SpecAt(f, y, t), u, (RoundA(e, x, t).0.a, RoundA(f, y, t).0.a), rounds);
  }

  lemma TwoRoundsSettleB(e: Env, f: Env, t: string, x: Tables, y: Tables)
    requires e.schema == f.schema && ReadyB(e, t, TableOf(x, t).b, TableOf(y, t).b)
    requires ReadyB(f, t, TableOf(y, t).b, RoundB(e, x, t).0.b)
    ensures RoundB(e, x, t).0.b == RoundB(f, y, t).0.b == Joined(e.schema.specB(t), TableOf(x, t).b, TableOf(y, t).b)
  {
    HonestRoundB(e, x, t, TableOf(y, t).b);
    HonestRoundB(f, y, t, RoundB(e, x, t).0.b);
    JoinedSettles(e.schema.specB(t), TableOf(x, t).b, TableOf(y, t).b);
  }

  /** What every later round, in either direction, does to an append-only table: it wants exactly
      the rows that can never land, for want of their parent row among other reasons. */
  ghost predicate OnlyUnsettled(e: Env, m: Tables, t: string, peer: RowsA) {
    var spec, x := SpecIn(e.schema, m, t), TableOf(m, t);
    var left := Unsettled(spec, x.a, peer);
    && PlanA(e, t, x.a).Got?
    && Elements(WantedA(e, m, t)) == (set b | b in left :: spec.hashOf(b))
    && RoundA(e, m, t) == (x, Inserted(|left|, |left|, 0))
  }

  lemma SteadyTable(e: Env, m: Tables, t: string, u: set<Body>, peer: RowsA)
    requires ReadyA(e, t, u, TableOf(m, t).a, peer) && Closed(SpecIn(e.schema, m, t), TableOf(m, t).a, peer)
    requires SpecAt(e, m, t) == SpecIn(e.schema, m, t)
    ensures OnlyUnsettled(e, m, t, peer)
  {
    HonestRoundA(e, m, t, u, peer);
    ReadyAtTurn(e, m, t, u, peer);
    var spec, x := SpecAt(e, m, t), TableOf(m, t);
    SettledPull(spec, u, x.a, peer);
    assert x.a[|x.a|..] == [];
  }

  /** A parent the round leaves alone leaves the check of its child alone. */
  lemma QuietParent(e: Env, m: Tables, t: string)
    requires e.schema.parent(t).Some? && Before(e, e.schema.parent(t).value.table, t) ==>
      RoundA(e, m, e.schema.parent(t).value.table).0 == TableOf(m, e.schema.parent(t).value.table)
    ensures SpecAt(e, m, t) == SpecIn(e.schema, m, t)
  {
  }

  /** The append-only tables of two settled nodes, seen from one of them. */
  ghost predicate SettledTables(e: Env, m: Tables, pm: Tables, u: string -> set<Body>) {
    forall t :: t in e.schema.tierA ==>
      && ReadyA(e, t, u(t), TableOf(m, t).a, TableOf(pm, t).a)
      && Closed(SpecIn(e.schema, m, t), TableOf(m, t).a, TableOf(pm, t).a)
  }

  lemma {:induction false} SteadyTables(e: Env, m: Tables, pm: Tables, u: string -> set<Body>, t: string)
    requires SettledTables(e, m, pm, u) && t in e.schema.tierA
    ensures OnlyUnsettled(e, m, t, TableOf(pm, t).a)
    decreases Position(e.schema.tierA, t)
  {
    if e.schema.parent(t).Some? && Before(e, e.schema.parent(t).value.table, t) {
      var p := e.schema.parent(t).value.table;
      EarlierIsRegistered(e.schema.tierA, p, t);
      SteadyTables(e, m, pm, u, p);
    }
    QuietParent(e, m, t);
    SteadyTable(e, m, t, u(t), TableOf(pm, t).a);
  }

  lemma {:induction false} EarlierIsRegistered(tables: seq<string>, p: string, t: string)
    requires Position(tables, p) < Position(tables, t)
    ensures p in tables
  {
    if tables[0] != p {
      EarlierIsRegistered(tables[1..], p, t);
    }
  }

  /** A Tier-B table on which a round changes nothing and fetches what it plans. */
  ghost predicate QuietB(e: Env, m: Tables, t: string) {
    var c := RoundB(e, m, t).1;
    && PlanB(e, t, TableOf(m, t).b).Got? && RoundB(e, m, t).0 == RoundA(e, m, t).0
    && c.applied == 0 && c.pulled == c.planned && !c.failed && !c.aborted
  }

  lemma EqualTablesAreQuiet(e: Env, m: Tables, t: string, peer: RowsB)
    requires ReadyB(e, t, TableOf(m, t).b, peer) && TableOf(m, t).b == peer
    ensures QuietB(e, m, t) && RoundB(e, m, t).1.planned == 0
  {
    HonestRoundB(e, m, t, peer);
    HonestPlanB(e, t, TableOf(m, t).b, peer);
    JoinedSettles(e.schema.specB(t), peer, peer);
    UntrackedA(e, m, t);
    assert RoundA(e, m, t) == RoundsA(e, m)(t);
  }

  lemma {:induction false} TallyOfQuietTables(tier: Tier, tables: seq<string>, round: string -> (Table, Counts))
    requires forall t :: t in tables ==>
      round(t).1.applied == 0 && round(t).1.pulled == round(t).1.planned && !round(t).1.failed
    ensures var x := TallyOf(tier, tables, round);
      && x.applied == 0 && x.pulled == x.planned && x.failures == []
      && ((forall t :: t in tables ==> round(t).1.planned == 0) ==> x.planned == 0)
  {
    if tables != [] {
      var n := |tables| - 1;
      TallyOfQuietTables(tier, tables[..n], round);
      assert tables == tables[..n] + [tables[n]];
    }
  }

  ghost predicate AppendsAgree(e: Env, m: Tables, pm: Tables) {
    forall t :: t in e.schema.tierA ==> Unsettled(SpecIn(e.schema, m, t), TableOf(m, t).a, TableOf(pm, t).a) == {}
  }

  /** A round over quiet tables finishes, changes no row of any table and is conclusive; where
      nothing is unsettled it plans nothing. */
  lemma QuietRound(e: Env, m: Tables, pm: Tables)
    requires forall t :: t in e.schema.tierA ==> OnlyUnsettled(e, m, t, TableOf(pm, t).a)
    requires forall t :: t in e.schema.tierB ==> QuietB(e, m, t)
    requires e.faults.readA == {} && e.faults.readB == {}
    ensures !Dies(e, m)
    ensures forall t :: RoundB(e, m, t).0 == TableOf(m, t)
    ensures var r := Result(e, m);
      && r.a.applied == 0 && r.b.applied == 0 && r.Pulled() == r.Planned() && r.Failures() == []
      && (AppendsAgree(e, m, pm) ==> r.a.planned == 0)
      && ((forall t :: t in e.schema.tierB ==> RoundB(e, m, t).1.planned == 0) ==> r.b.planned == 0)
  {
    var ra, rb := RoundsA(e, m), RoundsB(e, m);
    forall t | t in e.schema.tierA
      ensures ra(t).1.applied == 0 && ra(t).1.pulled == ra(t).1.planned && !ra(t).1.failed && !ra(t).1.aborted
      ensures ra(t).1.planned == |Unsettled(SpecIn(e.schema, m, t), TableOf(m, t).a, TableOf(pm, t).a)|
      ensures PlanA(e, t, TableOf(m, t).a).Got?
    {
      assert OnlyUnsettled(e, m, t, TableOf(pm, t).a) && ra(t) == RoundA(e, m, t);
    }
    forall t | t in e.schema.tierB
      ensures rb(t).1.applied == 0 && rb(t).1.pulled == rb(t).1.planned && !rb(t).1.failed && !rb(t).1.aborted
      ensures PlanB(e, t, TableOf(m, t).b).Got?
    {
      assert QuietB(e, m, t) && rb(t) == RoundB(e, m, t);
    }
    TallyOfQuietTables(A, e.schema.tierA, ra);
    TallyOfQuietTables(B, e.schema.tierB, rb);
    NothingUnreadable(A, e.schema.tierA);
    NothingUnreadable(B, e.schema.tierB);
    forall t ensures RoundB(e, m, t).0 == TableOf(m, t) {
      QuietTable(e, m, pm, t);
    }
  }

  lemma {:induction false} NothingUnreadable(tier: Tier, tables: seq<string>)
    ensures Unreadable(tier, tables, {}) == []
  {
    if tables != [] {
      NothingUnreadable(tier, tables[..|tables| - 1]);
    }
  }

  lemma QuietTable(e: Env, m: Tables, pm: Tables, t: string)
    requires t in e.schema.tierA ==> OnlyUnsettled(e, m, t, TableOf(pm, t).a)
    requires t in e.schema.tierB ==> QuietB(e, m, t)
    ensures RoundB(e, m, t).0 == TableOf(m, t)
  {
    if t !in e.schema.tierA { UntrackedA(e, m, t); assert RoundA(e, m, t) == RoundsA(e, m)(t); }
    if t !in e.schema.tierB { UntrackedB(e, m, t); assert RoundB(e, m, t) == RoundsB(e, m)(t); }
  }
}
