/** What a foreign key does to the isolation of tables. A child's INSERT fails when its parent row
    is not there; the failure is swallowed record by record, so what befell the parent table shows
    in the child as a content fork. */
module ForeignKeys {
  import opened Ordering
  import opened Reconciliation
  import opened Merges
  import opened Rows
  import opened Store
  import opened Channel
  import opened Engine
  import opened RoundProperties
  import opened SteadyState

  /** The positions whose parent row is not among these rows. */
  ghost function Dangling(column: Body -> Option<string>, parent: SpecA, rows: RowsA, records: seq<RecordA>): set<nat> {
    set n: nat | n < |records| && !Present(column, parent, rows, records[n].body)
  }

  /** A foreign key refuses exactly the dangling positions, whatever else the batch meets. */
  lemma {:induction false} FkRefusesExactly(spec: SpecA, column: Body -> Option<string>, parent: SpecA, prows: RowsA,
                                            refused: set<nat>, rows: RowsA, records: seq<RecordA>, lost: set<nat>)
    requires forall n: nat :: n < |records| ==>
      (n in lost <==> n in refused || !Present(column, parent, prows, records[n].body))
    ensures FoldA(Against(spec, column, parent, prows), refused, rows, records) == FoldA(spec, lost, rows, records)
  {
    if records != [] {
      var n := |records| - 1;
      FkRefusesExactly(spec, column, parent, prows, refused, rows, records[..n], lost);
      assert n in lost <==> n in refused || !Present(column, parent, prows, records[n].body);
    }
  }

  /** The parent's rows when the child's turn comes. */
  ghost function TurnRows(e: Env, m: Tables, t: string, ref: Reference): RowsA {
    if Before(e, ref.table, t) then RoundA(e, m, ref.table).0.a else TableOf(m, ref.table).a
  }

  /** The parent of a served record is there when its turn comes. */
  ghost predicate ParentThere(e: Env, m: Tables, t: string, ref: Reference, r: RecordA) {
    Present(ref.column, e.schema.specA(ref.table), TurnRows(e, m, t, ref), r.body)
  }

  ghost function LostTo(e: Env, m: Tables, t: string, ref: Reference, records: seq<RecordA>): set<nat> {
    Refused(e.faults.refusedA, t) + Dangling(ref.column, e.schema.specA(ref.table), TurnRows(e, m, t, ref), records)
  }

  /** The batch a child table is served, on which nothing but its parent could fail. */
  ghost predicate ServedChild(e: Env, m: Tables, t: string, ref: Reference, records: seq<RecordA>) {
    && t in e.schema.tierA && e.schema.parent(t) == Some(ref)
    && WantedA(e, m, t) != [] && ServedA(e.script, t, WantedA(e, m, t)) == Got(records)
    && FreshBatch(e.schema.specA(t), TableOf(m, t).a, records)
  }

  /** What becomes of a child: exactly the records with their parent there land, the others are
      reported as a content fork of the child, and the child is not among the failures. */
  lemma ChildrenLandWithTheirParents(e: Env, m: Tables, t: string, ref: Reference, records: seq<RecordA>)
    requires ServedChild(e, m, t, ref, records)
    ensures var lost := LostTo(e, m, t, ref, records); var c := RoundA(e, m, t).1;
      && RoundA(e, m, t).0.a == TableOf(m, t).a + Unrefused(lost, records)
      && c.divergent == RefusedCount(lost, |records|) && c.pulled == |records|
      && (c.divergent > 0 ==> c.verdict == Some(ContentFork)) && !c.failed
      && Failure(A, t) !in Result(e, m).a.failures
  {
    var spec, lost := e.schema.specA(t), LostTo(e, m, t, ref, records);
    FkRefusesExactly(spec, ref.column, e.schema.specA(ref.table), TurnRows(e, m, t, ref),
                     Refused(e.faults.refusedA, t), TableOf(m, t).a, records, lost);
    FoldASkipsRefused(spec, lost, TableOf(m, t).a, records);
    ReportIsExact(e, m, t);
  }

  lemma {:induction false} UnrefusedHas(spec: SpecA, rows: RowsA, lost: set<nat>, records: seq<RecordA>, n: nat)
    requires FreshBatch(spec, rows, records) && n < |records|
    ensures records[n].body in Unrefused(lost, records) <==> n !in lost
  {
    var k := |records| - 1;
    UnrefusedKeys(lost, records[..k]);
    FreshPrefix(spec, rows, records, k);
    if n < k {
      UnrefusedHas(spec, rows, lost, records[..k], n);
      assert records[..k][n] == records[n];
      assert spec.keyOf(records[n].body) != spec.keyOf(records[k].body);
    } else {
      forall i | 0 <= i < k ensures records[..k][i].body != records[n].body {
        assert spec.keyOf(records[i].body) != spec.keyOf(records[n].body);
      }
    }
  }

  lemma {:induction false} UnrefusedAgrees(a: set<nat>, b: set<nat>, records: seq<RecordA>)
    requires forall n: nat :: n < |records| ==> (n in a <==> n in b)
    ensures Unrefused(a, records) == Unrefused(b, records)
  {
    if records != [] {
      UnrefusedAgrees(a, b, records[..|records| - 1]);
    }
  }

  lemma UnrefusedDetermines(spec: SpecA, rows: RowsA, a: set<nat>, b: set<nat>, records: seq<RecordA>)
    requires FreshBatch(spec, rows, records)
    ensures Unrefused(a, records) == Unrefused(b, records) <==> forall n: nat :: n < |records| ==> (n in a <==> n in b)
  {
    if Unrefused(a, records) == Unrefused(b, records) {
      forall n: nat | n < |records| ensures n in a <==> n in b {
        UnrefusedHas(spec, rows, a, records, n);
        UnrefusedHas(spec, rows, b, records, n);
      }
    } else if forall n: nat :: n < |records| ==> (n in a <==> n in b) {
      UnrefusedAgrees(a, b, records);
    }
  }

  /** Isolation, exactly: two rounds that look alike from a child itself leave it alike if and only
      if every record it is served found its parent in both or in neither. */
  lemma ChildIsIsolatedExactly(e: Env, f: Env, m: Tables, m': Tables, t: string, ref: Reference, records: seq<RecordA>)
    requires SameFor(e, f, t) && TableOf(m, t) == TableOf(m', t) && f.schema.parent(t) == Some(ref)
    requires ServedChild(e, m, t, ref, records) && ServedChild(f, m', t, ref, records)
    ensures RoundA(e, m, t).0.a == RoundA(f, m', t).0.a <==>
      forall n: nat :: n < |records| ==> SameFate(e, f, m, m', t, ref, records[n], n)
  {
    SamePlans(e, f, t, TableOf(m, t));
    ChildrenLandWithTheirParents(e, m, t, ref, records);
    ChildrenLandWithTheirParents(f, m', t, ref, records);
    var a, b, rows := LostTo(e, m, t, ref, records), LostTo(f, m', t, ref, records), TableOf(m, t).a;
    UnrefusedDetermines(e.schema.specA(t), rows, a, b, records);
    SameTails(rows, Unrefused(a, records), Unrefused(b, records));
    forall n: nat | n < |records|
      ensures (n in a <==> n in b) <==> SameFate(e, f, m, m', t, ref, records[n], n)
    {
      LostAt(e, m, t, ref, records, n);
      LostAt(f, m', t, ref, records, n);
    }
  }

  /** Either the database failed the INSERT of its own, or the parent was there in both or neither. */
  ghost predicate SameFate(e: Env, f: Env, m: Tables, m': Tables, t: string, ref: Reference, r: RecordA, n: nat) {
    n !in Refused(e.faults.refusedA, t) ==> (ParentThere(e, m, t, ref, r) <==> ParentThere(f, m', t, ref, r))
  }

  lemma LostAt(e: Env, m: Tables, t: string, ref: Reference, records: seq<RecordA>, n: nat)
    requires n < |records|
    ensures n in LostTo(e, m, t, ref, records)
      <==> n in Refused(e.faults.refusedA, t) || !ParentThere(e, m, t, ref, records[n])
  {
  }

  lemma SameTails(rows: RowsA, x: RowsA, y: RowsA)
    ensures rows + x == rows + y <==> x == y
  {
    assert (rows + x)[|rows|..] == x && (rows + y)[|rows|..] == y;
  }

  // ----- parents first -----

  /** With the parent registered first and pulled from an honest peer, a child finds its parent if
      it was held before or is served and acceptable, and only if it was held or served. */
  lemma ParentsFirst(e: Env, m: Tables, t: string, ref: Reference, u: set<Body>, peer: RowsA, r: RecordA)
    requires e.schema.parent(t) == Some(ref) && Before(e, ref.table, t)
    requires ReadyA(e, ref.table, u, TableOf(m, ref.table).a, peer) && ref.column(r.body).Some?
    ensures var p, k := e.schema.specA(ref.table), ref.column(r.body).value;
      && (Bound(p, TableOf(m, ref.table).a, k) || ServesParent(e, m, ref.table, peer, k) ==>
          ParentThere(e, m, t, ref, r))
      && (ParentThere(e, m, t, ref, r) ==> Bound(p, TableOf(m, ref.table).a, k) || Bound(p, peer, k))
  {
    var s, p, k := ref.table, e.schema.specA(ref.table), ref.column(r.body).value;
    HonestRoundA(e, m, s, u, peer);
    ReadyAtTurn(e, m, s, u, peer);
    SpecAtCoding(e, m, s);
    PulledKeys(SpecAt(e, m, s), p, u, TableOf(m, s).a, peer, k);
  }

  /** The keys bound after a pull: the held ones, those served and acceptable, and no others than
      held or served. */
  lemma PulledKeys(eff: SpecA, p: SpecA, u: set<Body>, rows: RowsA, peer: RowsA, k: string)
    requires SameCoding(eff, p) && Universe(eff, u) && Sane(eff, u, rows) && Sane(eff, u, peer)
    ensures var after := Pulled(eff, rows, peer).rows;
      && (Bound(p, rows, k) || (exists x :: x in peer && p.keyOf(x) == k && RoomFor(eff, rows + peer, x)) ==>
          Bound(p, after, k))
      && (Bound(p, after, k) ==> Bound(p, rows, k) || Bound(p, peer, k))
  {
    PullExhaustsThePeer(eff, u, rows, peer);
    var after := Pulled(eff, rows, peer).rows;
    if Bound(p, rows, k) {
      var i :| 0 <= i < |rows| && p.keyOf(rows[i]) == k;
      assert after[i] == rows[i];
    } else if x :| x in peer && p.keyOf(x) == k && RoomFor(eff, rows + peer, x) {
      assert !Inserts(eff, after, x);
      if !Bound(p, after, k) {
        forall b | b in after ensures b in rows + peer && p.keyOf(b) != k { NowBound(p, after, b); }
      }
    }
    if Bound(p, after, k) {
      var i :| 0 <= i < |after| && p.keyOf(after[i]) == k;
      assert after[i] in after;
      if after[i] in rows { NowBound(p, rows, after[i]); } else { NowBound(p, peer, after[i]); }
    }
  }

  /** A batch never inserts a row that could not be inserted at the start. */
  lemma {:induction false} NeverAdded(spec: SpecA, u: set<Body>, rows: RowsA, records: seq<RecordA>, x: Body)
    requires Universe(spec, u) && x in u && !Inserts(spec, rows, x) && x !in rows
    requires forall r :: r in records ==> Genuine(spec, r) && r.body in u
    ensures x !in FoldA(spec, {}, rows, records).rows
  {
    if records != [] {
      var n := |records| - 1;
      assert records == records[..n] + [records[n]];
      NeverAdded(spec, u, rows, records[..n], x);
      FoldACloses(spec, u, rows, records[..n]);
    }
  }

  /** Constraints of that kind, which the peer's own rows meet. */
  ghost predicate Pairwise(spec: SpecA, fit: Body -> bool, apart: (Body, Body) -> bool, peer: RowsA) {
    && Columns(spec, fit, apart)
    && (forall x, y :: x in peer && y in peer && spec.keyOf(x) != spec.keyOf(y) ==> apart(x, y))
  }

  lemma RoomBesideThePeer(spec: SpecA, fit: Body -> bool, apart: (Body, Body) -> bool, rows: RowsA, peer: RowsA,
                          x: Body)
    requires Pairwise(spec, fit, apart, peer) && x in peer && spec.accepts(rows, x)
    ensures RoomFor(spec, rows + peer, x)
  {
    RoomExactly(spec, fit, apart, rows + peer, x);
  }

  /** A foreign key of the parent table's own is one more thing a row must meet by itself. */
  lemma PairwiseAtTurn(e: Env, m: Tables, s: string, fit: Body -> bool, apart: (Body, Body) -> bool, peer: RowsA)
    returns (fit': Body -> bool)
    requires Pairwise(e.schema.specA(s), fit, apart, peer)
    ensures Pairwise(SpecAt(e, m, s), fit', apart, peer)
  {
    var base, eff := e.schema.specA(s), SpecAt(e, m, s);
    SpecAtCoding(e, m, s);
    match e.schema.parent(s)
    case None => fit' := fit;
    case Some(ref) =>
      var rows := TurnRows(e, m, s, ref);
      fit' := x => fit(x) && Present(ref.column, e.schema.specA(ref.table), rows, x);
      forall z, x ensures eff.accepts(z, x) <==> fit'(x) && forall b :: b in z ==> apart(b, x) {
        assert base.accepts(z, x) <==> fit(x) && forall b :: b in z ==> apart(b, x);
      }
  }

  /** Exactly: with unique columns besides the key, as `user_accounts` has, a child finds its parent
      if and only if that was held, or the peer holds it and no row held here keeps it out. */
  lemma ParentsFirstExactly(e: Env, m: Tables, t: string, ref: Reference, u: set<Body>, peer: RowsA, r: RecordA,
                            fit: Body -> bool, apart: (Body, Body) -> bool)
    requires e.schema.parent(t) == Some(ref) && Before(e, ref.table, t)
    requires ReadyA(e, ref.table, u, TableOf(m, ref.table).a, peer) && ref.column(r.body).Some?
    requires Pairwise(e.schema.specA(ref.table), fit, apart, peer)
    ensures var s, p, k := ref.table, e.schema.specA(ref.table), ref.column(r.body).value;
      ParentThere(e, m, t, ref, r) <==>
        Bound(p, TableOf(m, s).a, k)
        || exists x :: x in peer && p.keyOf(x) == k && SpecAt(e, m, s).accepts(TableOf(m, s).a, x)
  {
    var s, p, k := ref.table, e.schema.specA(ref.table), ref.column(r.body).value;
    var eff, rows := SpecAt(e, m, s), TableOf(m, s).a;
    ParentsFirst(e, m, t, ref, u, peer, r);
    SpecAtCoding(e, m, s);
    if x :| x in peer && p.keyOf(x) == k && eff.accepts(rows, x) {
      var fit' := PairwiseAtTurn(e, m, s, fit, apart, peer);
      RoomBesideThePeer(eff, fit', apart, rows, peer, x);
    } else if !Bound(p, rows, k) {
      KeptOut(e, m, s, u, peer, k);
    }
  }

  /** A key the node has no row for, and for which it can take none of the peer's, stays unbound. */
  lemma KeptOut(e: Env, m: Tables, s: string, u: set<Body>, peer: RowsA, k: string)
    requires ReadyA(e, s, u, TableOf(m, s).a, peer)
    requires !Bound(e.schema.specA(s), TableOf(m, s).a, k)
    requires forall x :: x in peer && e.schema.specA(s).keyOf(x) == k ==> !SpecAt(e, m, s).accepts(TableOf(m, s).a, x)
    ensures !Bound(e.schema.specA(s), RoundA(e, m, s).0.a, k)
  {
    var eff, p, rows := SpecAt(e, m, s), e.schema.specA(s), TableOf(m, s).a;
    HonestRoundA(e, m, s, u, peer);
    ReadyAtTurn(e, m, s, u, peer);
    SpecAtCoding(e, m, s);
    ServedForWanted(eff, u, rows, peer);
    PullExhaustsThePeer(eff, u, rows, peer);
    var after := Pulled(eff, rows, peer).rows;
    if Bound(p, after, k) {
      var i :| 0 <= i < |after| && p.keyOf(after[i]) == k;
      var x := after[i];
      assert x in after;
      if x in rows {
        NowBound(p, rows, x);
      } else {
        NeverAdded(eff, u, rows, Serve(eff, peer, Wanted(eff, rows, peer)), x);
      }
    }
  }

  lemma {:induction false} NothingLost(refused: set<nat>, records: seq<RecordA>)
    requires forall n: nat :: n < |records| ==> n !in refused
    ensures RefusedCount(refused, |records|) == 0
    ensures forall r :: r in records ==> r.body in Unrefused(refused, records)
  {
    if records != [] {
      var k := |records| - 1;
      NothingLost(refused, records[..k]);
      assert records == records[..k] + [records[k]];
    }
  }

  /** With parents registered first, an honest pull refuses no child whose parent is held already or
      is served and acceptable: the whole batch lands. */
  lemma NoChildIsLeftBehind(e: Env, m: Tables, t: string, ref: Reference, u: set<Body>, peer: RowsA,
                            records: seq<RecordA>)
    requires ServedChild(e, m, t, ref, records) && Before(e, ref.table, t) && Refused(e.faults.refusedA, t) == {}
    requires ReadyA(e, ref.table, u, TableOf(m, ref.table).a, peer)
    requires forall n: nat :: n < |records| ==> HasParent(e, m, ref, peer, records[n])
    ensures RoundA(e, m, t).1.divergent == 0 && forall r :: r in records ==> r.body in RoundA(e, m, t).0.a
  {
    var lost := LostTo(e, m, t, ref, records);
    forall n: nat | n < |records| ensures n !in lost {
      assert HasParent(e, m, ref, peer, records[n]);
      if ref.column(records[n].body).Some? {
        ParentsFirst(e, m, t, ref, u, peer, records[n]);
      }
      LostAt(e, m, t, ref, records, n);
    }
    ChildrenLandWithTheirParents(e, m, t, ref, records);
    NothingLost(lost, records);
  }

  /** The record refers to nothing, to a row held here, or to one the peer serves. */
  ghost predicate HasParent(e: Env, m: Tables, ref: Reference, peer: RowsA, r: RecordA) {
    ref.column(r.body).Some? ==>
      || Bound(e.schema.specA(ref.table), TableOf(m, ref.table).a, ref.column(r.body).value)
      || ServesParent(e, m, ref.table, peer, ref.column(r.body).value)
  }

  /** The peer holds the parent row, and no constraint of the parent's own table keeps it out. */
  ghost predicate ServesParent(e: Env, m: Tables, s: string, peer: RowsA, k: string) {
    exists x :: x in peer && e.schema.specA(s).keyOf(x) == k && RoomFor(SpecAt(e, m, s), TableOf(m, s).a + peer, x)
  }

  // ----- children without their parent -----

  /** A record no table state accepts is not inserted, and the batch falls short by it. */
  lemma {:induction false} RefusedFallsShort(spec: SpecA, rows: RowsA, records: seq<RecordA>, r: RecordA)
    requires r in records && forall z :: !spec.accepts(z, r.body)
    ensures FoldA(spec, {}, rows, records).inserted < |records|
    ensures r.body !in rows ==> r.body !in FoldA(spec, {}, rows, records).rows
  {
    var n := |records| - 1;
    FoldAOnlyAppends(spec, {}, rows, records[..n]);
    assert records == records[..n] + [records[n]];
    if r in records[..n] {
      RefusedFallsShort(spec, rows, records[..n], r);
    } else {
      NeverAmong(spec, rows, records[..n], r.body);
    }
  }

  lemma {:induction false} NeverAmong(spec: SpecA, rows: RowsA, records: seq<RecordA>, x: Body)
    requires forall z :: !spec.accepts(z, x)
    ensures x in FoldA(spec, {}, rows, records).rows ==> x in rows
  {
    if records != [] {
      NeverAmong(spec, rows, records[..|records| - 1], x);
    }
  }

  /** A new row of an honest peer whose parent is not there in time is lost and reported as a fork
      of its own table, which is not among the failures. */
  lemma OrphanIsLost(e: Env, m: Tables, t: string, ref: Reference, u: set<Body>, peer: RowsA, x: Body)
    requires ReadyA(e, t, u, TableOf(m, t).a, peer) && e.schema.parent(t) == Some(ref)
    requires x in peer && x !in TableOf(m, t).a
    requires !Present(ref.column, e.schema.specA(ref.table), TurnRows(e, m, t, ref), x)
    ensures Lost(e, m, t, x)
  {
    var spec, rows := SpecAt(e, m, t), TableOf(m, t).a;
    HonestRoundA(e, m, t, u, peer);
    ReadyAtTurn(e, m, t, u, peer);
    ServedForWanted(spec, u, rows, peer);
    EverythingWantedIsServed(spec, u, rows, peer);
    var records := Serve(spec, peer, Wanted(spec, rows, peer));
    RefusedFallsShort(spec, rows, records, RecordA(spec.hashOf(x), x));
    ReportIsExact(e, m, t);
    TallyIsExact(B, e.schema.tierB, RoundsB(e, m));
    UnreadableIsExact(A, e.schema.tierA, e.faults.readA, Failure(A, t));
    UnreadableIsExact(B, e.schema.tierB, e.faults.readB, Failure(A, t));
  }

  ghost predicate Lost(e: Env, m: Tables, t: string, x: Body) {
    && x !in RoundA(e, m, t).0.a && RoundA(e, m, t).1.divergent > 0
    && RoundA(e, m, t).1.verdict == Some(ContentFork) && Failure(A, t) !in Result(e, m).Failures()
  }

  /** So whenever the parent table cannot be read: each new child of a parent not held is lost. */
  lemma UnreadableParentLosesTheChild(e: Env, m: Tables, t: string, ref: Reference, u: set<Body>, peer: RowsA, x: Body)
    requires ReadyA(e, t, u, TableOf(m, t).a, peer) && e.schema.parent(t) == Some(ref)
    requires x in peer && x !in TableOf(m, t).a && ref.table in e.faults.readA
    requires !Present(ref.column, e.schema.specA(ref.table), TableOf(m, ref.table).a, x)
    ensures Lost(e, m, t, x)
  {
    NeverPlanned(e, m, ref.table);
    OrphanIsLost(e, m, t, ref, u, peer, x);
  }

  /** And whenever the registry has the child first, although nothing fails. */
  lemma ChildFirstIsLost(e: Env, m: Tables, t: string, ref: Reference, u: set<Body>, peer: RowsA, x: Body)
    requires ReadyA(e, t, u, TableOf(m, t).a, peer) && e.schema.parent(t) == Some(ref) && !Before(e, ref.table, t)
    requires x in peer && x !in TableOf(m, t).a
    requires !Present(ref.column, e.schema.specA(ref.table), TableOf(m, ref.table).a, x)
    ensures Lost(e, m, t, x)
  {
    OrphanIsLost(e, m, t, ref, u, peer, x);
  }

  // ----- an account and a link to it -----

  const ACCOUNTS := "user_accounts"
  const LINKS := "agent_account_links"

  /** A round without faults, from two empty tables, against an honest peer that holds an account
      and a link to it, each acceptable to an empty table. */
  ghost predicate Linked(g: Env, account: Body, link: Body) {
    && g.faults == NO_FAULTS && g.schema.tierB == [] && g.schema.parent(ACCOUNTS).None?
    && g.schema.parent(LINKS).Some? && g.schema.parent(LINKS).value.table == ACCOUNTS
    && g.schema.parent(LINKS).value.column(link) == Some(g.schema.specA(ACCOUNTS).keyOf(account))
    && NewRow(g, ACCOUNTS, account) && NewRow(g, LINKS, link)
  }

  ghost predicate NewRow(g: Env, t: string, x: Body) {
    ReadyA(g, t, {x}, [], [x]) && g.schema.specA(t).accepts([], x)
  }

  /** Faults elsewhere leave a table ready. */
  lemma ReadyElsewhere(g: Env, faults: Faults, t: string, u: set<Body>, rows: RowsA, peer: RowsA)
    requires ReadyA(g, t, u, rows, peer) && FaultFree(faults, t)
    ensures ReadyA(g.(faults := faults), t, u, rows, peer)
  {
  }

  lemma TwoRowsDiffer(spec: SpecA, rows: RowsA)
    requires KeysDistinct(spec, rows)
    ensures |rows| > 1 ==> rows[0] != rows[1]
  {
  }

  lemma OneRowPulled(spec: SpecA, x: Body)
    requires Universe(spec, {x}) && spec.accepts([], x)
    ensures Pulled(spec, [], [x]).rows == [x] && |Wanted(spec, [], [x])| == 1
  {
    PullExhaustsThePeer(spec, {x}, [], [x]);
    var p, w := Pulled(spec, [], [x]).rows, Wanted(spec, [], [x]);
    assert x in [x];
    if p == [] {
      assert Inserts(spec, p, x);
    }
    TwoRowsDiffer(spec, p);
    forall i | 0 <= i < |p| ensures p[i] == x { assert p[i] in p; }
    WantedRows(spec, {x}, [], [x]);
    assert Elements(w) == {spec.hashOf(x)};
    DistinctLength(w);
  }

  lemma OneRowArrives(g: Env, t: string, x: Body)
    requires NewRow(g, t, x) && SpecAt(g, map[], t).accepts([], x)
    ensures RoundA(g, map[], t).0.a == [x] && RoundA(g, map[], t).1 == Inserted(1, 1, 1) && PlanA(g, t, []).Got?
  {
    HonestRoundA(g, map[], t, {x}, [x]);
    ReadyAtTurn(g, map[], t, {x}, [x]);
    var spec := SpecAt(g, map[], t);
    OneRowPulled(spec, x);
    FoldAOnlyAppends(spec, {}, [], Serve(spec, [x], Wanted(spec, [], [x])));
  }

  lemma AccountArrives(g: Env, account: Body, link: Body)
    requires Linked(g, account, link)
    ensures RoundA(g, map[], ACCOUNTS).0.a == [account] && RoundA(g, map[], ACCOUNTS).1 == Inserted(1, 1, 1)
    ensures PlanA(g, ACCOUNTS, []).Got?
  {
    OneRowArrives(g, ACCOUNTS, account);
  }

  lemma LinkArrives(g: Env, account: Body, link: Body)
    requires Linked(g, account, link) && Before(g, ACCOUNTS, LINKS)
    ensures RoundA(g, map[], LINKS).0.a == [link] && RoundA(g, map[], LINKS).1 == Inserted(1, 1, 1)
    ensures PlanA(g, LINKS, []).Got?
  {
    AccountArrives(g, account, link);
    NowBound(g.schema.specA(ACCOUNTS), [account], account);
    OneRowArrives(g, LINKS, link);
  }

  lemma LinkIsAnOrphan(g: Env, account: Body, link: Body)
    requires Linked(g, account, link)
    ensures !Present(g.schema.parent(LINKS).value.column, g.schema.specA(ACCOUNTS), TableOf(map[], ACCOUNTS).a, link)
  {
    assert TableOf(map[], ACCOUNTS).a == [];
  }

  /** The failing inputs, for any rows, encoders and hashes: with the account table registered first
      the account arrives with its link; the link is lost when the account table cannot be read. */
  lemma LinkIsLostWithItsAccount(g: Env, account: Body, link: Body)
    requires Linked(g, account, link) && Before(g, ACCOUNTS, LINKS)
    ensures var bad := NO_FAULTS.(readA := {ACCOUNTS});
      && RoundA(g, map[], LINKS).0.a == [link]
      && FaultFree(bad, LINKS) && Lost(g.(faults := bad), map[], LINKS, link)
  {
    var bad := NO_FAULTS.(readA := {ACCOUNTS});
    LinkArrives(g, account, link);
    LinkIsAnOrphan(g, account, link);
    ReadyElsewhere(g, bad, LINKS, {link}, [], [link]);
    UnreadableParentLosesTheChild(g.(faults := bad), map[], LINKS, g.schema.parent(LINKS).value, {link}, [link], link);
  }

  /** With the link table first the link is lost although nothing fails and the account arrives. */
  lemma LinkIsLostBeforeItsAccount(g: Env, account: Body, link: Body)
    requires Linked(g, account, link) && !Before(g, ACCOUNTS, LINKS)
    ensures Lost(g, map[], LINKS, link) && RoundA(g, map[], ACCOUNTS).0.a == [account]
  {
    AccountArrives(g, account, link);
    LinkIsAnOrphan(g, account, link);
    ChildFirstIsLost(g, map[], LINKS, g.schema.parent(LINKS).value, {link}, [link], link);
  }

  lemma AccountsFirst(g: Env)
    requires g.schema.tierA == [ACCOUNTS, LINKS]
    ensures Before(g, ACCOUNTS, LINKS)
  {
    assert g.schema.tierA[1..] == [LINKS] && ACCOUNTS != LINKS;
  }

  lemma TwoTablesLive(g: Env, s: string, t: string)
    requires g.schema.tierA == [s, t] && g.schema.tierB == []
    requires PlanA(g, s, []).Got? && !RoundA(g, map[], s).1.aborted
    requires PlanA(g, t, []).Got? && !RoundA(g, map[], t).1.aborted
    ensures !Dies(g, map[])
  {
    DiesAtSomeTable(g, map[]);
    forall r ensures !FatalA(g, map[], r) && !FatalB(g, map[], r) {
      if r == s || r == t { assert !FatalA(g, map[], r); } else { assert r !in g.schema.tierA; }
    }
  }

  lemma LinkedLives(g: Env, account: Body, link: Body)
    requires Linked(g, account, link) && g.schema.tierA == [ACCOUNTS, LINKS]
    ensures !Dies(g, map[])
  {
    AccountsFirst(g);
    AccountArrives(g, account, link);
    LinkArrives(g, account, link);
    TwoTablesLive(g, ACCOUNTS, LINKS);
  }

  lemma OneRowDiffers(g: Env, t: string, x: Body)
    requires NewRow(g, t, x)
    ensures Digest(g.state.tierA, t).Some?
      && Digest(g.state.tierA, t).value != TableDigest(g.sha, Hashes(g.schema.specA(t), []))
  {
    var spec := g.schema.specA(t);
    TableDigestIsExact(g.sha, Hashes(spec, []), Hashes(spec, [x]));
    assert Hashes(spec, [x])[0] in Elements(Hashes(spec, [x])) && Elements(Hashes(spec, [])) == {};
  }

  /** A failing input for "a round loses only the failing table": one second read fails, and the
      round that would have brought both rows is lost whole. */
  lemma OneRereadLosesTheRound(g: Env, account: Body, link: Body)
    requires Linked(g, account, link) && g.schema.tierA == [ACCOUNTS, LINKS]
    ensures !Dies(g, map[]) && Dies(g.(faults := NO_FAULTS.(rereadA := {ACCOUNTS})), map[])
  {
    var e := g.(faults := NO_FAULTS.(rereadA := {ACCOUNTS}));
    assert e.(faults := NO_FAULTS) == g;
    LinkedLives(g, account, link);
    OneRowDiffers(g, ACCOUNTS, account);
    assert RereadFails(e, map[], ACCOUNTS);
    OnlyRereadsAreFatal(e, map[]);
  }

  // ----- such a peer -----

  /** What a peer that holds these append-only tables advertises and answers. */
  ghost function Facing(sha: string -> string, schema: Schema, peer: string -> RowsA): Env {
    var state := WireState(Advertisement(schema.tierA, {}, t => TableDigest(sha, Hashes(schema.specA(t), peer(t)))),
                           []);
    Env(sha, v => "", schema, NO_FAULTS,
        Script(Got(state), t => Got(BucketVector(sha, Hashes(schema.specA(t), peer(t)))),
               (t, w) => Got(InBuckets(Hashes(schema.specA(t), peer(t)), w)), t => Got([]),
               (t, hs) => Got(Serve(schema.specA(t), peer(t), hs)), (t, ks) => Got([])), state)
  }

  /** So honest rounds exist for every registry and every rows. */
  lemma FacingIsHonest(sha: string -> string, schema: Schema, peer: string -> RowsA, t: string)
    requires Distinct(schema.tierA) && t in schema.tierA
    ensures HonestA(Facing(sha, schema, peer), t, peer(t))
  {
    DroppedByTheResponder(schema.tierA, {}, x => TableDigest(sha, Hashes(schema.specA(x), peer(x))), t);
  }
}
