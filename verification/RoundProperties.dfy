/** What a round guarantees against a peer that answers anything, and against local failures. */
module RoundProperties {
  import opened Ordering
  import opened Reconciliation
  import opened Merges
  import opened Rows
  import opened Store
  import opened Channel
  import opened Engine

  // ----- a registration and its foreign key -----

  /** Two registrations of one table that differ at most in what the database accepts. */
  ghost predicate SameCoding(r: SpecA, s: SpecA) {
    r == s.(accepts := r.accepts)
  }

  lemma SpecAtCoding(e: Env, m: Tables, t: string)
    ensures SameCoding(SpecAt(e, m, t), e.schema.specA(t))
  {
  }

  // ----- never more than planned -----

  ghost predicate FullyServedA(e: Env, m: Tables, t: string) {
    var plan := WantedA(e, m, t);
    plan != [] ==>
      && e.script.pullA(t, plan).Got?
      && (forall h :: h in plan ==> h in Labels(HashOf, e.script.pullA(t, plan).value))
      && !RoundA(e, m, t).1.failed
  }

  ghost predicate FullyServedB(e: Env, m: Tables, t: string) {
    var plan := WantedB(e, m, t);
    plan != [] ==>
      && e.script.pullB(t, plan).Got?
      && (forall k :: k in plan ==> k in Labels(KeyOf, e.script.pullB(t, plan).value))
      && !RoundB(e, m, t).1.failed
  }

  lemma PlanAIsDistinct(e: Env, t: string, rows: RowsA)
    ensures Distinct(OrEmpty(PlanA(e, t, rows)))
  {
    var mine := Hashes(e.schema.specA(t), rows);
    if ComparesA(e, t, mine) && Walk(e.sha, e.script, e.faults.rereadA, t, mine).Got? {
      MissingLocallyIsDifference(mine, Walk(e.sha, e.script, e.faults.rereadA, t, mine).value);
    }
  }

  lemma PlanBIsDistinct(e: Env, t: string, rows: RowsB)
    requires Shaped(e.script)
    ensures Distinct(OrEmpty(PlanB(e, t, rows)))
  {
    if e.script.versions(t).Got? {
      StaleIsExact(Versions(e.schema.specB(t), rows), e.script.versions(t).value);
    }
  }

  lemma TableWithinPlanA(e: Env, m: Tables, t: string)
    ensures RoundA(e, m, t).1.pulled <= RoundA(e, m, t).1.planned
    ensures RoundA(e, m, t).1.pulled == RoundA(e, m, t).1.planned <==> FullyServedA(e, m, t)
  {
    var plan := WantedA(e, m, t);
    PlanAIsDistinct(e, t, TableOf(m, t).a);
    if e.script.pullA(t, plan).Got? {
      KeptCount(HashOf, e.script.pullA(t, plan).value, plan);
    }
  }

  lemma TableWithinPlanB(e: Env, m: Tables, t: string)
    requires Shaped(e.script)
    ensures RoundB(e, m, t).1.pulled <= RoundB(e, m, t).1.planned
    ensures RoundB(e, m, t).1.pulled == RoundB(e, m, t).1.planned <==> FullyServedB(e, m, t)
  {
    var plan := WantedB(e, m, t);
    PlanBIsDistinct(e, t, TableOf(m, t).b);
    if e.script.pullB(t, plan).Got? {
      KeptCount(KeyOf, e.script.pullB(t, plan).value, plan);
    }
  }

  lemma {:induction false} TallyWithinPlan(tier: Tier, tables: seq<string>, round: string -> (Table, Counts))
    requires forall t :: t in tables ==> round(t).1.pulled <= round(t).1.planned
    ensures TallyOf(tier, tables, round).pulled <= TallyOf(tier, tables, round).planned
    ensures TallyOf(tier, tables, round).pulled == TallyOf(tier, tables, round).planned
      <==> forall t :: t in tables ==> round(t).1.pulled == round(t).1.planned
  {
    if tables != [] {
      var n := |tables| - 1;
      TallyWithinPlan(tier, tables[..n], round);
      assert tables == tables[..n] + [tables[n]];
    }
  }

  /** Against an arbitrary peer the round never pulls more than it planned, over all tables
      together, and the shortfall is zero exactly when every planned record of every table was
      served and its table applied: no over-serving elsewhere can hide a withheld record. */
  lemma ShortfallIsExact(e: Env, m: Tables)
    requires Shaped(e.script)
    ensures var r := Result(e, m);
      && r.Pulled() <= r.Planned()
      && (r.Pulled() == r.Planned() <==>
            && (forall t :: t in e.schema.tierA ==> FullyServedA(e, m, t))
            && (forall t :: t in e.schema.tierB ==> FullyServedB(e, m, t)))
  {
    forall t ensures RoundsA(e, m)(t).1.pulled <= RoundsA(e, m)(t).1.planned
      && (RoundsA(e, m)(t).1.pulled == RoundsA(e, m)(t).1.planned <==> FullyServedA(e, m, t))
    {
      TableWithinPlanA(e, m, t);
    }
    forall t ensures RoundsB(e, m)(t).1.pulled <= RoundsB(e, m)(t).1.planned
      && (RoundsB(e, m)(t).1.pulled == RoundsB(e, m)(t).1.planned <==> FullyServedB(e, m, t))
    {
      TableWithinPlanB(e, m, t);
    }
    TallyWithinPlan(A, e.schema.tierA, RoundsA(e, m));
    TallyWithinPlan(B, e.schema.tierB, RoundsB(e, m));
  }

  /** Nothing the peer serves can touch a row that is already there or forge one: every new
      Tier-A row was planned, served under its own content hash, and is new under its key. */
  lemma OnlyPlannedRowsLand(e: Env, m: Tables, t: string, x: Body)
    ensures var rows, after := TableOf(m, t).a, RoundA(e, m, t).0.a;
      && |rows| <= |after| && after[..|rows|] == rows
      && (x in after[|rows|..] ==> e.schema.specA(t).hashOf(x) in WantedA(e, m, t))
  {
    SpecAtCoding(e, m, t);
    KeptRowsLand(e, t, SpecAt(e, m, t), TableOf(m, t), WantedA(e, m, t), x);
  }

  lemma KeptRowsLand(e: Env, t: string, spec: SpecA, here: Table, plan: seq<string>, x: Body)
    ensures var rows, after := here.a, ApplyA(e, t, spec, here, plan).0.a;
      && |rows| <= |after| && after[..|rows|] == rows
      && (x in after[|rows|..] ==> spec.hashOf(x) in plan)
  {
    if plan != [] && e.script.pullA(t, plan).Got? {
      var raw := e.script.pullA(t, plan).value;
      var kept := Keep(HashOf, raw, plan);
      FoldAOnlyAppends(spec, Refused(e.faults.refusedA, t), here.a, kept);
      forall r | r in kept ensures r.hash in plan {
        KeptAreRequestedOnce(HashOf, raw, plan);
        LabelOf(HashOf, kept, r);
      }
    }
  }

  lemma LabelOf<R>(name: R -> string, records: seq<R>, r: R)
    requires r in records
    ensures name(r) in Labels(name, records)
  {
    var i :| 0 <= i < |records| && records[i] == r;
    assert Labels(name, records)[i] == name(r);
  }

  // ----- what is reported -----

  /** What a Tier-A half that went through reports: rows added as applied, the rest of what was fetched
      as divergent, a content fork if there is any. */
  lemma CountsAreRows(e: Env, m: Tables, t: string)
    requires var c := RoundA(e, m, t).1; !c.failed && !c.aborted
    ensures var c, grown := RoundA(e, m, t).1, |RoundA(e, m, t).0.a| - |TableOf(m, t).a|;
      && c.planned == |WantedA(e, m, t)| && c.applied == grown && c.divergent == c.pulled - grown
      && c.verdict == (if c.divergent > 0 then Some(ContentFork) else None) && c.keys == []
  {
    var plan := WantedA(e, m, t);
    if plan != [] && e.script.pullA(t, plan).Got? {
      var kept := Keep(HashOf, e.script.pullA(t, plan).value, plan);
      FoldAOnlyAppends(SpecAt(e, m, t), Refused(e.faults.refusedA, t), TableOf(m, t).a, kept);
    }
  }

  /** And a Tier-B half that went through reports what the store did. */
  lemma CountsAreTheStores(e: Env, m: Tables, t: string)
    requires WantedB(e, m, t) != [] && ServedB(e.script, t, WantedB(e, m, t)).Got? && !RoundB(e, m, t).1.failed
    ensures var c, records := RoundB(e, m, t).1, ServedB(e.script, t, WantedB(e, m, t)).value;
      var f := FoldB(e.schema.specB(t), Outage(e.faults.applyB, t), RoundA(e, m, t).0.b, records);
      var r := Report(e.schema.specB(t), |records|, f);
      && RoundB(e, m, t).0.b == f.rows && !f.thrown
      && (c.planned, c.pulled) == (|WantedB(e, m, t)|, |records|)
      && (c.applied, c.divergent) == (r.applied, r.divergent) && c.keys == r.keys && c.verdict == r.verdict
  {
  }

  ghost predicate Sums(x: Tally, y: Tally, z: Tally) {
    && z.planned == x.planned + y.planned && z.pulled == x.pulled + y.pulled && z.applied == x.applied + y.applied
    && z.failures == x.failures + y.failures && z.unconverged == x.unconverged + y.unconverged
  }

  lemma SumsOneMore(tier: Tier, t: string, c: Counts, x: Tally, y: Tally, z: Tally)
    requires Sums(x, y, z)
    ensures Sums(x, Add(tier, t, c, y), Add(tier, t, c, z))
  {
  }

  lemma TallyOneMore(tier: Tier, s: seq<string>, t: string, round: string -> (Table, Counts))
    ensures TallyOf(tier, s + [t], round) == Add(tier, t, round(t).1, TallyOf(tier, s, round))
  {
    assert (s + [t])[..|s|] == s;
  }

  /** The totals of a tier are the sums over its tables, its failures and reports theirs in order. */
  lemma {:induction false} TallyAddsUp(tier: Tier, s: seq<string>, t: seq<string>, round: string -> (Table, Counts))
    ensures Sums(TallyOf(tier, s, round), TallyOf(tier, t, round), TallyOf(tier, s + t, round))
  {
    if t == [] {
      NothingMore(TallyOf(tier, s, round));
      assert s + t == s;
    } else {
      var n := |t| - 1;
      var init, last := t[..n], t[n];
      TallyAddsUp(tier, s, init, round);
      TallyOneMore(tier, init, last, round);
      TallyOneMore(tier, s + init, last, round);
      SumsOneMore(tier, last, round(last).1, TallyOf(tier, s, round), TallyOf(tier, init, round),
                  TallyOf(tier, s + init, round));
      assert init + [last] == t && (s + init) + [last] == s + t;
    }
  }

  lemma NothingMore(x: Tally)
    ensures Sums(x, ZERO, x)
  {
  }

  lemma TallyOfOne(tier: Tier, t: string, round: string -> (Table, Counts))
    ensures var x, c := TallyOf(tier, [t], round), round(t).1;
      && (x.planned, x.pulled, x.applied) == (c.planned, c.pulled, c.applied)
      && x.failures == (if c.failed then [Failure(tier, t)] else [])
      && (c.divergent == 0 ==> x.unconverged == [])
      && (c.divergent > 0 && c.verdict.Some? ==>
            x.unconverged ==
              [Unconverged(tier, t, c.planned, c.pulled, c.applied, c.divergent, c.verdict.value, c.keys)])
  {
    assert [t][..0] == [] && TallyOf(tier, [], round) == ZERO;
  }

  /** Detail of a table is asked for only where it is registered and readable here, was advertised, and
      the digests differ; and records only where the plan is not empty. */
  lemma DetailOnlyWhereDigestsDiffer(e: Env, m: Tables, f: Request)
    requires Justified(e, m, f)
    ensures match f
      case StateReq => false
      case BucketsReq(t) => DigestsDifferA(e, m, t)
      case BucketHashesReq(t, _) => DigestsDifferA(e, m, t)
      case VersionsReq(t) => DigestsDifferB(e, m, t)
      case PullA(t, hs) => DigestsDifferA(e, m, t) && hs != []
      case PullB(t, ks) => DigestsDifferB(e, m, t) && ks != []
  {
  }

  ghost predicate DigestsDifferA(e: Env, m: Tables, t: string) {
    && t in e.schema.tierA && t !in e.faults.readA && Digest(e.state.tierA, t).Some?
    && Digest(e.state.tierA, t).value != TableDigest(e.sha, Hashes(e.schema.specA(t), TableOf(m, t).a))
  }

  ghost predicate DigestsDifferB(e: Env, m: Tables, t: string) {
    && t in e.schema.tierB && t !in e.faults.readB && Digest(e.state.tierB, t).Some?
    && Digest(e.state.tierB, t).value != e.digestB(Versions(e.schema.specB(t), TableOf(m, t).b))
  }

  // ----- INSERTs that fail -----

  /** The bodies at the positions whose INSERT did not fail. */
  function Unrefused(refused: set<nat>, records: seq<RecordA>): RowsA {
    if records == [] then []
    else
      var n := |records| - 1;
      var before := Unrefused(refused, records[..n]);
      if n in refused then before else before + [records[n].body]
  }

  function RefusedCount(refused: set<nat>, n: nat): nat {
    if n == 0 then 0 else RefusedCount(refused, n - 1) + if n - 1 in refused then 1 else 0
  }

  function Bodies(records: seq<RecordA>): RowsA {
    seq(|records|, i requires 0 <= i < |records| => records[i].body)
  }

  /** Beside rows of this pool under other keys no constraint keeps the row out. */
  ghost predicate RoomFor(spec: SpecA, pool: RowsA, x: Body) {
    forall z: RowsA :: (forall b :: b in z ==> b in pool && spec.keyOf(b) != spec.keyOf(x)) ==> spec.accepts(z, x)
  }

  /** Constraints that hold between pairs of rows, as unique columns do, besides what a row must
      meet by itself. */
  ghost predicate Columns(spec: SpecA, fit: Body -> bool, apart: (Body, Body) -> bool) {
    forall z, x :: spec.accepts(z, x) <==> fit(x) && forall b :: b in z ==> apart(b, x)
  }

  /** Under such constraints there is room exactly when no row of the pool clashes. */
  lemma RoomExactly(spec: SpecA, fit: Body -> bool, apart: (Body, Body) -> bool, pool: RowsA, x: Body)
    requires Columns(spec, fit, apart)
    ensures RoomFor(spec, pool, x) <==>
      fit(x) && forall b :: b in pool && spec.keyOf(b) != spec.keyOf(x) ==> apart(b, x)
  {
    if RoomFor(spec, pool, x) {
      assert spec.accepts([], x);
      forall b | b in pool && spec.keyOf(b) != spec.keyOf(x) ensures apart(b, x) {
        assert spec.accepts([b], x) && b in [b];
      }
    }
  }

  /** Genuine records of new keys, each with room beside the rows held and the records before it. */
  ghost predicate FreshBatch(spec: SpecA, rows: RowsA, records: seq<RecordA>) {
    && (forall i :: 0 <= i < |records| ==>
          Genuine(spec, records[i]) && !Bound(spec, rows, spec.keyOf(records[i].body))
          && RoomFor(spec, rows + Bodies(records[..i]), records[i].body))
    && (forall i, j :: 0 <= i < j < |records| ==> spec.keyOf(records[i].body) != spec.keyOf(records[j].body))
  }

  lemma FreshPrefix(spec: SpecA, rows: RowsA, records: seq<RecordA>, n: nat)
    requires FreshBatch(spec, rows, records) && n <= |records|
    ensures FreshBatch(spec, rows, records[..n])
  {
    forall i | 0 <= i < n ensures records[..n][..i] == records[..i] {}
  }

  lemma {:induction false} UnrefusedKeys(refused: set<nat>, records: seq<RecordA>)
    ensures forall x :: x in Unrefused(refused, records) ==> exists i :: 0 <= i < |records| && records[i].body == x
  {
    if records != [] {
      var n := |records| - 1;
      UnrefusedKeys(refused, records[..n]);
      forall x | x in Unrefused(refused, records) ensures exists i :: 0 <= i < |records| && records[i].body == x {
        if x in Unrefused(refused, records[..n]) {
          var i :| 0 <= i < n && records[..n][i].body == x;
          assert records[i].body == x;
        } else {
          assert records[n].body == x;
        }
      }
    }
  }

  lemma {:induction false} FoldASkipsRefused(spec: SpecA, refused: set<nat>, rows: RowsA, records: seq<RecordA>)
    requires FreshBatch(spec, rows, records)
    ensures FoldA(spec, refused, rows, records)
      == BatchA(rows + Unrefused(refused, records), |Unrefused(refused, records)|, false)
    ensures |Unrefused(refused, records)| + RefusedCount(refused, |records|) == |records|
  {
    if records != [] {
      var n := |records| - 1;
      FreshPrefix(spec, rows, records, n);
      FoldASkipsRefused(spec, refused, rows, records[..n]);
      FreshInserts(spec, refused, rows, records);
    }
  }

  /** The last record of a fresh batch inserts, whichever of the others did. */
  lemma FreshInserts(spec: SpecA, refused: set<nat>, rows: RowsA, records: seq<RecordA>)
    requires FreshBatch(spec, rows, records) && records != []
    ensures Inserts(spec, rows + Unrefused(refused, records[..|records| - 1]), records[|records| - 1].body)
  {
    var n := |records| - 1;
    var sofar, x := rows + Unrefused(refused, records[..n]), records[n].body;
    UnrefusedKeys(refused, records[..n]);
    forall b | b in sofar ensures b in rows + Bodies(records[..n]) && spec.keyOf(b) != spec.keyOf(x) {
      if b in rows {
        var i :| 0 <= i < |rows| && rows[i] == b;
      } else {
        var j :| 0 <= j < n && records[..n][j].body == b;
        assert Bodies(records[..n])[j] == b && spec.keyOf(records[j].body) != spec.keyOf(x);
      }
    }
    forall i | 0 <= i < |sofar| ensures spec.keyOf(sofar[i]) != spec.keyOf(x) { assert sofar[i] in sofar; }
    assert RoomFor(spec, rows + Bodies(records[..n]), x);
  }

  /** A database that fails under its own INSERTs is not reported as a failure. The table holds
      exactly the rest of the batch, the missing records are counted as a content fork, the table
      is absent from `failures`, and nothing looks withheld. */
  lemma RefusedInsertsLookLikeAFork(e: Env, m: Tables, t: string, records: seq<RecordA>)
    requires t in e.schema.tierA && WantedA(e, m, t) != [] && ServedA(e.script, t, WantedA(e, m, t)) == Got(records)
    requires FreshBatch(SpecAt(e, m, t), TableOf(m, t).a, records)
    ensures var refused := Refused(e.faults.refusedA, t); var lost := RefusedCount(refused, |records|);
      && RoundA(e, m, t).0.a == TableOf(m, t).a + Unrefused(refused, records)
      && RoundA(e, m, t).1.divergent == lost && RoundA(e, m, t).1.pulled == |records|
      && (lost > 0 ==> RoundA(e, m, t).1.verdict == Some(ContentFork))
      && Failure(A, t) !in Result(e, m).a.failures
      && (lost > 0 <==> exists u :: u in Result(e, m).a.unconverged && u.table == t && u.divergent == lost)
  {
    FoldASkipsRefused(SpecAt(e, m, t), Refused(e.faults.refusedA, t), TableOf(m, t).a, records);
    ReportIsExact(e, m, t);
    var lost := RefusedCount(Refused(e.faults.refusedA, t), |records|);
    assert RoundA(e, m, t).1.divergent == lost;
    TallyIsExact(A, e.schema.tierA, RoundsA(e, m));
    if lost > 0 {
      assert Reported(A, t, RoundA(e, m, t).1) in Result(e, m).a.unconverged;
    }
    assert RoundsA(e, m)(t) == RoundA(e, m, t);
  }

  ghost predicate BadService(spec: SpecA, served: Reply<seq<RecordA>>) {
    match served
    case Got(records) => exists r :: r in records && !Genuine(spec, r)
    case WireFailed => false
    case OtherFailed => true
  }

  /** A table fails exactly when the peer's serving fails short of the wire, or a kept record
      does not pass the checks before its INSERT. */
  lemma FailsExactlyA(e: Env, m: Tables, t: string)
    ensures var plan := WantedA(e, m, t);
      RoundA(e, m, t).1.failed <==> plan != [] && BadService(e.schema.specA(t), ServedA(e.script, t, plan))
  {
    var plan := WantedA(e, m, t);
    SpecAtCoding(e, m, t);
    if plan != [] && ServedA(e.script, t, plan).Got? {
      var records := ServedA(e.script, t, plan).value;
      FoldAThrowsExactly(SpecAt(e, m, t), Refused(e.faults.refusedA, t), TableOf(m, t).a, records);
      forall r | r in records ensures Genuine(SpecAt(e, m, t), r) <==> Genuine(e.schema.specA(t), r) {}
    }
  }

  // ----- isolation -----

  const NO_FAULTS := Faults({}, {}, {}, map[], map[])

  /** Two rounds look the same from the physical table `t`, in both its tiers. */
  ghost predicate SameFor(e: Env, f: Env, t: string) {
    && e.sha == f.sha && e.digestB == f.digestB && SameForA(e, f, t) && SameForB(e, f, t)
  }

  ghost predicate SameForA(e: Env, f: Env, t: string) {
    && e.schema.specA(t) == f.schema.specA(t) && (t in e.schema.tierA <==> t in f.schema.tierA)
    && (t in e.faults.readA <==> t in f.faults.readA) && (t in e.faults.rereadA <==> t in f.faults.rereadA)
    && Refused(e.faults.refusedA, t) == Refused(f.faults.refusedA, t)
    && Digest(e.state.tierA, t) == Digest(f.state.tierA, t)
    && e.script.buckets(t) == f.script.buckets(t)
    && (forall w :: e.script.bucketHashes(t, w) == f.script.bucketHashes(t, w))
    && (forall p :: e.script.pullA(t, p) == f.script.pullA(t, p))
  }

  ghost predicate SameForB(e: Env, f: Env, t: string) {
    && e.schema.specB(t) == f.schema.specB(t) && (t in e.schema.tierB <==> t in f.schema.tierB)
    && (t in e.faults.readB <==> t in f.faults.readB)
    && Outage(e.faults.applyB, t) == Outage(f.faults.applyB, t)
    && Digest(e.state.tierB, t) == Digest(f.state.tierB, t)
    && e.script.versions(t) == f.script.versions(t)
    && (forall p :: e.script.pullB(t, p) == f.script.pullB(t, p))
  }

  /** Two rounds look the same from a table and from every table its foreign key leads back to. */
  ghost predicate SameLine(e: Env, f: Env, m: Tables, m': Tables, t: string)
    decreases Position(e.schema.tierA, t)
  {
    && SameFor(e, f, t) && TableOf(m, t) == TableOf(m', t) && e.schema.parent(t) == f.schema.parent(t)
    && (e.schema.parent(t).Some? ==>
          var p := e.schema.parent(t).value.table;
          && e.schema.specA(p) == f.schema.specA(p) && (Before(e, p, t) <==> Before(f, p, t))
          && (if Before(e, p, t) then SameLine(e, f, m, m', p) else TableOf(m, p).a == TableOf(m', p).a))
  }

  /** Whatever fails, is served or is stored in any table outside its own line of foreign keys: a
      physical table's plans, counts and final contents, in both tiers, are the same. */
  lemma {:induction false} LinesAreIsolated(e: Env, f: Env, m: Tables, m': Tables, t: string)
    requires SameLine(e, f, m, m', t)
    ensures WantedA(e, m, t) == WantedA(f, m', t) && WantedB(e, m, t) == WantedB(f, m', t)
    ensures RoundA(e, m, t) == RoundA(f, m', t) && RoundB(e, m, t) == RoundB(f, m', t)
    decreases Position(e.schema.tierA, t)
  {
    SamePlans(e, f, t, TableOf(m, t));
    if e.schema.parent(t).Some? && Before(e, e.schema.parent(t).value.table, t) {
      LinesAreIsolated(e, f, m, m', e.schema.parent(t).value.table);
    }
    SameSpecs(e, f, m, m', t);
    SameApplies(e, f, t, SpecAt(e, m, t), TableOf(m, t), WantedA(e, m, t));
    SameApplies(e, f, t, SpecAt(e, m, t), RoundA(e, m, t).0, WantedB(e, m, t));
  }

  lemma SameSpecs(e: Env, f: Env, m: Tables, m': Tables, t: string)
    requires SameLine(e, f, m, m', t)
    requires e.schema.parent(t).Some? && Before(e, e.schema.parent(t).value.table, t) ==>
      RoundA(e, m, e.schema.parent(t).value.table) == RoundA(f, m', e.schema.parent(t).value.table)
    ensures SpecAt(e, m, t) == SpecAt(f, m', t)
  {
  }

  lemma SamePlans(e: Env, f: Env, t: string, x: Table)
    requires SameFor(e, f, t)
    ensures PlanA(e, t, x.a) == PlanA(f, t, x.a) && PlanB(e, t, x.b) == PlanB(f, t, x.b)
  {
  }

  lemma SameApplies(e: Env, f: Env, t: string, spec: SpecA, x: Table, plan: seq<string>)
    requires SameFor(e, f, t)
    ensures ApplyA(e, t, spec, x, plan) == ApplyA(f, t, spec, x, plan) && ApplyB(e, t, x, plan) == ApplyB(f, t, x, plan)
  {
  }

  ghost predicate FaultFree(f: Faults, t: string) {
    t !in f.readA && t !in f.rereadA && t !in f.readB && t !in f.refusedA && t !in f.applyB
  }

  /** Neither the table nor any table its foreign key leads back to has a fault. */
  ghost predicate HealthyLine(e: Env, t: string)
    decreases Position(e.schema.tierA, t)
  {
    && FaultFree(e.faults, t)
    && (e.schema.parent(t).Some? && Before(e, e.schema.parent(t).value.table, t) ==>
          HealthyLine(e, e.schema.parent(t).value.table))
  }

  lemma {:induction false} HealthyLineLooksHealthy(e: Env, m: Tables, t: string)
    requires HealthyLine(e, t)
    ensures SameLine(e, e.(faults := NO_FAULTS), m, m, t)
    decreases Position(e.schema.tierA, t)
  {
    if e.schema.parent(t).Some? && Before(e, e.schema.parent(t).value.table, t) {
      HealthyLineLooksHealthy(e, m, e.schema.parent(t).value.table);
    }
  }

  /** Such a table fares as if nothing had failed anywhere. */
  lemma HealthyLinesAreUnaffected(e: Env, m: Tables, t: string)
    requires HealthyLine(e, t)
    ensures var g := e.(faults := NO_FAULTS);
      RoundA(e, m, t) == RoundA(g, m, t) && RoundB(e, m, t) == RoundB(g, m, t)
  {
    HealthyLineLooksHealthy(e, m, t);
    LinesAreIsolated(e, e.(faults := NO_FAULTS), m, m, t);
  }

  /** The second read of a table's hashes, inside the bucket walk, takes place and fails. */
  ghost predicate RereadFails(e: Env, m: Tables, t: string) {
    && ComparesA(e, t, Hashes(e.schema.specA(t), TableOf(m, t).a))
    && t in e.faults.rereadA && e.script.buckets(t).Got?
  }

  /** "A round loses only the failing table", exactly: of the rounds that healthy tables would have
      finished, local failures end those, and only those, in which a second read takes place and
      fails. */
  lemma OnlyRereadsAreFatal(e: Env, m: Tables)
    requires !Dies(e.(faults := NO_FAULTS), m)
    ensures Dies(e, m) <==> exists t :: RereadFails(e, m, t)
  {
    DiesAtSomeTable(e.(faults := NO_FAULTS), m);
    DiesAtSomeTable(e, m);
    forall t ensures FatalA(e, m, t) || FatalB(e, m, t) <==> RereadFails(e, m, t) {
      FatalWithoutFaults(e, m, t);
    }
  }

  ghost predicate FatalA(e: Env, m: Tables, t: string) {
    t in e.schema.tierA && (!PlanA(e, t, TableOf(m, t).a).Got? || RoundA(e, m, t).1.aborted)
  }

  ghost predicate FatalB(e: Env, m: Tables, t: string) {
    t in e.schema.tierB && (!PlanB(e, t, TableOf(m, t).b).Got? || RoundB(e, m, t).1.aborted)
  }

  lemma DiesAtSomeTable(e: Env, m: Tables)
    ensures Dies(e, m) <==> exists t :: FatalA(e, m, t) || FatalB(e, m, t)
  {
    forall t ensures RoundsA(e, m)(t) == RoundA(e, m, t) && RoundsB(e, m)(t) == RoundB(e, m, t) {}
    if Dies(e, m) {
      if t :| t in e.schema.tierA && (!PlanA(e, t, TableOf(m, t).a).Got? || RoundsA(e, m)(t).1.aborted) {
        assert FatalA(e, m, t);
      } else {
        var t :| t in e.schema.tierB && (!PlanB(e, t, TableOf(m, t).b).Got? || RoundsB(e, m)(t).1.aborted);
        assert FatalB(e, m, t);
      }
    }
  }

  lemma AbortsExactly(e: Env, t: string, spec: SpecA, x: Table, plan: seq<string>)
    ensures ApplyA(e, t, spec, x, plan).1.aborted <==> plan != [] && e.script.pullA(t, plan).WireFailed?
    ensures ApplyB(e, t, x, plan).1.aborted <==> plan != [] && e.script.pullB(t, plan).WireFailed?
  {
  }

  lemma PlansWithoutFaults(e: Env, t: string, x: Table)
    ensures var g := e.(faults := NO_FAULTS); var mine := Hashes(e.schema.specA(t), x.a);
      && (PlanA(e, t, x.a) == PlanA(g, t, x.a) || PlanA(e, t, x.a) == Got([])
          || (ComparesA(e, t, mine) && t in e.faults.rereadA && e.script.buckets(t).Got?))
      && (PlanB(e, t, x.b) == PlanB(g, t, x.b) || PlanB(e, t, x.b) == Got([]))
  {
  }

  lemma FatalWithoutFaults(e: Env, m: Tables, t: string)
    ensures var g := e.(faults := NO_FAULTS);
      && (FatalA(e, m, t) ==> FatalA(g, m, t) || RereadFails(e, m, t))
      && (FatalB(e, m, t) ==> FatalB(g, m, t))
      && (RereadFails(e, m, t) ==> FatalA(e, m, t))
  {
    var g := e.(faults := NO_FAULTS);
    PlansWithoutFaults(e, t, TableOf(m, t));
    AbortsExactly(e, t, SpecAt(e, m, t), TableOf(m, t), WantedA(e, m, t));
    AbortsExactly(g, t, SpecAt(g, m, t), TableOf(m, t), WantedA(g, m, t));
    AbortsExactly(e, t, SpecAt(e, m, t), RoundA(e, m, t).0, WantedB(e, m, t));
    AbortsExactly(g, t, SpecAt(g, m, t), RoundA(g, m, t).0, WantedB(g, m, t));
  }

  /** A table that is unreadable here, or that the peer left out of its advertisement, is never
      planned: nothing is asked for, nothing changes, nothing is counted. */
  lemma NeverPlanned(e: Env, m: Tables, t: string)
    ensures t in e.faults.readA || Digest(e.state.tierA, t).None? ==>
      RoundA(e, m, t) == (TableOf(m, t), Nothing(0, false, false))
    ensures t in e.faults.readB || Digest(e.state.tierB, t).None? ==>
      RoundB(e, m, t) == (RoundA(e, m, t).0, Nothing(0, false, false))
  {
  }

  /** What a responder leaves out is exactly what it could not read. */
  lemma DroppedByTheResponder(tables: seq<string>, unreadable: set<string>, digest: string -> string, t: string)
    requires Distinct(tables)
    ensures Digest(Advertisement(tables, unreadable, digest), t)
      == if t in tables && t !in unreadable then Some(digest(t)) else None
  {
    AdvertisedExactly(tables, unreadable, digest);
    var adv := Advertisement(tables, unreadable, digest);
    if Digest(adv, t).Some? {
      DigestFinds(adv, t, Digest(adv, t).value);
    } else {
      DigestFinds(adv, t, digest(t));
    }
  }

  // ----- the report -----

  lemma {:induction false} UnreadableIsExact(tier: Tier, tables: seq<string>, unreadable: set<string>, f: Failure)
    ensures f in Unreadable(tier, tables, unreadable) <==> f.tier == tier && f.table in tables && f.table in unreadable
  {
    if tables != [] {
      UnreadableIsExact(tier, tables[..|tables| - 1], unreadable, f);
      assert tables == tables[..|tables| - 1] + [tables[|tables| - 1]];
    }
  }

  ghost predicate Reports(tier: Tier, tables: seq<string>, round: string -> (Table, Counts), u: Unconverged) {
    u.table in tables && u == Reported(tier, u.table, round(u.table).1) && u.divergent > 0
  }

  lemma {:induction false} TallyIsExact(tier: Tier, tables: seq<string>, round: string -> (Table, Counts))
    ensures var x := TallyOf(tier, tables, round);
      && (forall f :: f in x.failures <==> f.tier == tier && f.table in tables && round(f.table).1.failed)
      && (forall u :: u in x.unconverged <==> Reports(tier, tables, round, u))
  {
    if tables != [] {
      TallyIsExact(tier, tables[..|tables| - 1], round);
      assert tables == tables[..|tables| - 1] + [tables[|tables| - 1]];
    }
  }

  /** `failures` names exactly the tables that could not be read or whose pull failed, and
      `unconverged` exactly those left divergent. */
  lemma ReportIsExact(e: Env, m: Tables, t: string)
    ensures var r := Result(e, m);
      && (Failure(A, t) in r.unreadable <==> t in e.schema.tierA && t in e.faults.readA)
      && (Failure(B, t) in r.unreadable <==> t in e.schema.tierB && t in e.faults.readB)
      && (Failure(A, t) in r.a.failures <==> t in e.schema.tierA && RoundA(e, m, t).1.failed)
      && (Failure(B, t) in r.b.failures <==> t in e.schema.tierB && RoundB(e, m, t).1.failed)
      && (forall u :: u in r.a.unconverged && u.table == t <==>
            t in e.schema.tierA && u == Reported(A, t, RoundA(e, m, t).1) && u.divergent > 0)
      && (forall u :: u in r.b.unconverged && u.table == t <==>
            t in e.schema.tierB && u == Reported(B, t, RoundB(e, m, t).1) && u.divergent > 0)
  {
    UnreadableIsExact(A, e.schema.tierA, e.faults.readA, Failure(A, t));
    UnreadableIsExact(B, e.schema.tierB, e.faults.readB, Failure(A, t));
    UnreadableIsExact(A, e.schema.tierA, e.faults.readA, Failure(B, t));
    UnreadableIsExact(B, e.schema.tierB, e.faults.readB, Failure(B, t));
    TallyIsExact(A, e.schema.tierA, RoundsA(e, m));
    TallyIsExact(B, e.schema.tierB, RoundsB(e, m));
    assert RoundsA(e, m)(t) == RoundA(e, m, t) && RoundsB(e, m)(t) == RoundB(e, m, t);
  }
}
