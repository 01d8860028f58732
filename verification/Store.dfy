/** The replicated store: how a pulled batch is applied to one table, record by record. Tier A
    inserts by natural key if absent; Tier B merges under the row's key. The per-table encoders,
    merges and constraints are function values. */
module Store {
  import opened Ordering
  import opened Reconciliation
  import opened Merges
  import opened Rows

  const ZEROS: string := seq(HASH_CHARS, _ => '0')

  type RecordHash = h: string | WellFormed(h) witness ZEROS

  datatype RecordA = RecordA(hash: string, body: Body)
  datatype RecordB = RecordB(key: string, body: Body)

  /** A hash-chained table needs an injected writer and hex in every BYTEA column. */
  datatype Chain = Unchained | Chained(writer: bool, hex: Body -> bool)

  /** `complete`: no required column is null. `accepts`: the database raises nothing on inserting
      the row beside the present ones (its unique constraints, its column encodings). `opens`: for
      a table whose rows Tier B carries as well, the mutable half a new row starts with. */
  datatype SpecA = SpecA(keyOf: Body -> string, hashOf: Body -> RecordHash, complete: Body -> bool, chain: Chain,
                         accepts: (seq<Body>, Body) -> bool, opens: Option<Body -> Body>)

  /** `stored`: the row a body is stored as. `owns`: the entry may insert a row the node has not
      seen. `disagrees`: the disagreement no merge settles, for the tables that have one. */
  datatype SpecB = SpecB(keyOf: Body -> string, valid: Body -> bool, stored: Body -> Body,
                         merge: (Body, Body) -> Body, version: Body -> string, owns: bool,
                         disagrees: Option<(Body, Body) -> bool>)

  type RowsA = seq<Body>
  type RowsB = map<string, Body>

  /** One physical table: the columns Tier A carries and those Tier B carries. */
  datatype Table = Table(a: RowsA, b: RowsB)

  const EMPTY := Table([], map[])

  function Hashes(spec: SpecA, rows: RowsA): (hs: seq<string>)
    ensures AllWellFormed(hs)
  {
    var hs := seq(|rows|, i requires 0 <= i < |rows| => spec.hashOf(rows[i]));
    assert forall i :: 0 <= i < |hs| ==> hs[i] == spec.hashOf(rows[i]) && WellFormed(hs[i]);
    hs
  }

  function Versions(spec: SpecB, rows: RowsB): map<string, string> {
    map k | k in rows :: spec.version(rows[k])
  }

  predicate Bound(spec: SpecA, rows: RowsA, key: string) {
    exists i :: 0 <= i < |rows| && spec.keyOf(rows[i]) == key
  }

  /** The table's unique natural key. */
  ghost predicate KeysDistinct(spec: SpecA, rows: RowsA) {
    forall i, j :: 0 <= i < j < |rows| ==> spec.keyOf(rows[i]) != spec.keyOf(rows[j])
  }

  /** Every row is filed under its own key. */
  ghost predicate Keyed(spec: SpecB, rows: RowsB) {
    forall k :: k in rows ==> spec.keyOf(rows[k]) == k
  }

  ghost predicate KeepsKeys(spec: SpecB) {
    && (forall x :: spec.keyOf(spec.stored(x)) == spec.keyOf(x))
    && (forall a, b :: spec.keyOf(a) == spec.keyOf(b) ==> spec.keyOf(spec.merge(a, b)) == spec.keyOf(a))
  }

  // ----- Tier A -----

  datatype BatchA = BatchA(rows: RowsA, inserted: nat, thrown: bool)

  /** The checks before the INSERT; only these throw. */
  predicate Genuine(spec: SpecA, r: RecordA) {
    && spec.complete(r.body) && spec.hashOf(r.body) == r.hash
    && (spec.chain.Chained? ==> spec.chain.writer && spec.chain.hex(r.body))
  }

  predicate Inserts(spec: SpecA, rows: RowsA, b: Body) {
    !Bound(spec, rows, spec.keyOf(b)) && spec.accepts(rows, b)
  }

  /** The batch up to and including each record. A record that fails the checks throws there and
      leaves what was already inserted. An INSERT that fails, because of the row or because the
      database does (the positions `refused`), is logged and passed over. */
  function FoldA(spec: SpecA, refused: set<nat>, rows: RowsA, records: seq<RecordA>): BatchA {
    if records == [] then BatchA(rows, 0, false)
    else
      var n := |records| - 1;
      var before := FoldA(spec, refused, rows, records[..n]);
      if before.thrown then before
      else if !Genuine(spec, records[n]) then before.(thrown := true)
      else if n in refused || !Inserts(spec, before.rows, records[n].body) then before
      else BatchA(before.rows + [records[n].body], before.inserted + 1, false)
  }

  /** Append-only: the batch never removes, moves or rewrites a row, grows the table by exactly
      what it reports, and keeps the natural key unique. Every row it adds was offered and genuine. */
  lemma {:induction false} FoldAOnlyAppends(spec: SpecA, refused: set<nat>, rows: RowsA, records: seq<RecordA>)
    ensures var f := FoldA(spec, refused, rows, records);
      && |f.rows| == |rows| + f.inserted && f.rows[..|rows|] == rows && f.inserted <= |records|
      && (KeysDistinct(spec, rows) ==> KeysDistinct(spec, f.rows))
      && forall b :: b in f.rows[|rows|..] ==> exists r :: r in records && r.body == b && Genuine(spec, r)
  {
    if records != [] {
      var n := |records| - 1;
      FoldAOnlyAppends(spec, refused, rows, records[..n]);
      var before, after := FoldA(spec, refused, rows, records[..n]), FoldA(spec, refused, rows, records);
      assert forall r :: r in records[..n] ==> r in records;
      if after.rows != before.rows {
        assert after.rows[|rows|..] == before.rows[|rows|..] + [records[n].body];
        assert records[n] in records;
      }
    }
  }

  /** Exactly when a batch goes through: every record passes the checks. No failing INSERT, and no
      database that goes away, makes it throw. */
  lemma {:induction false} FoldAThrowsExactly(spec: SpecA, refused: set<nat>, rows: RowsA, records: seq<RecordA>)
    ensures FoldA(spec, refused, rows, records).thrown <==> exists r :: r in records && !Genuine(spec, r)
    ensures FoldA(spec, refused, rows, records).thrown <==>
      exists r :: r in records && (!spec.complete(r.body) || spec.hashOf(r.body) != r.hash
                                   || (spec.chain.Chained? && (!spec.chain.writer || !spec.chain.hex(r.body))))
  {
    if records != [] {
      var n := |records| - 1;
      FoldAThrowsExactly(spec, refused, rows, records[..n]);
      assert records == records[..n] + [records[n]];
    }
  }

  /** A new row opens its mutable half, in a table that has one. */
  function Open(spec: SpecA, b: RowsB, x: Body): RowsB {
    if spec.opens.Some? then b[spec.keyOf(x) := spec.opens.value(x)] else b
  }

  /** The mutable halves after these rows were inserted. */
  function Opened(spec: SpecA, b: RowsB, added: RowsA): RowsB {
    if added == [] then b else Open(spec, Opened(spec, b, added[..|added| - 1]), added[|added| - 1])
  }

  // ----- Tier B -----

  datatype BatchB = BatchB(rows: RowsB, changed: nat, disagreeing: seq<string>, unmoved: seq<string>, thrown: bool)

  predicate Sound(spec: SpecB, r: RecordB) {
    spec.keyOf(r.body) == r.key && spec.valid(r.body)
  }

  predicate Moves(spec: SpecB, local: Body, incoming: Body) {
    spec.version(spec.merge(local, incoming)) != spec.version(local)
  }

  /** One record against a locked row. A key the node has never seen is inserted by a table that
      owns its rows and skipped by one that does not. */
  function ApplyOne(spec: SpecB, before: BatchB, r: RecordB): BatchB {
    if r.key in before.rows then
      var local := before.rows[r.key];
      var moved := Moves(spec, local, r.body);
      var disagrees := spec.disagrees.Some? && spec.disagrees.value(local, r.body);
      BatchB(if moved then before.rows[r.key := spec.merge(local, r.body)] else before.rows,
             before.changed + (if moved then 1 else 0),
             if disagrees then before.disagreeing + [r.key] else before.disagreeing,
             if moved then before.unmoved else before.unmoved + [r.key],
             false)
    else if spec.owns then
      before.(rows := before.rows[r.key := spec.stored(r.body)], changed := before.changed + 1)
    else before
  }

  /** Here a failing statement does propagate: the store going away at record `outage` throws. */
  function FoldB(spec: SpecB, outage: Option<nat>, rows: RowsB, records: seq<RecordB>): BatchB {
    if records == [] then BatchB(rows, 0, [], [], false)
    else
      var n := |records| - 1;
      var before := FoldB(spec, outage, rows, records[..n]);
      if before.thrown then before
      else if outage == Some(n) || !Sound(spec, records[n]) then before.(thrown := true)
      else ApplyOne(spec, before, records[n])
  }

  lemma {:induction false} FoldBThrowsExactly(spec: SpecB, outage: Option<nat>, rows: RowsB, records: seq<RecordB>)
    ensures FoldB(spec, outage, rows, records).thrown
      <==> (outage.Some? && outage.value < |records|)
           || exists r :: r in records && (spec.keyOf(r.body) != r.key || !spec.valid(r.body))
  {
    if records != [] {
      var n := |records| - 1;
      FoldBThrowsExactly(spec, outage, rows, records[..n]);
      assert records == records[..n] + [records[n]];
    }
  }

  /** A batch touches only keys it names, each row stays under its own key (the merge keeping
      it), and a table that does not own its rows gains none. */
  lemma {:induction false} FoldBStaysInItsKeys(spec: SpecB, outage: Option<nat>, rows: RowsB, records: seq<RecordB>)
    ensures var f := FoldB(spec, outage, rows, records);
      && rows.Keys <= f.rows.Keys
      && (!spec.owns ==> f.rows.Keys == rows.Keys)
      && (forall k :: RowAt(f.rows, k) != RowAt(rows, k) ==> Names(records, k))
      && (Keyed(spec, rows) && KeepsKeys(spec) ==> Keyed(spec, f.rows))
  {
    FoldBStaysKeyed(spec, outage, rows, records);
    if records != [] {
      var n := |records| - 1;
      FoldBStaysInItsKeys(spec, outage, rows, records[..n]);
      forall k | Names(records[..n], k) ensures Names(records, k) {
        var i :| 0 <= i < n && records[..n][i].key == k;
        assert records[i].key == k;
      }
    }
  }

  lemma {:induction false} FoldBStaysKeyed(spec: SpecB, outage: Option<nat>, rows: RowsB, records: seq<RecordB>)
    ensures Keyed(spec, rows) && KeepsKeys(spec) ==> Keyed(spec, FoldB(spec, outage, rows, records).rows)
  {
    if records != [] {
      FoldBStaysKeyed(spec, outage, rows, records[..|records| - 1]);
    }
  }

  lemma {:induction false} FoldBCounts(spec: SpecB, outage: Option<nat>, rows: RowsB, records: seq<RecordB>)
    ensures var f := FoldB(spec, outage, rows, records);
      f.changed + |f.unmoved| <= |records| && |f.disagreeing| <= |records| && (f.changed == 0 ==> f.rows == rows)
  {
    if records != [] {
      FoldBCounts(spec, outage, rows, records[..|records| - 1]);
    }
  }

  ghost predicate KeysUnique(records: seq<RecordB>) {
    forall i, j :: 0 <= i < j < |records| ==> records[i].key != records[j].key
  }

  ghost predicate Names(records: seq<RecordB>, k: string) {
    exists i :: 0 <= i < |records| && records[i].key == k
  }

  /** The row a record leaves under its key, or none. */
  function Landed(spec: SpecB, rows: RowsB, r: RecordB): Option<Body> {
    if r.key in rows then
      Some(if Moves(spec, rows[r.key], r.body) then spec.merge(rows[r.key], r.body) else rows[r.key])
    else if spec.owns then Some(spec.stored(r.body)) else None
  }

  function RowAt(rows: RowsB, k: string): Option<Body> {
    if k in rows then Some(rows[k]) else None
  }

  ghost predicate Disagrees(spec: SpecB, rows: RowsB, r: RecordB) {
    spec.disagrees.Some? && r.key in rows && spec.disagrees.value(rows[r.key], r.body)
  }

  ghost predicate AllSound(spec: SpecB, records: seq<RecordB>) {
    KeysUnique(records) && forall i :: 0 <= i < |records| ==> Sound(spec, records[i])
  }

  lemma {:induction false} FoldBElsewhere(spec: SpecB, rows: RowsB, records: seq<RecordB>, k: string)
    requires AllSound(spec, records) && !Names(records, k)
    ensures var f := FoldB(spec, None, rows, records);
      !f.thrown && RowAt(f.rows, k) == RowAt(rows, k) && k !in f.disagreeing
  {
    if records != [] {
      var n := |records| - 1;
      assert records[n].key != k;
      forall i | 0 <= i < n ensures records[..n][i].key != k { assert records[i].key != k; }
      FoldBElsewhere(spec, rows, records[..n], k);
    }
  }

  /** Sound records of distinct keys act independently, each on its own row. */
  lemma {:induction false} FoldBAt(spec: SpecB, rows: RowsB, records: seq<RecordB>, i: nat)
    requires AllSound(spec, records) && i < |records|
    ensures var f, r := FoldB(spec, None, rows, records), records[i];
      && !f.thrown && RowAt(f.rows, r.key) == Landed(spec, rows, r)
      && (r.key in f.disagreeing <==> Disagrees(spec, rows, r))
    ensures var f, r := FoldB(spec, None, rows, records).rows, records[i];
      && (r.key !in rows ==> (r.key in f <==> spec.owns) && (spec.owns ==> f[r.key] == spec.stored(r.body)))
      && (r.key in rows ==>
            var local, merged := rows[r.key], spec.merge(rows[r.key], r.body);
            r.key in f && f[r.key] == if spec.version(merged) == spec.version(local) then local else merged)
  {
    var n := |records| - 1;
    if i < n {
      FoldBAt(spec, rows, records[..n], i);
      assert records[i].key != records[n].key;
    } else {
      forall j | 0 <= j < n ensures records[..n][j].key != records[n].key { assert records[j].key != records[n].key; }
      FoldBElsewhere(spec, rows, records[..n], records[n].key);
    }
  }

  /** Records that move nothing leave the table as it is. */
  lemma {:induction false} FoldBStill(spec: SpecB, rows: RowsB, records: seq<RecordB>)
    requires forall i :: 0 <= i < |records| ==>
      Sound(spec, records[i]) && records[i].key in rows && !Moves(spec, rows[records[i].key], records[i].body)
    ensures var f := FoldB(spec, None, rows, records); f.rows == rows && f.changed == 0 && !f.thrown
  {
    if records != [] {
      FoldBStill(spec, rows, records[..|records| - 1]);
    }
  }

  lemma {:induction false} DisagreeingOnce(spec: SpecB, rows: RowsB, records: seq<RecordB>)
    requires AllSound(spec, records)
    ensures Distinct(FoldB(spec, None, rows, records).disagreeing)
  {
    if records != [] {
      var n := |records| - 1;
      DisagreeingOnce(spec, rows, records[..n]);
      forall j | 0 <= j < n ensures records[..n][j].key != records[n].key { assert records[j].key != records[n].key; }
      FoldBElsewhere(spec, rows, records[..n], records[n].key);
    }
  }

  /** What the store reports of one Tier-B batch. */
  datatype ApplyResult = ApplyResult(applied: nat, divergent: nat, keys: seq<string>, verdict: Option<Verdict>)

  /** A table with a witness is judged record by record; one without only as a whole. */
  function Report(spec: SpecB, offered: nat, f: BatchB): ApplyResult {
    if spec.disagrees.Some? then
      ApplyResult(f.changed, |f.disagreeing|, FirstFive(f.disagreeing),
                  if |f.disagreeing| > 0 then Some(ContentFork) else None)
    else
      var divergent := if f.changed == 0 then offered else 0;
      ApplyResult(f.changed, divergent, if divergent > 0 then FirstFive(f.unmoved) else [],
                  if divergent > 0 then Some(PeerBehind) else None)
  }

  /** The beginning of a list: all of it, or five. */
  ghost predicate FirstOf(keys: seq<string>, all: seq<string>) {
    keys <= all && |keys| == if |all| < 5 then |all| else 5
  }

  /** The store never reports a divergence without a verdict, and the verdict tells the rule:
      a fork is a witness disagreement; a peer behind means the whole batch changed nothing. */
  lemma VerdictAlwaysNamed(spec: SpecB, outage: Option<nat>, rows: RowsB, records: seq<RecordB>)
    ensures var f := FoldB(spec, outage, rows, records); var r := Report(spec, |records|, f);
      && (r.divergent > 0 <==> r.verdict.Some?)
      && (r.verdict == Some(ContentFork) ==> spec.disagrees.Some?)
      && (r.verdict == Some(PeerBehind) ==>
            spec.disagrees.None? && r.applied == 0 && f.rows == rows && r.divergent == |records|)
      && |r.keys| <= 5 && |r.keys| <= r.divergent
    ensures var f := FoldB(spec, outage, rows, records); var r := Report(spec, |records|, f);
      && r.applied == f.changed
      && (spec.disagrees.Some? ==> r.divergent == |f.disagreeing| && FirstOf(r.keys, f.disagreeing))
      && (spec.disagrees.None? && f.changed > 0 ==> r.divergent == 0 && r.keys == [])
      && (spec.disagrees.None? && f.changed == 0 ==> r.divergent == |records| && FirstOf(r.keys, f.unmoved))
  {
    FoldBCounts(spec, outage, rows, records);
  }

  // ----- the store -----

  /** A foreign key to the natural key of another replicated table; `column` is None for a row
      whose foreign key is null. */
  datatype Reference = Reference(table: string, column: Body -> Option<string>)

  /** The registry, in the order tables are applied. No Tier-A table has more than one foreign key
      to a replicated table. */
  datatype Schema = Schema(tierA: seq<string>, tierB: seq<string>, specA: string -> SpecA, specB: string -> SpecB,
                           parent: string -> Option<Reference>)

  /** The row this row refers to is there. */
  predicate Present(column: Body -> Option<string>, parent: SpecA, rows: RowsA, b: Body) {
    column(b).None? || Bound(parent, rows, column(b).value)
  }

  /** A table's registration with its foreign key checked against these rows of the parent. */
  function Against(spec: SpecA, column: Body -> Option<string>, parent: SpecA, rows: RowsA): SpecA {
    spec.(accepts := (own, b) => spec.accepts(own, b) && Present(column, parent, rows, b))
  }

  /** What the database accepts into `t` while its tables are these. */
  function SpecIn(s: Schema, m: Tables, t: string): SpecA {
    match s.parent(t)
    case None => s.specA(t)
    case Some(ref) => Against(s.specA(t), ref.column, s.specA(ref.table), TableOf(m, ref.table).a)
  }

  /** What goes wrong locally this round: tables whose first read fails, tables whose second read
      (inside the bucket walk) fails, INSERTs the database fails of its own, and tables whose merge
      dies at some record. */
  datatype Faults = Faults(readA: set<string>, rereadA: set<string>, readB: set<string>,
                           refusedA: map<string, set<nat>>, applyB: map<string, nat>)

  type Tables = map<string, Table>

  function TableOf(m: Tables, t: string): Table { if t in m then m[t] else EMPTY }
  function Refused(m: map<string, set<nat>>, t: string): set<nat> { if t in m then m[t] else {} }
  function Outage(m: map<string, nat>, t: string): Option<nat> { if t in m then Some(m[t]) else None }

  /** A batch applied to a physical table: an insert also opens the row's mutable half. */
  function InsertedInto(spec: SpecA, refused: set<nat>, x: Table, records: seq<RecordA>): Table {
    var f := FoldA(spec, refused, x.a, records);
    FoldAOnlyAppends(spec, refused, x.a, records);
    Table(f.rows, Opened(spec, x.b, f.rows[|x.a|..]))
  }

  class Database {
    const schema: Schema
    var faults: Faults
    var tables: Tables

    constructor (schema: Schema, faults: Faults)
      ensures this.schema == schema && this.faults == faults && tables == map[]
    {
      this.schema := schema;
      this.faults := faults;
      tables := map[];
    }

    /** `applyTierA`. */
    method ApplyTierA(t: string, records: seq<RecordA>) returns (r: Outcome<nat>)
      modifies this`tables
      ensures var x := TableOf(old(tables), t);
        var spec, refused := SpecIn(schema, old(tables), t), Refused(faults.refusedA, t);
        var f := FoldA(spec, refused, x.a, records);
        && TableOf(tables, t) == InsertedInto(spec, refused, x, records)
        && (forall y :: y != t ==> TableOf(tables, y) == TableOf(old(tables), y))
        && (r.Thrown? <==> f.thrown) && (r.Done? ==> r.value == f.inserted)
    {
      var spec, refused := SpecIn(schema, tables, t), Refused(faults.refusedA, t);
      var inserted, here := 0, TableOf(tables, t);
      ghost var x := here;
      for n := 0 to |records|
        invariant here == InsertedInto(spec, refused, x, records[..n])
        invariant FoldA(spec, refused, x.a, records[..n]) == BatchA(here.a, inserted, false)
        invariant TableOf(tables, t) == here && forall y :: y != t ==> TableOf(tables, y) == TableOf(old(tables), y)
      {
        var rec := records[n];
        if !Genuine(spec, rec) {
          InsertedThrough(spec, refused, x, records, n);
          return Thrown("record refused");
        }
        InsertStep(spec, refused, x, records, n);
        if n !in refused && !Bound(spec, here.a, spec.keyOf(rec.body)) && spec.accepts(here.a, rec.body) {
          here := Table(here.a + [rec.body], Open(spec, here.b, rec.body));
          tables := tables[t := here];
          inserted := inserted + 1;
        }
      }
      assert records[..|records|] == records;
      r := Done(inserted);
    }

    /** `applyTierB`. */
    method ApplyTierB(t: string, records: seq<RecordB>) returns (r: Outcome<ApplyResult>)
      modifies this`tables
      ensures var x := TableOf(old(tables), t);
        var f := FoldB(schema.specB(t), Outage(faults.applyB, t), x.b, records);
        && TableOf(tables, t) == Table(x.a, f.rows)
        && (forall y :: y != t ==> TableOf(tables, y) == TableOf(old(tables), y))
        && (r.Thrown? <==> f.thrown)
        && (r.Done? ==> r.value == Report(schema.specB(t), |records|, f))
    {
      var spec, outage := schema.specB(t), Outage(faults.applyB, t);
      ghost var rows := TableOf(tables, t).b;
      var here := TableOf(tables, t);
      var sofar := BatchB(here.b, 0, [], [], false);
      for n := 0 to |records|
        invariant TableOf(tables, t) == Table(here.a, sofar.rows)
        invariant forall y :: y != t ==> TableOf(tables, y) == TableOf(old(tables), y)
        invariant sofar == FoldB(spec, outage, rows, records[..n]) && !sofar.thrown
      {
        assert records[..n + 1][..n] == records[..n];
        FoldBThrownStays(spec, outage, rows, records, n + 1);
        if outage == Some(n) || spec.keyOf(records[n].body) != records[n].key || !spec.valid(records[n].body) {
          return Thrown("record refused");
        }
        sofar := ApplyOne(spec, sofar, records[n]);
        tables := tables[t := Table(here.a, sofar.rows)];
      }
      assert records[..|records|] == records;
      r := Done(Report(spec, |records|, sofar));
    }
  }

  lemma {:induction false} FoldAThrownStays(spec: SpecA, refused: set<nat>, rows: RowsA, records: seq<RecordA>, n: nat)
    requires n <= |records|
    ensures FoldA(spec, refused, rows, records[..n]).thrown ==>
      FoldA(spec, refused, rows, records) == FoldA(spec, refused, rows, records[..n])
    decreases |records|
  {
    if n < |records| {
      FoldAThrownStays(spec, refused, rows, records[..|records| - 1], n);
      assert records[..|records| - 1][..n] == records[..n];
    } else {
      assert records[..n] == records;
    }
  }

  lemma InsertedThrough(spec: SpecA, refused: set<nat>, x: Table, records: seq<RecordA>, n: nat)
    requires n < |records| && !Genuine(spec, records[n])
    ensures InsertedInto(spec, refused, x, records) == InsertedInto(spec, refused, x, records[..n])
    ensures FoldA(spec, refused, x.a, records).thrown
  {
    assert records[..n + 1][..n] == records[..n];
    FoldAThrownStays(spec, refused, x.a, records, n);
    FoldAThrownStays(spec, refused, x.a, records, n + 1);
  }

  lemma InsertStep(spec: SpecA, refused: set<nat>, x: Table, records: seq<RecordA>, n: nat)
    requires n < |records| && !FoldA(spec, refused, x.a, records[..n]).thrown && Genuine(spec, records[n])
    ensures var f, y, b := FoldA(spec, refused, x.a, records[..n]), InsertedInto(spec, refused, x, records[..n]),
      records[n].body;
      var takes := n !in refused && Inserts(spec, f.rows, b);
      && InsertedInto(spec, refused, x, records[..n + 1]) == (if takes then Table(y.a + [b], Open(spec, y.b, b)) else y)
      && FoldA(spec, refused, x.a, records[..n + 1])
           == (if takes then BatchA(f.rows + [b], f.inserted + 1, false) else f)
  {
    assert records[..n + 1][..n] == records[..n];
    FoldAOnlyAppends(spec, refused, x.a, records[..n]);
    var f, g := FoldA(spec, refused, x.a, records[..n]), FoldA(spec, refused, x.a, records[..n + 1]);
    if n !in refused && Inserts(spec, f.rows, records[n].body) {
      var added := g.rows[|x.a|..];
      assert added == f.rows[|x.a|..] + [records[n].body];
      assert added[..|added| - 1] == f.rows[|x.a|..];
    }
  }

  lemma {:induction false} FoldBThrownStays(spec: SpecB, outage: Option<nat>, rows: RowsB, records: seq<RecordB>,
                                            n: nat)
    requires n <= |records|
    ensures FoldB(spec, outage, rows, records[..n]).thrown ==>
      FoldB(spec, outage, rows, records) == FoldB(spec, outage, rows, records[..n])
    decreases |records|
  {
    if n < |records| {
      FoldBThrownStays(spec, outage, rows, records[..|records| - 1], n);
      assert records[..|records| - 1][..n] == records[..n];
    } else {
      assert records[..n] == records;
    }
  }
}
