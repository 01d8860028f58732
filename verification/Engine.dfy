/** One anti-entropy round: the local node reads its own state, plans against the peer's
    advertisement, pulls and applies table by table, all Tier-A tables before any Tier-B one. What
    happens to a physical table is a function of that table alone; the loops are proved to compute
    exactly that, whatever the peer answers and whichever local reads and writes fail. */
module Engine {
  import opened Ordering
  import opened Reconciliation
  import opened Merges
  import opened Rows
  import opened Store
  import opened Channel

  /** Everything a round depends on besides the rows: hashing, the local registry and its faults,
      the peer's replies and its advertisement. */
  datatype Env = Env(sha: string -> string, digestB: map<string, string> -> string,
                     schema: Schema, faults: Faults, script: Script, state: WireState)

  // ----- one table -----

  /** The record hashes to pull: none for a table that is not tracked here, not advertised,
      unreadable here, or whose digest matches. */
  ghost function PlanA(e: Env, t: string, rows: RowsA): Reply<seq<string>> {
    var mine := Hashes(e.schema.specA(t), rows);
    if !ComparesA(e, t, mine) then Got([])
    else
      match Walk(e.sha, e.script, e.faults.rereadA, t, mine)
      case Got(theirs) => Got(MissingLocally(mine, theirs))
      case WireFailed => WireFailed
      case OtherFailed => OtherFailed
  }

  ghost predicate ComparesA(e: Env, t: string, mine: seq<string>)
    requires AllWellFormed(mine)
  {
    && t in e.schema.tierA && t !in e.faults.readA
    && Digest(e.state.tierA, t).Some? && Digest(e.state.tierA, t).value != TableDigest(e.sha, mine)
  }

  ghost function PlanB(e: Env, t: string, rows: RowsB): Reply<seq<string>> {
    var mine := Versions(e.schema.specB(t), rows);
    if !ComparesB(e, t, mine) then Got([])
    else
      match e.script.versions(t)
      case Got(theirs) => Got(Stale(mine, theirs))
      case WireFailed => WireFailed
      case OtherFailed => OtherFailed
  }

  ghost predicate ComparesB(e: Env, t: string, mine: map<string, string>) {
    && t in e.schema.tierB && t !in e.faults.readB
    && Digest(e.state.tierB, t).Some? && Digest(e.state.tierB, t).value != e.digestB(mine)
  }

  /** What a round reports about one tier of a table. `aborted`: the wire failed while it was served. */
  datatype Counts = Counts(planned: nat, pulled: nat, applied: nat, divergent: nat,
                           keys: seq<string>, verdict: Option<Verdict>, failed: bool, aborted: bool)

  function Nothing(planned: nat, failed: bool, aborted: bool): Counts {
    Counts(planned, 0, 0, 0, [], None, failed, aborted)
  }

  /** Every fetched record that did not insert counts as a fork, whatever kept it out. */
  function Inserted(planned: nat, pulled: nat, inserted: nat): Counts {
    var left := if pulled > inserted then pulled - inserted else 0;
    Counts(planned, pulled, inserted, left, [], if left > 0 then Some(ContentFork) else None, false, false)
  }

  function Merged(planned: nat, pulled: nat, r: ApplyResult): Counts {
    Counts(planned, pulled, r.applied, r.divergent, r.keys, r.verdict, false, false)
  }

  /** `spec` is the table's registration with its foreign key checked as of its turn. */
  function ApplyA(e: Env, t: string, spec: SpecA, x: Table, plan: seq<string>): (Table, Counts) {
    if plan == [] then (x, Nothing(0, false, false))
    else
      match ServedA(e.script, t, plan)
      case WireFailed => (x, Nothing(|plan|, false, true))
      case OtherFailed => (x, Nothing(|plan|, true, false))
      case Got(records) =>
        var refused := Refused(e.faults.refusedA, t);
        var f := FoldA(spec, refused, x.a, records);
        (InsertedInto(spec, refused, x, records),
         if f.thrown then Nothing(|plan|, true, false) else Inserted(|plan|, |records|, f.inserted))
  }

  function ApplyB(e: Env, t: string, x: Table, plan: seq<string>): (Table, Counts) {
    if plan == [] then (x, Nothing(0, false, false))
    else
      match ServedB(e.script, t, plan)
      case WireFailed => (x, Nothing(|plan|, false, true))
      case OtherFailed => (x, Nothing(|plan|, true, false))
      case Got(records) =>
        var f := FoldB(e.schema.specB(t), Outage(e.faults.applyB, t), x.b, records);
        (Table(x.a, f.rows),
         if f.thrown then Nothing(|plan|, true, false)
         else Merged(|plan|, |records|, Report(e.schema.specB(t), |records|, f)))
  }

  function OrEmpty(r: Reply<seq<string>>): seq<string> { if r.Got? then r.value else [] }

  ghost function WantedA(e: Env, m: Tables, t: string): seq<string> { OrEmpty(PlanA(e, t, TableOf(m, t).a)) }
  ghost function WantedB(e: Env, m: Tables, t: string): seq<string> { OrEmpty(PlanB(e, t, TableOf(m, t).b)) }

  /** Where a table stands in the registry. */
  function Position(tables: seq<string>, t: string): nat {
    if tables == [] || tables[0] == t then 0 else 1 + Position(tables[1..], t)
  }

  ghost predicate Before(e: Env, p: string, t: string) {
    Position(e.schema.tierA, p) < Position(e.schema.tierA, t)
  }

  /** The registration of `t` when its turn comes: a parent registered before it has had its
      Tier-A half, any other parent is as it was. */
  ghost function SpecAt(e: Env, m: Tables, t: string): SpecA
    decreases Position(e.schema.tierA, t), 0
  {
    match e.schema.parent(t)
    case None => e.schema.specA(t)
    case Some(ref) =>
      var rows := if Before(e, ref.table, t) then RoundA(e, m, ref.table).0.a else TableOf(m, ref.table).a;
      Against(e.schema.specA(t), ref.column, e.schema.specA(ref.table), rows)
  }

  /** What the Tier-A half of a round does to a table. */
  ghost function RoundA(e: Env, m: Tables, t: string): (Table, Counts)
    decreases Position(e.schema.tierA, t), 1
  {
    ApplyA(e, t, SpecAt(e, m, t), TableOf(m, t), WantedA(e, m, t))
  }

  /** And the Tier-B half after it: planned from the table as it was, applied to the table as
      Tier A left it. */
  ghost function RoundB(e: Env, m: Tables, t: string): (Table, Counts) {
    ApplyB(e, t, RoundA(e, m, t).0, WantedB(e, m, t))
  }

  ghost function RoundsA(e: Env, m: Tables): string -> (Table, Counts) { t => RoundA(e, m, t) }
  ghost function RoundsB(e: Env, m: Tables): string -> (Table, Counts) { t => RoundB(e, m, t) }

  // ----- a whole round -----

  datatype Failure = Failure(tier: Tier, table: string)

  datatype Unconverged = Unconverged(tier: Tier, table: string, planned: nat, pulled: nat, applied: nat,
                                     divergent: nat, verdict: Verdict, keys: seq<string>)

  /** What a round reports about a whole tier. */
  datatype Tally = Tally(planned: nat, pulled: nat, applied: nat, failures: seq<Failure>, unconverged: seq<Unconverged>)

  datatype RoundResult = RoundResult(a: Tally, b: Tally, unreadable: seq<Failure>) {
    function Failures(): seq<Failure> { unreadable + a.failures + b.failures }
    function Entries(): seq<Unconverged> { a.unconverged + b.unconverged }
    function Planned(): nat { a.planned + b.planned }
    function Pulled(): nat { a.pulled + b.pulled }
  }

  function Reported(tier: Tier, t: string, c: Counts): Unconverged {
    Unconverged(tier, t, c.planned, c.pulled, c.applied, c.divergent,
                if c.verdict.Some? then c.verdict.value else ContentFork, c.keys)
  }

  function Add(tier: Tier, t: string, c: Counts, x: Tally): Tally {
    Tally(x.planned + c.planned, x.pulled + c.pulled, x.applied + c.applied,
          if c.failed then x.failures + [Failure(tier, t)] else x.failures,
          if c.divergent > 0 then x.unconverged + [Reported(tier, t, c)] else x.unconverged)
  }

  const ZERO := Tally(0, 0, 0, [], [])

  function TallyOf(tier: Tier, tables: seq<string>, round: string -> (Table, Counts)): Tally {
    if tables == [] then ZERO
    else
      var n := |tables| - 1;
      Add(tier, tables[n], round(tables[n]).1, TallyOf(tier, tables[..n], round))
  }

  /** The wire held while each of the tables was served. */
  ghost predicate Clear(round: string -> (Table, Counts), tables: seq<string>) {
    forall t :: t in tables ==> !round(t).1.aborted
  }

  function Unreadable(tier: Tier, tables: seq<string>, unreadable: set<string>): seq<Failure> {
    if tables == [] then []
    else
      var n := |tables| - 1;
      var before := Unreadable(tier, tables[..n], unreadable);
      if tables[n] in unreadable then before + [Failure(tier, tables[n])] else before
  }

  /** The registry lists each table once, per tier, and no table refers to itself. */
  ghost predicate Registry(s: Schema) {
    Distinct(s.tierA) && Distinct(s.tierB) && forall t :: s.parent(t).Some? ==> s.parent(t).value.table != t
  }

  ghost function Result(e: Env, m: Tables): RoundResult {
    RoundResult(TallyOf(A, e.schema.tierA, RoundsA(e, m)), TallyOf(B, e.schema.tierB, RoundsB(e, m)),
                Unreadable(A, e.schema.tierA, e.faults.readA) + Unreadable(B, e.schema.tierB, e.faults.readB))
  }

  /** The round as a whole fails exactly when some detail request fails while planning, or the
      wire fails while some table is served. */
  ghost predicate Dies(e: Env, m: Tables) {
    || !PlansA(e, m) || !PlansB(e, m)
    || !Clear(RoundsA(e, m), e.schema.tierA) || !Clear(RoundsB(e, m), e.schema.tierB)
  }

  ghost predicate PlansA(e: Env, m: Tables) {
    forall t :: t in e.schema.tierA ==> PlanA(e, t, TableOf(m, t).a).Got?
  }

  ghost predicate PlansB(e: Env, m: Tables) {
    forall t :: t in e.schema.tierB ==> PlanB(e, t, TableOf(m, t).b).Got?
  }

  /** Why the round may send a request: detail only where digests differ, a pull only of a
      non-empty plan. */
  ghost predicate Justified(e: Env, m: Tables, f: Request) {
    match f
    case StateReq => false
    case BucketsReq(t) => ComparesA(e, t, Hashes(e.schema.specA(t), TableOf(m, t).a))
    case BucketHashesReq(t, _) => ComparesA(e, t, Hashes(e.schema.specA(t), TableOf(m, t).a))
    case VersionsReq(t) => ComparesB(e, t, Versions(e.schema.specB(t), TableOf(m, t).b))
    case PullA(t, hs) => hs != [] && PlanA(e, t, TableOf(m, t).a) == Got(hs)
    case PullB(t, ks) => ks != [] && PlanB(e, t, TableOf(m, t).b) == Got(ks)
  }

  ghost predicate LogSince(fine: Request -> bool, before: seq<Request>, after: seq<Request>) {
    before <= after && forall f :: f in after[|before|..] ==> fine(f)
  }

  ghost function Reasons(e: Env, m: Tables): Request -> bool {
    f => Justified(e, m, f)
  }

  ghost predicate Describes(e: Env, remote: RemoteStoreView)
    reads remote, remote.local
  {
    && e.sha == remote.sha && e.schema == remote.local.schema && e.faults == remote.local.faults
    && e.script == remote.Peer() && e.state == remote.state
    && Registry(e.schema) && Shaped(e.script) && KeysOnce(e.state.tierA) && KeysOnce(e.state.tierB)
  }

  // ----- the loops -----

  lemma OneMore(tables: seq<string>, n: nat)
    requires n < |tables|
    ensures tables[..n + 1][..n] == tables[..n] && tables[..n + 1] == tables[..n] + [tables[n]]
  {
  }

  method ReadTierA(db: Database)
    returns (basis: map<string, seq<string>>, unreadable: set<string>, failures: seq<Failure>)
    ensures unreadable == set t | t in db.schema.tierA && t in db.faults.readA
    ensures basis.Keys == set t | t in db.schema.tierA && t !in db.faults.readA
    ensures forall t :: t in basis ==> basis[t] == Hashes(db.schema.specA(t), TableOf(db.tables, t).a)
    ensures failures == Unreadable(A, db.schema.tierA, db.faults.readA)
  {
    basis, unreadable, failures := map[], {}, [];
    var tables := db.schema.tierA;
    for n := 0 to |tables|
      invariant unreadable == set t | t in tables[..n] && t in db.faults.readA
      invariant basis.Keys == set t | t in tables[..n] && t !in db.faults.readA
      invariant forall t :: t in basis ==> basis[t] == Hashes(db.schema.specA(t), TableOf(db.tables, t).a)
      invariant failures == Unreadable(A, tables[..n], db.faults.readA)
    {
      var t := tables[n];
      OneMore(tables, n);
      if t in db.faults.readA {
        unreadable, failures := unreadable + {t}, failures + [Failure(A, t)];
      } else {
        basis := basis[t := Hashes(db.schema.specA(t), TableOf(db.tables, t).a)];
      }
    }
    assert tables[..|tables|] == tables;
  }

  method ReadTierB(db: Database)
    returns (basis: map<string, map<string, string>>, unreadable: set<string>, failures: seq<Failure>)
    ensures unreadable == set t | t in db.schema.tierB && t in db.faults.readB
    ensures basis.Keys == set t | t in db.schema.tierB && t !in db.faults.readB
    ensures forall t :: t in basis ==> basis[t] == Versions(db.schema.specB(t), TableOf(db.tables, t).b)
    ensures failures == Unreadable(B, db.schema.tierB, db.faults.readB)
  {
    basis, unreadable, failures := map[], {}, [];
    var tables := db.schema.tierB;
    for n := 0 to |tables|
      invariant unreadable == set t | t in tables[..n] && t in db.faults.readB
      invariant basis.Keys == set t | t in tables[..n] && t !in db.faults.readB
      invariant forall t :: t in basis ==> basis[t] == Versions(db.schema.specB(t), TableOf(db.tables, t).b)
      invariant failures == Unreadable(B, tables[..n], db.faults.readB)
    {
      var t := tables[n];
      OneMore(tables, n);
      if t in db.faults.readB {
        unreadable, failures := unreadable + {t}, failures + [Failure(B, t)];
      } else {
        basis := basis[t := Versions(db.schema.specB(t), TableOf(db.tables, t).b)];
      }
    }
    assert tables[..|tables|] == tables;
  }

  function Lookup(plan: map<string, seq<string>>, t: string): seq<string> { if t in plan then plan[t] else [] }

  ghost predicate PlannedA(e: Env, m: Tables, plan: map<string, seq<string>>, t: string) {
    PlanA(e, t, TableOf(m, t).a) == Got(Lookup(plan, t))
  }

  ghost predicate PlanIsA(e: Env, m: Tables, plan: map<string, seq<string>>) {
    forall t :: PlannedA(e, m, plan, t)
  }

  lemma AllPlannedA(e: Env, m: Tables, plan: map<string, seq<string>>)
    requires forall i :: 0 <= i < |e.state.tierA| ==> PlannedA(e, m, plan, e.state.tierA[i].0)
    requires forall t :: t in plan ==> PlannedA(e, m, plan, t)
    ensures PlanIsA(e, m, plan) && PlansA(e, m)
  {
    forall t ensures PlannedA(e, m, plan, t) {
      if Digest(e.state.tierA, t).Some? {
        DigestIsOfSomeEntry(e.state.tierA, t);
      }
    }
    forall t | t in e.schema.tierA ensures PlanA(e, t, TableOf(m, t).a).Got? {
      assert PlannedA(e, m, plan, t);
    }
  }

  ghost predicate PlannedB(e: Env, m: Tables, plan: map<string, seq<string>>, t: string) {
    PlanB(e, t, TableOf(m, t).b) == Got(Lookup(plan, t))
  }

  ghost predicate PlanIsB(e: Env, m: Tables, plan: map<string, seq<string>>) {
    forall t :: PlannedB(e, m, plan, t)
  }

  lemma AllPlannedB(e: Env, m: Tables, plan: map<string, seq<string>>)
    requires forall i :: 0 <= i < |e.state.tierB| ==> PlannedB(e, m, plan, e.state.tierB[i].0)
    requires forall t :: t in plan ==> PlannedB(e, m, plan, t)
    ensures PlanIsB(e, m, plan) && PlansB(e, m)
  {
    forall t ensures PlannedB(e, m, plan, t) {
      if Digest(e.state.tierB, t).Some? {
        DigestIsOfSomeEntry(e.state.tierB, t);
      }
    }
    forall t | t in e.schema.tierB ensures PlanB(e, t, TableOf(m, t).b).Got? {
      assert PlannedB(e, m, plan, t);
    }
  }

  lemma DigestOfEntry(entries: seq<Entry>, n: nat)
    requires KeysOnce(entries) && n < |entries|
    ensures Digest(entries, entries[n].0) == Some(entries[n].1)
  {
    DigestFinds(entries, entries[n].0, entries[n].1);
    assert entries[n] == (entries[n].0, entries[n].1);
  }

  lemma {:induction false} DigestIsOfSomeEntry(entries: seq<Entry>, t: string)
    requires Digest(entries, t).Some?
    ensures exists i :: 0 <= i < |entries| && entries[i].0 == t
  {
    if entries[|entries| - 1].0 != t {
      DigestIsOfSomeEntry(entries[..|entries| - 1], t);
    }
  }

  lemma LogOneMore(fine: Request -> bool, before: seq<Request>, mid: seq<Request>, f: Request)
    requires LogSince(fine, before, mid) && fine(f)
    ensures LogSince(fine, before, mid + [f])
  {
    assert (mid + [f])[|before|..] == mid[|before|..] + [f];
  }

  lemma LogTransitive(fine: Request -> bool, x: seq<Request>, y: seq<Request>, z: seq<Request>)
    requires LogSince(fine, x, y) && LogSince(fine, y, z)
    ensures LogSince(fine, x, z)
  {
    assert z[|x|..] == y[|x|..] + z[|y|..];
  }

  lemma WalkIsJustified(e: Env, m: Tables, t: string, before: seq<Request>, after: seq<Request>)
    requires ComparesA(e, t, Hashes(e.schema.specA(t), TableOf(m, t).a))
    requires before <= after && forall f :: f in after[|before|..] ==> Walks(f, t)
    ensures LogSince(Reasons(e, m), before, after)
  {
  }

  /** What planning one advertised table asks of the peer. */
  method PlanTableA(remote: RemoteStoreView, t: string, mine: seq<string>, digest: string, ghost e: Env,
                    ghost start: seq<Request>)
    returns (r: Reply<seq<string>>)
    requires Describes(e, remote) && Digest(e.state.tierA, t) == Some(digest)
    requires t in e.schema.tierA && t !in e.faults.readA
    requires mine == Hashes(e.schema.specA(t), TableOf(remote.local.tables, t).a)
    requires LogSince(Reasons(e, remote.local.tables), start, remote.sent)
    modifies remote`sent
    ensures r == PlanA(e, t, TableOf(remote.local.tables, t).a)
    ensures LogSince(Reasons(e, remote.local.tables), start, remote.sent)
  {
    if digest == TableDigest(remote.sha, mine) {
      return Got([]);
    }
    r := remote.RecordHashes(t);
    WalkIsJustified(e, remote.local.tables, t, old(remote.sent), remote.sent);
    LogTransitive(Reasons(e, remote.local.tables), start, old(remote.sent), remote.sent);
    if r.Got? {
      r := Got(MissingLocally(mine, r.value));
    }
  }

  method PlanTableB(remote: RemoteStoreView, digestB: map<string, string> -> string, t: string,
                    mine: map<string, string>, digest: string, ghost e: Env, ghost start: seq<Request>)
    returns (r: Reply<seq<string>>)
    requires Describes(e, remote) && e.digestB == digestB && Digest(e.state.tierB, t) == Some(digest)
    requires t in e.schema.tierB && t !in e.faults.readB
    requires mine == Versions(e.schema.specB(t), TableOf(remote.local.tables, t).b)
    requires LogSince(Reasons(e, remote.local.tables), start, remote.sent)
    modifies remote`sent
    ensures r == PlanB(e, t, TableOf(remote.local.tables, t).b)
    ensures LogSince(Reasons(e, remote.local.tables), start, remote.sent)
  {
    if digest == digestB(mine) {
      return Got([]);
    }
    var theirs := remote.VersionMap(t);
    LogOneMore(Reasons(e, remote.local.tables), start, old(remote.sent), VersionsReq(t));
    if theirs.Got? {
      var pull := VersionKeysToPull(mine, theirs.value);
      r := Got(pull);
    } else {
      r := if theirs.WireFailed? then WireFailed else OtherFailed;
    }
  }

  /** The Tier-A half of `planRound`, over the tables of the advertisement that are tracked here. */
  method PlanTierA(remote: RemoteStoreView, basis: map<string, seq<string>>, unreadable: set<string>, ghost e: Env)
    returns (r: Outcome<map<string, seq<string>>>)
    requires Describes(e, remote)
    requires unreadable == set t | t in e.schema.tierA && t in e.faults.readA
    requires basis.Keys == set t | t in e.schema.tierA && t !in e.faults.readA
    requires forall t :: t in basis ==> basis[t] == Hashes(e.schema.specA(t), TableOf(remote.local.tables, t).a)
    modifies remote`sent
    ensures LogSince(Reasons(e, remote.local.tables), old(remote.sent), remote.sent)
    ensures r.Done? ==> PlanIsA(e, remote.local.tables, r.value)
    ensures r.Done? <==> PlansA(e, remote.local.tables)
  {
    var plan: map<string, seq<string>> := map[];
    var adv := remote.state.tierA;
    for n := 0 to |adv|
      invariant LogSince(Reasons(e, remote.local.tables), old(remote.sent), remote.sent)
      invariant forall t :: t in plan ==>
        PlannedA(e, remote.local.tables, plan, t) && exists i :: 0 <= i < n && adv[i].0 == t
      invariant forall i :: 0 <= i < n ==> PlannedA(e, remote.local.tables, plan, adv[i].0)
    {
      var (t, digest) := adv[n];
      DigestOfEntry(adv, n);
      if t !in remote.local.schema.tierA || t in unreadable {
        continue;
      }
      var reply := PlanTableA(remote, t, basis[t], digest, e, old(remote.sent));
      if !reply.Got? {
        return Thrown("planning failed");
      }
      if |reply.value| > 0 {
        plan := plan[t := reply.value];
      }
    }
    AllPlannedA(e, remote.local.tables, plan);
    r := Done(plan);
  }

  /** The Tier-B half of `planRound`, over the tables of the advertisement that are tracked here. */
  method PlanTierB(remote: RemoteStoreView, digestB: map<string, string> -> string,
                   basis: map<string, map<string, string>>, unreadable: set<string>, ghost e: Env)
    returns (r: Outcome<map<string, seq<string>>>)
    requires Describes(e, remote) && e.digestB == digestB
    requires unreadable == set t | t in e.schema.tierB && t in e.faults.readB
    requires basis.Keys == set t | t in e.schema.tierB && t !in e.faults.readB
    requires forall t :: t in basis ==> basis[t] == Versions(e.schema.specB(t), TableOf(remote.local.tables, t).b)
    modifies remote`sent
    ensures LogSince(Reasons(e, remote.local.tables), old(remote.sent), remote.sent)
    ensures r.Done? ==> PlanIsB(e, remote.local.tables, r.value)
    ensures r.Done? <==> PlansB(e, remote.local.tables)
  {
    var plan: map<string, seq<string>> := map[];
    var adv := remote.state.tierB;
    for n := 0 to |adv|
      invariant LogSince(Reasons(e, remote.local.tables), old(remote.sent), remote.sent)
      invariant forall t :: t in plan ==>
        PlannedB(e, remote.local.tables, plan, t) && exists i :: 0 <= i < n && adv[i].0 == t
      invariant forall i :: 0 <= i < n ==> PlannedB(e, remote.local.tables, plan, adv[i].0)
    {
      var (t, digest) := adv[n];
      DigestOfEntry(adv, n);
      if t !in remote.local.schema.tierB || t in unreadable {
        continue;
      }
      var reply := PlanTableB(remote, digestB, t, basis[t], digest, e, old(remote.sent));
      if !reply.Got? {
        return Thrown("planning failed");
      }
      if |reply.value| > 0 {
        plan := plan[t := reply.value];
      }
    }
    AllPlannedB(e, remote.local.tables, plan);
    r := Done(plan);
  }

  // ----- processing tables one after another -----

  ghost predicate Kept(was: Tables, now: Tables, t: string) {
    TableOf(now, t) == TableOf(was, t)
  }

  ghost predicate Settled(round: string -> (Table, Counts), now: Tables, t: string) {
    TableOf(now, t) == round(t).0
  }

  ghost predicate AllSettled(round: string -> (Table, Counts), now: Tables) {
    forall t :: Settled(round, now, t)
  }

  /** Every table is either untouched or completely processed. */
  ghost predicate Whole(round: string -> (Table, Counts), was: Tables, now: Tables) {
    forall t :: Kept(was, now, t) || Settled(round, now, t)
  }

  /** The first `n` tables are processed, the others untouched. */
  ghost predicate Progress(round: string -> (Table, Counts), was: Tables, now: Tables, tables: seq<string>, n: nat)
    requires n <= |tables|
  {
    && (forall t :: t in tables[..n] ==> Settled(round, now, t))
    && (forall t :: t !in tables[..n] ==> Kept(was, now, t))
  }

  lemma ProgressStep(round: string -> (Table, Counts), was: Tables, prior: Tables, now: Tables, tables: seq<string>,
                     n: nat)
    requires n < |tables| && Progress(round, was, prior, tables, n) && Settled(round, now, tables[n])
    requires forall x :: x != tables[n] ==> Kept(prior, now, x)
    ensures Progress(round, was, now, tables, n + 1)
    ensures Whole(round, was, now)
  {
    OneMore(tables, n);
    forall x | x != tables[n]
      ensures (Kept(was, prior, x) ==> Kept(was, now, x)) && (Settled(round, prior, x) ==> Settled(round, now, x))
    {
      assert Kept(prior, now, x);
    }
  }

  /** The registration of a table when its turn comes, for what has become of the tables before it. */
  ghost function SpecFrom(e: Env, round: string -> (Table, Counts), was: Tables, t: string): SpecA {
    match e.schema.parent(t)
    case None => e.schema.specA(t)
    case Some(ref) =>
      var rows := if Before(e, ref.table, t) then round(ref.table).0.a else TableOf(was, ref.table).a;
      Against(e.schema.specA(t), ref.column, e.schema.specA(ref.table), rows)
  }

  lemma {:induction false} PositionIs(tables: seq<string>, n: nat, p: string)
    requires Distinct(tables) && n < |tables|
    ensures Position(tables, tables[n]) == n
    ensures p in tables[..n] <==> Position(tables, p) < n
  {
    if n > 0 && p != tables[0] {
      assert tables[1..][..n - 1] == tables[..n][1..];
      PositionIs(tables[1..], n - 1, p);
      assert tables[..n] == [tables[0]] + tables[..n][1..];
    } else if n > 0 {
      PositionIs(tables[1..], n - 1, tables[n]);
      assert tables[0] in tables[..n];
    }
  }

  lemma SpecAtTurn(e: Env, round: string -> (Table, Counts), was: Tables, now: Tables, n: nat)
    requires Registry(e.schema) && n < |e.schema.tierA| && Progress(round, was, now, e.schema.tierA, n)
    ensures SpecIn(e.schema, now, e.schema.tierA[n]) == SpecFrom(e, round, was, e.schema.tierA[n])
  {
    var t := e.schema.tierA[n];
    if e.schema.parent(t).Some? {
      var p := e.schema.parent(t).value.table;
      PositionIs(e.schema.tierA, n, p);
      assert p in e.schema.tierA[..n] ==> Settled(round, now, p);
      assert p !in e.schema.tierA[..n] ==> Kept(was, now, p);
    }
  }

  /** Marks the table whose turn it is. */
  ghost predicate Turn(t: string) { true }

  /** One planned table: fetch, then apply, whatever either does. */
  method PullTableA(remote: RemoteStoreView, t: string, plan: seq<string>, ghost e: Env)
    returns (c: Counts)
    requires Describes(e, remote)
    modifies remote`sent, remote.local`tables
    ensures (TableOf(remote.local.tables, t), c)
      == ApplyA(e, t, SpecIn(e.schema, old(remote.local.tables), t), TableOf(old(remote.local.tables), t), plan)
    ensures forall x :: x != t ==> Kept(old(remote.local.tables), remote.local.tables, x)
    ensures remote.sent == old(remote.sent) + if plan == [] then [] else [PullA(t, plan)]
  {
    if |plan| == 0 {
      return Nothing(0, false, false);
    }
    var served := remote.ServeTierA(t, plan);
    match served
    case WireFailed => c := Nothing(|plan|, false, true);
    case OtherFailed => c := Nothing(|plan|, true, false);
    case Got(records) =>
      var r := remote.local.ApplyTierA(t, records);
      if r.Thrown? {
        c := Nothing(|plan|, true, false);
      } else {
        c := Inserted(|plan|, |records|, r.value);
      }
  }

  /** The Tier-A loop, in the local registry's order. `round` is what is to happen to each table. */
  method PullTierA(remote: RemoteStoreView, plan: map<string, seq<string>>, ghost e: Env,
                  ghost round: string -> (Table, Counts), ghost fine: Request -> bool)
    returns (ok: bool, tally: Tally)
    requires Describes(e, remote)
    requires forall t {:trigger Turn(t)} :: Turn(t) ==>
      round(t) == ApplyA(e, t, SpecFrom(e, round, remote.local.tables, t), TableOf(remote.local.tables, t),
                         Lookup(plan, t))
    requires forall t {:trigger Turn(t)} :: Turn(t) && Lookup(plan, t) != [] ==> fine(PullA(t, Lookup(plan, t)))
    modifies remote`sent, remote.local`tables
    ensures LogSince(fine, old(remote.sent), remote.sent)
    ensures ok <==> Clear(round, e.schema.tierA)
    ensures ok ==> tally == TallyOf(A, e.schema.tierA, round)
    ensures ok ==> Progress(round, old(remote.local.tables), remote.local.tables, e.schema.tierA, |e.schema.tierA|)
    ensures Whole(round, old(remote.local.tables), remote.local.tables)
  {
    ghost var was := remote.local.tables;
    ok, tally := true, ZERO;
    var tables := remote.local.schema.tierA;
    for n := 0 to |tables|
      invariant LogSince(fine, old(remote.sent), remote.sent)
      invariant Progress(round, was, remote.local.tables, tables, n) && Whole(round, was, remote.local.tables)
      invariant Clear(round, tables[..n])
      invariant tally == TallyOf(A, tables[..n], round)
    {
      OneMore(tables, n);
      var t := tables[n];
      assert Turn(t) && Kept(was, remote.local.tables, t);
      ghost var prior, sent := remote.local.tables, remote.sent;
      SpecAtTurn(e, round, was, prior, n);
      var c := PullTableA(remote, t, Lookup(plan, t), e);
      assert (TableOf(remote.local.tables, t), c) == round(t);
      if Lookup(plan, t) != [] {
        LogOneMore(fine, old(remote.sent), sent, PullA(t, Lookup(plan, t)));
      }
      ProgressStep(round, was, prior, remote.local.tables, tables, n);
      if c.aborted {
        return false, tally;
      }
      tally := Add(A, t, c, tally);
    }
    assert tables[..|tables|] == tables;
  }

  /** One planned table: fetch, then apply, whatever either does. */
  method PullTableB(remote: RemoteStoreView, t: string, plan: seq<string>, ghost e: Env)
    returns (c: Counts)
    requires Describes(e, remote)
    modifies remote`sent, remote.local`tables
    ensures (TableOf(remote.local.tables, t), c) == ApplyB(e, t, TableOf(old(remote.local.tables), t), plan)
    ensures forall x :: x != t ==> Kept(old(remote.local.tables), remote.local.tables, x)
    ensures remote.sent == old(remote.sent) + if plan == [] then [] else [PullB(t, plan)]
  {
    if |plan| == 0 {
      return Nothing(0, false, false);
    }
    var served := remote.ServeTierB(t, plan);
    match served
    case WireFailed => c := Nothing(|plan|, false, true);
    case OtherFailed => c := Nothing(|plan|, true, false);
    case Got(records) =>
      var r := remote.local.ApplyTierB(t, records);
      if r.Thrown? {
        c := Nothing(|plan|, true, false);
      } else {
        VerdictAlwaysNamed(e.schema.specB(t), Outage(e.faults.applyB, t), TableOf(old(remote.local.tables), t).b,
                           records);
        assert r.value.divergent > 0 ==> r.value.verdict.Some?;
        c := Merged(|plan|, |records|, r.value);
      }
  }

  /** The Tier-B loop, in the local registry's order. `round` is what is to happen to each table. */
  method PullTierB(remote: RemoteStoreView, plan: map<string, seq<string>>, ghost e: Env,
                  ghost round: string -> (Table, Counts), ghost fine: Request -> bool)
    returns (ok: bool, tally: Tally)
    requires Describes(e, remote)
    requires forall t {:trigger Turn(t)} :: Turn(t) ==>
      round(t) == ApplyB(e, t, TableOf(remote.local.tables, t), Lookup(plan, t))
    requires forall t {:trigger Turn(t)} :: Turn(t) && Lookup(plan, t) != [] ==> fine(PullB(t, Lookup(plan, t)))
    modifies remote`sent, remote.local`tables
    ensures LogSince(fine, old(remote.sent), remote.sent)
    ensures ok <==> Clear(round, e.schema.tierB)
    ensures ok ==> tally == TallyOf(B, e.schema.tierB, round)
    ensures ok ==> Progress(round, old(remote.local.tables), remote.local.tables, e.schema.tierB, |e.schema.tierB|)
    ensures Whole(round, old(remote.local.tables), remote.local.tables)
  {
    ghost var was := remote.local.tables;
    ok, tally := true, ZERO;
    var tables := remote.local.schema.tierB;
    for n := 0 to |tables|
      invariant LogSince(fine, old(remote.sent), remote.sent)
      invariant Progress(round, was, remote.local.tables, tables, n) && Whole(round, was, remote.local.tables)
      invariant Clear(round, tables[..n])
      invariant tally == TallyOf(B, tables[..n], round)
    {
      OneMore(tables, n);
      var t := tables[n];
      assert Turn(t) && Kept(was, remote.local.tables, t);
      ghost var prior, sent := remote.local.tables, remote.sent;
      var c := PullTableB(remote, t, Lookup(plan, t), e);
      assert (TableOf(remote.local.tables, t), c) == round(t);
      if Lookup(plan, t) != [] {
        LogOneMore(fine, old(remote.sent), sent, PullB(t, Lookup(plan, t)));
      }
      ProgressStep(round, was, prior, remote.local.tables, tables, n);
      if c.aborted {
        return false, tally;
      }
      tally := Add(B, t, c, tally);
    }
    assert tables[..|tables|] == tables;
  }

  lemma UntrackedA(e: Env, m: Tables, t: string)
    requires t !in e.schema.tierA
    ensures RoundsA(e, m)(t) == (TableOf(m, t), Nothing(0, false, false))
  {
  }

  lemma UntrackedB(e: Env, m: Tables, t: string)
    requires t !in e.schema.tierB
    ensures RoundsB(e, m)(t) == (RoundsA(e, m)(t).0, Nothing(0, false, false))
  {
  }

  lemma ProgressEnds(round: string -> (Table, Counts), was: Tables, now: Tables, tables: seq<string>)
    requires Progress(round, was, now, tables, |tables|)
    requires forall t :: t !in tables ==> round(t).0 == TableOf(was, t)
    ensures AllSettled(round, now)
  {
    assert tables[..|tables|] == tables;
    forall t ensures Settled(round, now, t) {
      if t !in tables {
        assert Kept(was, now, t);
      }
    }
  }

  /** Once the plan is the one each table asks for, what the loops are to do is each table's round. */
  lemma PlanFixesRoundA(e: Env, m: Tables, plan: map<string, seq<string>>)
    requires PlanIsA(e, m, plan)
    ensures forall t {:trigger Turn(t)} :: Turn(t) ==>
      RoundsA(e, m)(t) == ApplyA(e, t, SpecFrom(e, RoundsA(e, m), m, t), TableOf(m, t), Lookup(plan, t))
    ensures forall t {:trigger Turn(t)} :: Turn(t) && Lookup(plan, t) != [] ==> Reasons(e, m)(PullA(t, Lookup(plan, t)))
  {
    forall t | Turn(t)
      ensures RoundsA(e, m)(t) == ApplyA(e, t, SpecFrom(e, RoundsA(e, m), m, t), TableOf(m, t), Lookup(plan, t))
      ensures Lookup(plan, t) != [] ==> Reasons(e, m)(PullA(t, Lookup(plan, t)))
    {
      assert PlannedA(e, m, plan, t);
      SpecIsFromRounds(e, m, t);
    }
  }

  lemma SpecIsFromRounds(e: Env, m: Tables, t: string)
    ensures SpecAt(e, m, t) == SpecFrom(e, RoundsA(e, m), m, t)
  {
  }

  lemma PlanFixesRoundB(e: Env, m: Tables, mid: Tables, plan: map<string, seq<string>>)
    requires PlanIsB(e, m, plan) && AllSettled(RoundsA(e, m), mid)
    ensures forall t {:trigger Turn(t)} :: Turn(t) ==>
      RoundsB(e, m)(t) == ApplyB(e, t, TableOf(mid, t), Lookup(plan, t))
    ensures forall t {:trigger Turn(t)} :: Turn(t) && Lookup(plan, t) != [] ==> Reasons(e, m)(PullB(t, Lookup(plan, t)))
  {
    forall t | Turn(t)
      ensures RoundsB(e, m)(t) == ApplyB(e, t, TableOf(mid, t), Lookup(plan, t))
      ensures Lookup(plan, t) != [] ==> Reasons(e, m)(PullB(t, Lookup(plan, t)))
    {
      assert PlannedB(e, m, plan, t) && Settled(RoundsA(e, m), mid, t);
    }
  }

  /** Each table is as it was, as its Tier-A half left it, or as its whole round left it. */
  ghost predicate Staged(e: Env, was: Tables, now: Tables) {
    forall t :: Kept(was, now, t) || Settled(RoundsA(e, was), now, t) || Settled(RoundsB(e, was), now, t)
  }

  lemma StagedA(e: Env, was: Tables, now: Tables)
    requires Whole(RoundsA(e, was), was, now)
    ensures Staged(e, was, now)
  {
  }

  lemma StagedB(e: Env, was: Tables, mid: Tables, now: Tables)
    requires AllSettled(RoundsA(e, was), mid) && Whole(RoundsB(e, was), mid, now)
    ensures Staged(e, was, now)
  {
    forall t ensures Settled(RoundsA(e, was), now, t) || Settled(RoundsB(e, was), now, t) {
      assert Settled(RoundsA(e, was), mid, t) && (Kept(mid, now, t) || Settled(RoundsB(e, was), now, t));
    }
  }

  lemma AllTracked(e: Env, m: Tables, mid: Tables)
    requires AllSettled(RoundsA(e, m), mid)
    ensures forall t :: t !in e.schema.tierB ==> RoundsB(e, m)(t).0 == TableOf(mid, t)
  {
    forall t | t !in e.schema.tierB ensures RoundsB(e, m)(t).0 == TableOf(mid, t) {
      UntrackedB(e, m, t);
      assert Settled(RoundsA(e, m), mid, t);
    }
  }

  /** `runAntiEntropyRound`. A round that returns has done to every table exactly what that table's
      own function says and reports exactly their sum; it dies exactly when planning or the wire
      fails; and then each table is at one of the three stages of its own round. No detail is
      requested of a table whose digests agree, and only a non-empty plan is pulled. */
  method RunRound(remote: RemoteStoreView, digestB: map<string, string> -> string, ghost e: Env)
    returns (r: Outcome<RoundResult>)
    requires Describes(e, remote) && e.digestB == digestB
    modifies remote`sent, remote.local`tables
    ensures r.Thrown? <==> Dies(e, old(remote.local.tables))
    ensures r.Done? ==> r.value == Result(e, old(remote.local.tables))
    ensures r.Done? ==> AllSettled(RoundsB(e, old(remote.local.tables)), remote.local.tables)
    ensures Staged(e, old(remote.local.tables), remote.local.tables)
    ensures LogSince(Reasons(e, old(remote.local.tables)), old(remote.sent), remote.sent)
  {
    ghost var m := remote.local.tables;
    var plan := MakePlan(remote, digestB, e);
    if plan.Thrown? {
      return Thrown(plan.reason);
    }
    ghost var sent := remote.sent;
    var (planA, planB, unreadable) := plan.value;
    PlanFixesRoundA(e, m, planA);
    var okA, tallyA := PullTierA(remote, planA, e, RoundsA(e, m), Reasons(e, m));
    LogTransitive(Reasons(e, m), old(remote.sent), sent, remote.sent);
    StagedA(e, m, remote.local.tables);
    if !okA {
      return Thrown("wire failed");
    }
    forall t | t !in e.schema.tierA ensures RoundsA(e, m)(t).0 == TableOf(m, t) { UntrackedA(e, m, t); }
    ProgressEnds(RoundsA(e, m), m, remote.local.tables, e.schema.tierA);
    ghost var mid := remote.local.tables;
    sent := remote.sent;
    PlanFixesRoundB(e, m, mid, planB);
    var okB, tallyB := PullTierB(remote, planB, e, RoundsB(e, m), Reasons(e, m));
    LogTransitive(Reasons(e, m), old(remote.sent), sent, remote.sent);
    StagedB(e, m, mid, remote.local.tables);
    if !okB {
      return Thrown("wire failed");
    }
    AllTracked(e, m, mid);
    ProgressEnds(RoundsB(e, m), mid, remote.local.tables, e.schema.tierB);
    r := Done(RoundResult(tallyA, tallyB, unreadable));
  }

  /** `localState` and `planRound`. */
  method MakePlan(remote: RemoteStoreView, digestB: map<string, string> -> string, ghost e: Env)
    returns (r: Outcome<(map<string, seq<string>>, map<string, seq<string>>, seq<Failure>)>)
    requires Describes(e, remote) && e.digestB == digestB
    modifies remote`sent
    ensures LogSince(Reasons(e, remote.local.tables), old(remote.sent), remote.sent)
    ensures r.Done? <==> PlansA(e, remote.local.tables) && PlansB(e, remote.local.tables)
    ensures r.Done? ==> PlanIsA(e, remote.local.tables, r.value.0) && PlanIsB(e, remote.local.tables, r.value.1)
    ensures r.Done? ==>
      r.value.2 == Unreadable(A, e.schema.tierA, e.faults.readA) + Unreadable(B, e.schema.tierB, e.faults.readB)
  {
    var db := remote.local;
    var basisA, unreadableA, failuresA := ReadTierA(db);
    var basisB, unreadableB, failuresB := ReadTierB(db);
    var planA := PlanTierA(remote, basisA, unreadableA, e);
    if planA.Thrown? {
      return Thrown(planA.reason);
    }
    ghost var sent := remote.sent;
    var planB := PlanTierB(remote, digestB, basisB, unreadableB, e);
    LogTransitive(Reasons(e, db.tables), old(remote.sent), sent, remote.sent);
    if planB.Thrown? {
      return Thrown(planB.reason);
    }
    r := Done((planA.value, planB.value, failuresA + failuresB));
  }
}
