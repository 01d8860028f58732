/** The three mutable tables as the store registers them: the validation, the stored form, the
    merge and the version summary of agent_suspensions, agent_presence and directory_nodes, over
    rows of columns. */
module DirectoryTables {
  import opened Ordering
  import opened Reconciliation
  import opened Merges
  import opened Rows
  import opened Store
  import opened NodeDirectory
  import SteadyState

  /** The library functions the tables' code calls. */
  datatype Library = Library(w: Wiring, rank: Tie -> nat, presence: Presence -> string)

  ghost predicate Exact(lib: Library) {
    && NodeDirectory.Sound(lib.w)
    && (forall x, y :: lib.w.decimal(x) == lib.w.decimal(y) ==> x == y)
    && (forall x, y :: lib.rank(x) == lib.rank(y) ==> x == y)
    && (forall x, y :: lib.presence(x) == lib.presence(y) ==> x == y)
  }

  predicate IsText(b: Body, c: string) { Column(b.columns, c).Text? }
  predicate IsFlag(b: Body, c: string) { Column(b.columns, c).Flag? }
  predicate IsOptional(b: Body, c: string) { Column(b.columns, c).Text? || Column(b.columns, c).Null? }

  function FlagOf(b: Body, c: string): bool {
    match Column(b.columns, c)
    case Flag(f) => f
    case _ => false
  }

  function NumberOf(b: Body, c: string): int {
    match Column(b.columns, c)
    case Number(n) => n
    case _ => 0
  }

  function OptionOf(b: Body, c: string): Option<string> {
    match Column(b.columns, c)
    case Text(s) => Some(s)
    case _ => None
  }

  function Nullable(o: Option<string>): Value {
    match o
    case None => Null
    case Some(s) => Text(s)
  }

  // ----- agent_suspensions -----

  const SUSPENSION_COLUMNS :=
    ["agent_id", "paused", "burned", "reason", "authorized_by_account", "suspension_seq", "origin_node"]

  function Suspended(s: Suspension): Body {
    Body(map["agent_id" := Text(s.agentId), "paused" := Flag(s.paused), "burned" := Flag(s.burned),
             "reason" := Nullable(s.reason), "authorized_by_account" := Nullable(s.account),
             "suspension_seq" := Number(s.seqNo), "origin_node" := Text(s.origin)])
  }

  function SuspensionOf(b: Body): Suspension {
    Suspension(TextOf(b, "agent_id"), FlagOf(b, "paused"), FlagOf(b, "burned"), OptionOf(b, "reason"),
               OptionOf(b, "authorized_by_account"), NumberOf(b, "suspension_seq"), TextOf(b, "origin_node"))
  }

  predicate ValidSuspension(b: Body) {
    && IsText(b, "agent_id") && IsFlag(b, "paused") && IsFlag(b, "burned")
    && Column(b.columns, "suspension_seq").Number?
    && IsOptional(b, "reason") && IsOptional(b, "authorized_by_account") && IsOptional(b, "origin_node")
  }

  /** Numbers are hashed as their decimal text, as the advertised row yields them. */
  function SuspensionRow(decimal: int -> string, s: Suspension): map<string, Value> {
    Suspended(s).columns["suspension_seq" := Text(decimal(s.seqNo))]
  }

  function SuspensionVersion(w: Wiring, s: Suspension): string {
    w.recordHash("agent_suspensions", Fields(w.decimal, SUSPENSION_COLUMNS, SuspensionRow(w.decimal, s)))
  }

  function SuspensionSpec(lib: Library): SpecB {
    SpecB(b => TextOf(b, "agent_id"), b => ValidSuspension(b), b => Suspended(SuspensionOf(b)),
          (x, y) => Suspended(MergeSuspension(lib.rank, SuspensionOf(x), SuspensionOf(y))),
          b => SuspensionVersion(lib.w, SuspensionOf(b)), true, None)
  }

  lemma SuspensionRoundTrip(s: Suspension)
    ensures SuspensionOf(Suspended(s)) == s && ValidSuspension(Suspended(s))
  {
  }

  lemma SuspensionVersionIsExact(lib: Library, r: Suspension, s: Suspension)
    requires Exact(lib) && SuspensionVersion(lib.w, r) == SuspensionVersion(lib.w, s)
    ensures r == s
  {
    var x, y, cs := SuspensionRow(lib.w.decimal, r), SuspensionRow(lib.w.decimal, s), SUSPENSION_COLUMNS;
    var w := lib.w;
    HashSeesColumn(w, "agent_suspensions", cs, x, y, 0);
    HashSeesColumn(w, "agent_suspensions", cs, x, y, 1);
    HashSeesColumn(w, "agent_suspensions", cs, x, y, 2);
    HashSeesColumn(w, "agent_suspensions", cs, x, y, 3);
    HashSeesColumn(w, "agent_suspensions", cs, x, y, 4);
    HashSeesColumn(w, "agent_suspensions", cs, x, y, 5);
    HashSeesColumn(w, "agent_suspensions", cs, x, y, 6);
    SameSuspensionFlags(w.decimal, r, s);
    SameSuspensionTexts(w.decimal, r, s);
    assert lib.w.decimal(r.seqNo) == lib.w.decimal(s.seqNo);
  }

  predicate SameColumn(decimal: int -> string, x: map<string, Value>, y: map<string, Value>, c: string) {
    Normalize(decimal, Column(x, c)) == Normalize(decimal, Column(y, c))
  }

  lemma HashSeesColumn(w: Wiring, table: string, cs: seq<string>, x: map<string, Value>, y: map<string, Value>, i: nat)
    requires NodeDirectory.Sound(w) && i < |cs|
    requires w.recordHash(table, Fields(w.decimal, cs, x)) == w.recordHash(table, Fields(w.decimal, cs, y))
    ensures SameColumn(w.decimal, x, y, cs[i])
  {
    VersionSeesExactlyItsColumns(w.decimal, w.recordHash, VersionSpec(table, [], cs), x, y);
    assert cs[i] in cs;
  }

  lemma SameSuspensionFlags(decimal: int -> string, r: Suspension, s: Suspension)
    ensures var x, y := SuspensionRow(decimal, r), SuspensionRow(decimal, s);
      && (SameColumn(decimal, x, y, "paused") ==> r.paused == s.paused)
      && (SameColumn(decimal, x, y, "burned") ==> r.burned == s.burned)
  {
    assert "true" != "false";
  }

  lemma SameSuspensionTexts(decimal: int -> string, r: Suspension, s: Suspension)
    ensures var x, y := SuspensionRow(decimal, r), SuspensionRow(decimal, s);
      && (SameColumn(decimal, x, y, "agent_id") ==> r.agentId == s.agentId)
      && (SameColumn(decimal, x, y, "reason") ==> r.reason == s.reason)
      && (SameColumn(decimal, x, y, "authorized_by_account") ==> r.account == s.account)
      && (SameColumn(decimal, x, y, "suspension_seq") ==> decimal(r.seqNo) == decimal(s.seqNo))
      && (SameColumn(decimal, x, y, "origin_node") ==> r.origin == s.origin)
  {
  }

  /** The kill switch's table, with its actual merge and version summary, is a join semilattice. */
  lemma SuspensionsAreALattice(lib: Library)
    requires Exact(lib)
    ensures SteadyState.Lattice(SuspensionSpec(lib))
  {
    var spec := SuspensionSpec(lib);
    forall x, y | SteadyState.Mergeable(spec, x, y)
      ensures SteadyState.Stored(spec, spec.merge(x, y)) && spec.keyOf(spec.merge(x, y)) == spec.keyOf(x)
      ensures spec.merge(x, y) == spec.merge(y, x) && spec.merge(x, x) == x
      ensures spec.merge(x, spec.merge(x, y)) == spec.merge(x, y)
      ensures spec.version(x) == spec.version(y) ==> x == y
    {
      var r, s := SuspensionOf(x), SuspensionOf(y);
      var rs := MergeSuspension(lib.rank, r, s);
      SuspensionRoundTrip(rs);
      SuspensionRoundTrip(r);
      SuspensionIdempotent(lib.rank, r);
      SuspensionAssociative(lib.rank, r, r, s);
      SuspensionCommutesExactly(lib.rank, r, s);
      if spec.version(x) == spec.version(y) {
        SuspensionVersionIsExact(lib, r, s);
      }
    }
  }

  // ----- agent_presence -----

  const PRESENCE_COLUMNS := ["k_local_pubkey", "online", "owning_node_id", "last_seen_at", "updated_at"]

  function Present(p: Presence): Body {
    Body(map["k_local_pubkey" := Text(p.pubkey), "online" := Flag(p.online), "owning_node_id" := Text(p.owner),
             "last_seen_at" := Text(p.lastSeen), "updated_at" := Text(p.updatedAt)])
  }

  function PresenceOf(b: Body): Presence {
    Presence(TextOf(b, "k_local_pubkey"), FlagOf(b, "online"), TextOf(b, "owning_node_id"),
             TextOf(b, "last_seen_at"), TextOf(b, "updated_at"))
  }

  predicate ValidPresence(b: Body) {
    && IsText(b, "k_local_pubkey") && IsFlag(b, "online") && IsText(b, "owning_node_id")
    && IsText(b, "last_seen_at") && IsText(b, "updated_at")
  }

  function PresenceVersion(w: Wiring, p: Presence): string {
    w.recordHash("agent_presence", Fields(w.decimal, PRESENCE_COLUMNS, Present(p).columns))
  }

  function PresenceSpec(lib: Library): SpecB {
    SpecB(b => TextOf(b, "k_local_pubkey"), b => ValidPresence(b), b => Present(PresenceOf(b)),
          (x, y) => Present(MergePresence(lib.w.num, lib.presence, PresenceOf(x), PresenceOf(y))),
          b => PresenceVersion(lib.w, PresenceOf(b)), true, None)
  }

  lemma PresenceRoundTrip(p: Presence)
    ensures PresenceOf(Present(p)) == p && ValidPresence(Present(p))
  {
  }

  lemma PresenceVersionIsExact(lib: Library, p: Presence, q: Presence)
    requires Exact(lib) && PresenceVersion(lib.w, p) == PresenceVersion(lib.w, q)
    ensures p == q
  {
    var x, y, cs := Present(p).columns, Present(q).columns, PRESENCE_COLUMNS;
    forall i | 0 <= i < 5 ensures SameColumn(lib.w.decimal, x, y, cs[i]) {
      HashSeesColumn(lib.w, "agent_presence", cs, x, y, i);
    }
    assert cs[0] == "k_local_pubkey" && cs[1] == "online" && cs[2] == "owning_node_id";
    assert cs[3] == "last_seen_at" && cs[4] == "updated_at";
    assert SameColumn(lib.w.decimal, x, y, cs[0]) && SameColumn(lib.w.decimal, x, y, cs[1]);
    assert SameColumn(lib.w.decimal, x, y, cs[2]) && SameColumn(lib.w.decimal, x, y, cs[3]);
    assert SameColumn(lib.w.decimal, x, y, cs[4]);
    assert "true" != "false";
  }

  lemma PresenceIsALattice(lib: Library)
    requires Exact(lib)
    ensures SteadyState.Lattice(PresenceSpec(lib))
  {
    var spec := PresenceSpec(lib);
    forall x, y | SteadyState.Mergeable(spec, x, y)
      ensures SteadyState.Stored(spec, spec.merge(x, y)) && spec.keyOf(spec.merge(x, y)) == spec.keyOf(x)
      ensures spec.merge(x, y) == spec.merge(y, x) && spec.merge(x, x) == x
      ensures spec.merge(x, spec.merge(x, y)) == spec.merge(x, y)
      ensures spec.version(x) == spec.version(y) ==> x == y
    {
      var p, q := PresenceOf(x), PresenceOf(y);
      var pq := MergePresence(lib.w.num, lib.presence, p, q);
      PresenceRoundTrip(pq);
      PresenceRoundTrip(p);
      PresenceIsSemilattice(lib.w.num, lib.presence, p, p, q);
      PresenceIsSemilattice(lib.w.num, lib.presence, p, q, q);
      if spec.version(x) == spec.version(y) {
        PresenceVersionIsExact(lib, p, q);
      }
    }
  }

  // ----- the Tier-B digest -----

  /** The real digest of a version map, taken over any listing of its entries, tells two maps apart. */
  lemma VersionDigestDiscerns(sha: string -> string, json: seq<Entry> -> string,
                              list: map<string, string> -> seq<Entry>,
                              x: map<string, string>, y: map<string, string>)
    requires Lists(list(x), x) && Lists(list(y), y)
    requires forall s, t :: json(s) == json(t) ==> s == t
    requires Reconciliation.CollisionFree(sha, {json(Sort(EntryLe, list(x))), json(Sort(EntryLe, list(y)))})
    ensures SteadyState.DiscernsB(m => VersionDigest(sha, json, list(m)), x, y)
  {
    VersionDigestIsExact(sha, json, list(x), x, list(y), y);
  }

  // ----- what a pulled record does to a row, over the columns -----

  /** A kill-switch record is refused exactly when its key is not its agent or a column has the wrong
      type. */
  lemma SuspensionRefusedExactly(lib: Library, rows: RowsB, r: RecordB)
    ensures var c := r.body.columns;
      FoldB(SuspensionSpec(lib), None, rows, [r]).thrown <==>
        || Column(c, "agent_id") != Text(r.key)
        || !Column(c, "paused").Flag? || !Column(c, "burned").Flag? || !Column(c, "suspension_seq").Number?
        || !(Column(c, "reason").Text? || Column(c, "reason").Null?)
        || !(Column(c, "authorized_by_account").Text? || Column(c, "authorized_by_account").Null?)
        || !(Column(c, "origin_node").Text? || Column(c, "origin_node").Null?)
  {
    FoldBThrowsExactly(SuspensionSpec(lib), None, rows, [r]);
    assert r in [r];
  }

  /** And a presence record. */
  lemma PresenceRefusedExactly(lib: Library, rows: RowsB, r: RecordB)
    ensures var c := r.body.columns;
      FoldB(PresenceSpec(lib), None, rows, [r]).thrown <==>
        || Column(c, "k_local_pubkey") != Text(r.key) || !Column(c, "online").Flag?
        || !Column(c, "owning_node_id").Text? || !Column(c, "last_seen_at").Text? || !Column(c, "updated_at").Text?
  {
    FoldBThrowsExactly(PresenceSpec(lib), None, rows, [r]);
    assert r in [r];
  }

  lemma SuspensionColumns(s: Suspension)
    ensures FlagOf(Suspended(s), "paused") == s.paused && FlagOf(Suspended(s), "burned") == s.burned
    ensures NumberOf(Suspended(s), "suspension_seq") == s.seqNo
  {
  }

  /** A merge that leaves the version leaves the row. */
  lemma SuspensionLands(lib: Library, l: Body, b: Body)
    requires Exact(lib) && SteadyState.Stored(SuspensionSpec(lib), l)
    ensures var spec := SuspensionSpec(lib);
      spec.version(spec.merge(l, b)) == spec.version(l) ==> spec.merge(l, b) == l
  {
    var spec := SuspensionSpec(lib);
    var m := MergeSuspension(lib.rank, SuspensionOf(l), SuspensionOf(b));
    SuspensionRoundTrip(m);
    if spec.version(spec.merge(l, b)) == spec.version(l) {
      SuspensionVersionIsExact(lib, m, SuspensionOf(l));
    }
  }

  ghost predicate NewerDecides(x: Body, l: Body, b: Body) {
    var was, now := NumberOf(l, "suspension_seq"), NumberOf(b, "suspension_seq");
    && FlagOf(x, "burned") == (FlagOf(l, "burned") || FlagOf(b, "burned"))
    && (now > was ==> FlagOf(x, "paused") == FlagOf(b, "paused"))
    && (now < was ==> FlagOf(x, "paused") == FlagOf(l, "paused"))
    && (now == was ==> FlagOf(x, "paused") == (FlagOf(l, "paused") || FlagOf(b, "paused")))
  }

  lemma MergedSuspensionIs(lib: Library, l: Body, b: Body)
    ensures NewerDecides(SuspensionSpec(lib).merge(l, b), l, b)
  {
    SuspensionColumns(MergeSuspension(lib.rank, SuspensionOf(l), SuspensionOf(b)));
    KillSwitchNeverLosesABurn(lib.rank, SuspensionOf(l), SuspensionOf(b));
  }

  /** The row a valid kill-switch record leaves: the record's own on a new agent; otherwise burned if
      either is, paused as the newer of the two says, and if they are equally new if either says so. */
  lemma PulledSuspensionIs(lib: Library, rows: RowsB, r: RecordB)
    requires Exact(lib) && SteadyState.RowsOk(SuspensionSpec(lib), rows)
    requires !FoldB(SuspensionSpec(lib), None, rows, [r]).thrown
    ensures var f := FoldB(SuspensionSpec(lib), None, rows, [r]).rows;
      && r.key in f
      && (r.key !in rows ==> FlagOf(f[r.key], "burned") == FlagOf(r.body, "burned")
                             && FlagOf(f[r.key], "paused") == FlagOf(r.body, "paused"))
      && (r.key in rows ==> NewerDecides(f[r.key], rows[r.key], r.body))
  {
    var spec := SuspensionSpec(lib);
    FoldBThrowsExactly(spec, None, rows, [r]);
    assert r in [r];
    FoldBAt(spec, rows, [r], 0);
    assert [r][0] == r;
    if r.key in rows {
      SuspensionLands(lib, rows[r.key], r.body);
      MergedSuspensionIs(lib, rows[r.key], r.body);
    } else {
      SuspensionColumns(SuspensionOf(r.body));
    }
  }

  /** The row a valid presence record leaves: the record's own for a new key; of two real instants the
      later row; a record with a malformed one never replaces a row with a real one. */
  lemma PulledPresenceIs(lib: Library, rows: RowsB, r: RecordB)
    requires Exact(lib) && SteadyState.RowsOk(PresenceSpec(lib), rows)
    requires !FoldB(PresenceSpec(lib), None, rows, [r]).thrown
    ensures var f := FoldB(PresenceSpec(lib), None, rows, [r]).rows;
      && r.key in f
      && (r.key !in rows ==> FlagOf(f[r.key], "online") == FlagOf(r.body, "online"))
      && (r.key in rows ==>
            var x, y := lib.w.num(TextOf(rows[r.key], "updated_at")), lib.w.num(TextOf(r.body, "updated_at"));
            && (x.Some? && y.Some? && x.value > y.value ==> f[r.key] == rows[r.key])
            && (x.Some? && y.Some? && y.value > x.value ==> FlagOf(f[r.key], "online") == FlagOf(r.body, "online"))
            && (x.Some? && y.None? ==> f[r.key] == rows[r.key]))
  {
    var spec := PresenceSpec(lib);
    FoldBThrowsExactly(spec, None, rows, [r]);
    assert r in [r];
    FoldBAt(spec, rows, [r], 0);
    assert [r][0] == r;
    if r.key in rows {
      PresenceLands(lib, rows[r.key], r.body);
    }
  }

  lemma PresenceLands(lib: Library, l: Body, b: Body)
    requires Exact(lib) && SteadyState.Stored(PresenceSpec(lib), l)
    ensures var spec := PresenceSpec(lib); var m := spec.merge(l, b);
      var x, y := lib.w.num(TextOf(l, "updated_at")), lib.w.num(TextOf(b, "updated_at"));
      && (spec.version(m) == spec.version(l) ==> m == l)
      && (x.Some? && y.Some? && x.value > y.value ==> m == l)
      && (x.Some? && y.Some? && y.value > x.value ==> FlagOf(m, "online") == FlagOf(b, "online"))
      && (x.Some? && y.None? ==> m == l)
  {
    var spec := PresenceSpec(lib);
    var p := MergePresence(lib.w.num, lib.presence, PresenceOf(l), PresenceOf(b));
    LaterPresenceWins(lib.w.num, lib.presence, PresenceOf(l), PresenceOf(b));
    PresenceRoundTrip(p);
    if spec.version(spec.merge(l, b)) == spec.version(l) {
      PresenceVersionIsExact(lib, p, PresenceOf(l));
    }
  }
}
