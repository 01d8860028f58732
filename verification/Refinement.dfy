/** The two views of a pull agree: a pull of one table that nothing disturbs, stepped through as in
    `Convergence`, leaves exactly the rows the engine's round leaves against an honest peer. */
module Refinement {
  import opened Ordering
  import opened Reconciliation
  import opened Merges
  import opened Rows
  import opened Store
  import opened Channel
  import opened Engine
  import opened RoundProperties
  import opened SteadyState
  import opened ForeignKeys
  import Cv = Convergence

  // ----- Tier B -----

  function RulesB(spec: SpecB): Cv.Rules<Body> {
    Cv.Rules((c: Cv.Cell, x, y) => spec.merge(x, y), (c: Cv.Cell, x) => spec.version(x), (c: Cv.Cell, x) => 0,
             (c: Cv.Cell, x) => Stored(spec, x) && spec.keyOf(x) == c.key, (c: Cv.Cell, x) => None, t => None, t => 0)
  }

  function CellsB(t: string, rows: RowsB): Cv.Node<Body> {
    map k | k in rows :: Cv.Cell(B, t, k) := rows[k]
  }

  lemma OwnTableB(t: string, rows: RowsB)
    ensures Cv.TableRows(CellsB(t, rows), B, t) == CellsB(t, rows)
  {
  }

  ghost predicate StaleCell(spec: SpecB, t: string, rows: RowsB, peer: RowsB, c: Cv.Cell) {
    && c.tier == B && c.table == t && c.key in peer
    && (c.key !in rows || spec.version(rows[c.key]) != spec.version(peer[c.key]))
  }

  /** Even where equal digests cut the plan short, what is wanted is what is stale. */
  lemma WantedB(spec: SpecB, t: string, rows: RowsB, peer: RowsB, c: Cv.Cell)
    ensures c in Cv.WantAlone(RulesB(spec), CellsB(t, rows), CellsB(t, peer), B, t)
      <==> StaleCell(spec, t, rows, peer, c)
  {
    var rs, x, y := RulesB(spec), CellsB(t, rows), CellsB(t, peer);
    OwnTableB(t, rows);
    OwnTableB(t, peer);
    assert c == Cv.Cell(c.tier, c.table, c.key);
    if Cv.Versions(rs, x) == Cv.Versions(rs, y) && c in y {
      assert c in Cv.Versions(rs, y) && c in Cv.Versions(rs, x);
      assert Cv.Versions(rs, x)[c] == Cv.Versions(rs, y)[c];
    }
  }

  lemma AbsorbedIsJoined(spec: SpecB, t: string, rows: RowsB, peer: RowsB)
    requires Lattice(spec) && RowsOk(spec, rows) && RowsOk(spec, peer)
    ensures var rs, x, y := RulesB(spec), CellsB(t, rows), CellsB(t, peer);
      Cv.Absorbed(rs, x, Cv.WantedRows(rs, x, y, B, t)) == CellsB(t, Joined(spec, rows, peer))
  {
    var rs, x, y, j := RulesB(spec), CellsB(t, rows), CellsB(t, peer), Joined(spec, rows, peer);
    var todo := Cv.WantedRows(rs, x, y, B, t);
    var r := Cv.Absorbed(rs, x, todo);
    forall c ensures SameAt(r, CellsB(t, j), c) {
      AbsorbedAt(spec, t, rows, peer, c);
    }
    SameEverywhere(r, CellsB(t, j));
  }

  ghost predicate SameAt(r: Cv.Node<Body>, s: Cv.Node<Body>, c: Cv.Cell) {
    (c in r <==> c in s) && (c in r ==> r[c] == s[c])
  }

  lemma SameEverywhere(r: Cv.Node<Body>, s: Cv.Node<Body>)
    requires forall c :: SameAt(r, s, c)
    ensures r == s
  {
    forall c | c in r ensures c in s && r[c] == s[c] { assert SameAt(r, s, c); }
    forall c | c in s ensures c in r { assert SameAt(r, s, c); }
  }

  lemma AbsorbedAt(spec: SpecB, t: string, rows: RowsB, peer: RowsB, c: Cv.Cell)
    requires Lattice(spec) && RowsOk(spec, rows) && RowsOk(spec, peer)
    ensures var rs, x, y, j := RulesB(spec), CellsB(t, rows), CellsB(t, peer), Joined(spec, rows, peer);
      SameAt(Cv.Absorbed(rs, x, Cv.WantedRows(rs, x, y, B, t)), CellsB(t, j), c)
  {
    var rs, x, y := RulesB(spec), CellsB(t, rows), CellsB(t, peer);
    WantedB(spec, t, rows, peer, c);
    assert c == Cv.Cell(c.tier, c.table, c.key);
    var k := c.key;
    if c.tier == B && c.table == t && k in rows && k in peer && !StaleCell(spec, t, rows, peer, c) {
      assert Mergeable(spec, rows[k], peer[k]);
      Absorbs(spec, rows[k], rows[k]);
    }
  }

  lemma AllLand(spec: SpecB, x: Cv.Node<Body>, todo: Cv.Node<Body>)
    ensures Cv.Landing(RulesB(spec), x, todo) == todo
  {
  }

  lemma StepwiseB(spec: SpecB, t: string, x: Cv.Node<Body>, y: Cv.Node<Body>, cells: seq<Cv.Cell>)
    requires Distinct(cells) && Elements(cells) == Cv.WantAlone(RulesB(spec), x, y, B, t)
    ensures var rs := RulesB(spec);
      Cv.Run(rs, Cv.Start([x, y]), Cv.Whole(rs, x, y, B, t, cells))
        == Cv.World([Cv.Absorbed(rs, x, Cv.WantedRows(rs, x, y, B, t)), y], map[], {(0, 1, B, t)})
  {
    Cv.PullAlone(RulesB(spec), x, y, B, t, cells);
    AllLand(spec, x, Cv.WantedRows(RulesB(spec), x, y, B, t));
  }

  /** Tier B: step by step or in one round, the same rows. */
  lemma PullIsRoundB(e: Env, m: Tables, t: string, peer: RowsB, cells: seq<Cv.Cell>)
    requires ReadyB(e, t, TableOf(m, t).b, peer) && Distinct(cells)
    requires var rs, x, y := RulesB(e.schema.specB(t)), CellsB(t, TableOf(m, t).b), CellsB(t, peer);
      Elements(cells) == Cv.WantAlone(rs, x, y, B, t)
    ensures var rs, x, y := RulesB(e.schema.specB(t)), CellsB(t, TableOf(m, t).b), CellsB(t, peer);
      var w := Cv.Run(rs, Cv.Start([x, y]), Cv.Whole(rs, x, y, B, t, cells));
      w.nodes == [CellsB(t, RoundB(e, m, t).0.b), y] && w.done == {(0, 1, B, t)}
  {
    var rs, x, y := RulesB(e.schema.specB(t)), CellsB(t, TableOf(m, t).b), CellsB(t, peer);
    StepwiseB(e.schema.specB(t), t, x, y, cells);
    HonestRoundB(e, m, t, peer);
    AbsorbedIsJoined(e.schema.specB(t), t, TableOf(m, t).b, peer);
  }

  // ----- Tier A -----

  /** The cell a row of `t` refers to. */
  function Referred(t: string, parent: Option<Reference>, c: Cv.Cell, b: Body): Option<Cv.Cell> {
    if c.tier == A && c.table == t && parent.Some? && parent.value.column(b).Some?
    then Some(Cv.Cell(A, parent.value.table, parent.value.column(b).value)) else None
  }

  function RulesA(spec: SpecA, t: string, parent: Option<Reference>): Cv.Rules<Body> {
    Cv.Rules((c: Cv.Cell, x, y) => x, (c: Cv.Cell, x) => spec.hashOf(x), (c: Cv.Cell, x) => BucketIndex(spec.hashOf(x)),
             (c: Cv.Cell, x) => true, (c: Cv.Cell, x) => Referred(t, parent, c, x),
             s => if s == t && parent.Some? then Some(parent.value.table) else None, s => if s == t then 1 else 0)
  }

  /** The node holds exactly these rows of the table, each in the cell of its natural key. */
  ghost predicate HoldsA(x: Cv.Node<Body>, spec: SpecA, t: string, rows: RowsA) {
    && (forall c :: c in x && c.tier == A && c.table == t ==> CellRow(spec, rows, c, x[c]))
    && (forall b :: b in rows ==> Cv.Cell(A, t, spec.keyOf(b)) in x)
  }

  ghost predicate CellRow(spec: SpecA, rows: RowsA, c: Cv.Cell, b: Body) {
    b in rows && spec.keyOf(b) == c.key
  }

  lemma BoundCell(x: Cv.Node<Body>, spec: SpecA, t: string, rows: RowsA, k: string)
    requires HoldsA(x, spec, t, rows)
    ensures Bound(spec, rows, k) <==> Cv.Cell(A, t, k) in x
  {
    if Bound(spec, rows, k) {
      var i :| 0 <= i < |rows| && spec.keyOf(rows[i]) == k;
      assert rows[i] in rows;
    }
    if Cv.Cell(A, t, k) in x {
      NowBound(spec, rows, x[Cv.Cell(A, t, k)]);
    }
  }

  /** A cell only the peer holds is wanted: it makes the digests differ, and its bucket. */
  lemma WantsNewCells(x: Cv.Node<Body>, y: Cv.Node<Body>, rs: Cv.Rules<Body>, t: string, c: Cv.Cell)
    requires c in y && c !in x && c.tier == A && c.table == t
    ensures c in Cv.WantedRows(rs, x, y, A, t)
  {
    var mine, theirs := Cv.TableRows(x, A, t), Cv.TableRows(y, A, t);
    assert c in Cv.Versions(rs, theirs) && c !in Cv.Versions(rs, mine);
    assert Cv.InBucket(rs, theirs, c, rs.bucket(c, y[c]));
  }

  /** The table's own foreign key, as the engine checks it: the parent row is among these. */
  ghost predicate ParentAmong(s: Schema, parent: Option<Reference>, rows: RowsA, b: Body) {
    parent.Some? ==> Present(parent.value.column, s.specA(parent.value.table), rows, b)
  }

  ghost predicate HoldsParents(x: Cv.Node<Body>, s: Schema, t: string, parent: Option<Reference>, rows: RowsA) {
    parent.Some? ==> parent.value.table != t && HoldsA(x, s.specA(parent.value.table), parent.value.table, rows)
  }

  /** A new row dangles in the stepwise pull exactly when the engine's database would refuse it. */
  lemma DanglesExactly(x: Cv.Node<Body>, s: Schema, t: string, parent: Option<Reference>, rows: RowsA, c: Cv.Cell,
                       b: Body)
    requires HoldsParents(x, s, t, parent, rows) && c !in x && c.tier == A && c.table == t
    ensures Cv.Dangles(RulesA(s.specA(t), t, parent), x, c, b) <==> !ParentAmong(s, parent, rows, b)
  {
    if parent.Some? && parent.value.column(b).Some? {
      BoundCell(x, s.specA(parent.value.table), parent.value.table, rows, parent.value.column(b).value);
    }
  }

  /** So an undisturbed pull keeps every row held and adds exactly the peer's rows of new cells
      that have their parent here; other tables stay as they are. */
  lemma PulledCells(x: Cv.Node<Body>, y: Cv.Node<Body>, s: Schema, t: string, parent: Option<Reference>, rows: RowsA,
                    c: Cv.Cell)
    requires HoldsParents(x, s, t, parent, rows)
    ensures var rs := RulesA(s.specA(t), t, parent);
      var r := Cv.Absorbed(rs, x, Cv.Landing(rs, x, Cv.WantedRows(rs, x, y, A, t)));
      && (c in x ==> c in r && r[c] == x[c])
      && (c !in x ==> (c in r <==> c in y && c.tier == A && c.table == t && ParentAmong(s, parent, rows, y[c])))
      && (c !in x && c in r ==> r[c] == y[c])
  {
    var rs := RulesA(s.specA(t), t, parent);
    if c in y && c !in x && c.tier == A && c.table == t {
      WantsNewCells(x, y, rs, t, c);
      DanglesExactly(x, s, t, parent, rows, c, y[c]);
    }
  }

  /** Against `there` besides: what the database accepts once the foreign key is checked. */
  ghost predicate Checked(eff: SpecA, base: SpecA, there: Body -> bool) {
    SameCoding(eff, base) && forall z, b :: eff.accepts(z, b) <==> base.accepts(z, b) && there(b)
  }

  /** What the engine's pull leaves, where among the rows in play no constraint but the natural key
      and the foreign key keeps one out. */
  lemma PulledRowsAre(eff: SpecA, base: SpecA, there: Body -> bool, u: set<Body>, rows: RowsA, peer: RowsA, b: Body)
    requires Checked(eff, base, there) && Universe(eff, u) && Sane(eff, u, rows) && Sane(eff, u, peer)
    requires b in peer && !Bound(base, rows, base.keyOf(b)) ==> RoomFor(base, rows + peer, b)
    ensures b in Pulled(eff, rows, peer).rows
      <==> b in rows || (b in peer && !Bound(base, rows, base.keyOf(b)) && there(b))
  {
    var p := Pulled(eff, rows, peer).rows;
    PullExhaustsThePeer(eff, u, rows, peer);
    if b in rows {
      assert b in p[..|rows|];
    } else if b in peer {
      if Bound(base, rows, base.keyOf(b)) {
        if b in p { KeyIsOfHeldRow(eff, rows, p, b); }
      } else if !there(b) {
        NeverAmong(eff, rows, Serve(eff, peer, Wanted(eff, rows, peer)), b);
      } else {
        LandsInRoom(eff, base, there, rows, peer, p, b);
      }
    }
  }

  lemma LandsInRoom(eff: SpecA, base: SpecA, there: Body -> bool, rows: RowsA, peer: RowsA, p: RowsA, b: Body)
    requires Checked(eff, base, there) && there(b) && RoomFor(base, rows + peer, b) && KeysDistinct(eff, peer)
    requires b in peer && !Bound(base, rows, base.keyOf(b)) && !Inserts(eff, p, b)
    requires forall z :: z in p ==> z in rows || z in peer
    ensures b in p
  {
    if !Bound(eff, p, eff.keyOf(b)) {
      forall z | z in p ensures z in rows + peer && base.keyOf(z) != base.keyOf(b) { NowBound(eff, p, z); }
    } else {
      var i :| 0 <= i < |p| && eff.keyOf(p[i]) == eff.keyOf(b);
      assert p[i] in p;
      if p[i] in rows { NowBound(base, rows, p[i]); }
      HeldDoesNotConflict(eff, peer, b);
    }
  }

  lemma KeyIsOfHeldRow(spec: SpecA, rows: RowsA, p: RowsA, b: Body)
    requires KeysDistinct(spec, p) && |rows| <= |p| && p[..|rows|] == rows
    requires b in p && Bound(spec, rows, spec.keyOf(b))
    ensures b in rows
  {
    var i :| 0 <= i < |rows| && spec.keyOf(rows[i]) == spec.keyOf(b);
    assert p[i] == rows[i] && p[i] in p;
    HeldDoesNotConflict(spec, p, b);
  }

  /** Both views of one table about to be pulled. */
  ghost predicate Alike(x: Cv.Node<Body>, y: Cv.Node<Body>, s: Schema, t: string, prows: RowsA, eff: SpecA,
                        u: set<Body>,
                        rows: RowsA, peer: RowsA)
  {
    && HoldsA(x, s.specA(t), t, rows) && HoldsA(y, s.specA(t), t, peer) && HoldsParents(x, s, t, s.parent(t), prows)
    && Checked(eff, s.specA(t), b => ParentAmong(s, s.parent(t), prows, b)) && Roomy(s.specA(t), rows, peer)
    && Universe(eff, u) && Sane(eff, u, rows) && Sane(eff, u, peer)
  }

  ghost function After(x: Cv.Node<Body>, y: Cv.Node<Body>, s: Schema, t: string): Cv.Node<Body> {
    var rs := RulesA(s.specA(t), t, s.parent(t));
    Cv.Absorbed(rs, x, Cv.Landing(rs, x, Cv.WantedRows(rs, x, y, A, t)))
  }

  lemma RowOfCell(x: Cv.Node<Body>, y: Cv.Node<Body>, s: Schema, t: string, prows: RowsA, eff: SpecA, u: set<Body>,
                  rows: RowsA, peer: RowsA, c: Cv.Cell)
    requires Alike(x, y, s, t, prows, eff, u, rows, peer) && c in After(x, y, s, t) && c.tier == A && c.table == t
    ensures CellRow(s.specA(t), Pulled(eff, rows, peer).rows, c, After(x, y, s, t)[c])
  {
    var b := After(x, y, s, t)[c];
    PulledCells(x, y, s, t, s.parent(t), prows, c);
    PulledRowsAre(eff, s.specA(t), b => ParentAmong(s, s.parent(t), prows, b), u, rows, peer, b);
    BoundCell(x, s.specA(t), t, rows, c.key);
    assert c == Cv.Cell(c.tier, c.table, c.key);
  }

  lemma CellOfRow(x: Cv.Node<Body>, y: Cv.Node<Body>, s: Schema, t: string, prows: RowsA, eff: SpecA, u: set<Body>,
                  rows: RowsA, peer: RowsA, b: Body)
    requires Alike(x, y, s, t, prows, eff, u, rows, peer) && b in Pulled(eff, rows, peer).rows
    ensures Cv.Cell(A, t, s.specA(t).keyOf(b)) in After(x, y, s, t)
  {
    PulledRowsAre(eff, s.specA(t), b => ParentAmong(s, s.parent(t), prows, b), u, rows, peer, b);
    BoundCell(x, s.specA(t), t, rows, s.specA(t).keyOf(b));
    if b !in rows { NewCell(y, s.specA(t), t, peer, b); }
    PulledCells(x, y, s, t, s.parent(t), prows, Cv.Cell(A, t, s.specA(t).keyOf(b)));
  }

  /** The rows in the table's cells after the stepwise pull are those after the engine's. */
  lemma RowsOfCells(x: Cv.Node<Body>, y: Cv.Node<Body>, s: Schema, t: string, prows: RowsA, eff: SpecA, u: set<Body>,
                    rows: RowsA, peer: RowsA)
    requires Alike(x, y, s, t, prows, eff, u, rows, peer)
    ensures HoldsA(After(x, y, s, t), s.specA(t), t, Pulled(eff, rows, peer).rows)
  {
    var r, p := After(x, y, s, t), Pulled(eff, rows, peer).rows;
    forall c | c in r && c.tier == A && c.table == t ensures CellRow(s.specA(t), p, c, r[c]) {
      RowOfCell(x, y, s, t, prows, eff, u, rows, peer, c);
    }
    forall b | b in p ensures Cv.Cell(A, t, s.specA(t).keyOf(b)) in r {
      CellOfRow(x, y, s, t, prows, eff, u, rows, peer, b);
    }
  }

  /** No new row of the peer's clashes, but for its key, with a row held here or by the peer. */
  ghost predicate Roomy(spec: SpecA, rows: RowsA, peer: RowsA) {
    forall b :: b in peer && !Bound(spec, rows, spec.keyOf(b)) ==> RoomFor(spec, rows + peer, b)
  }

  lemma NewCell(y: Cv.Node<Body>, spec: SpecA, t: string, peer: RowsA, b: Body)
    requires HoldsA(y, spec, t, peer) && KeysDistinct(spec, peer) && b in peer
    ensures var c := Cv.Cell(A, t, spec.keyOf(b)); c in y && y[c] == b
  {
    HeldDoesNotConflict(spec, peer, b);
  }

  /** The parent's rows when the turn of `t` comes. */
  ghost function ParentRows(e: Env, m: Tables, t: string): RowsA {
    if e.schema.parent(t).Some? then TurnRows(e, m, t, e.schema.parent(t).value) else []
  }

  lemma CheckedAtTurn(e: Env, m: Tables, t: string)
    ensures Checked(SpecAt(e, m, t), e.schema.specA(t),
                    b => ParentAmong(e.schema, e.schema.parent(t), ParentRows(e, m, t), b))
  {
    SpecAtCoding(e, m, t);
  }

  lemma StepwiseA(x: Cv.Node<Body>, y: Cv.Node<Body>, s: Schema, t: string, cells: seq<Cv.Cell>)
    requires s.parent(t).Some? ==> s.parent(t).value.table != t
    requires Distinct(cells) && Elements(cells) == Cv.WantAlone(RulesA(s.specA(t), t, s.parent(t)), x, y, A, t)
    ensures var rs := RulesA(s.specA(t), t, s.parent(t));
      var w := Cv.Run(rs, Cv.Start([x, y]), Cv.Whole(rs, x, y, A, t, cells));
      w.nodes == [After(x, y, s, t), y] && w.pulls == map[]
  {
    Cv.PullAlone(RulesA(s.specA(t), t, s.parent(t)), x, y, A, t, cells);
  }

  /** Tier A, key conflicts and missing parents included: step by step or in one round, the same rows. */
  lemma PullIsRoundA(e: Env, m: Tables, t: string, u: set<Body>, peer: RowsA, x: Cv.Node<Body>, y: Cv.Node<Body>,
                     cells: seq<Cv.Cell>)
    requires ReadyA(e, t, u, TableOf(m, t).a, peer) && Distinct(cells)
    requires Roomy(e.schema.specA(t), TableOf(m, t).a, peer)
    requires HoldsA(x, e.schema.specA(t), t, TableOf(m, t).a) && HoldsA(y, e.schema.specA(t), t, peer)
    requires HoldsParents(x, e.schema, t, e.schema.parent(t), ParentRows(e, m, t))
    requires Elements(cells) == Cv.WantAlone(RulesA(e.schema.specA(t), t, e.schema.parent(t)), x, y, A, t)
    ensures var rs := RulesA(e.schema.specA(t), t, e.schema.parent(t));
      var w := Cv.Run(rs, Cv.Start([x, y]), Cv.Whole(rs, x, y, A, t, cells));
      && |w.nodes| == 2 && HoldsA(w.nodes[0], e.schema.specA(t), t, RoundA(e, m, t).0.a)
      && (forall c :: c in w.nodes[0] && c !in x ==> c.tier == A && c.table == t)
      && (forall c :: c in x ==> c in w.nodes[0] && w.nodes[0][c] == x[c])
      && w.nodes[1] == y && w.pulls == map[]
  {
    var rs := RulesA(e.schema.specA(t), t, e.schema.parent(t));
    StepwiseA(x, y, e.schema, t, cells);
    HonestRoundA(e, m, t, u, peer);
    ReadyAtTurn(e, m, t, u, peer);
    CheckedAtTurn(e, m, t);
    RowsOfCells(x, y, e.schema, t, ParentRows(e, m, t), SpecAt(e, m, t), u, TableOf(m, t).a, peer);
    forall c ensures var r := After(x, y, e.schema, t);
      (c in r && c !in x ==> c.tier == A && c.table == t) && (c in x ==> c in r && r[c] == x[c])
    {
      PulledCells(x, y, e.schema, t, e.schema.parent(t), ParentRows(e, m, t), c);
    }
  }
}
