/** Convergence of any number of directory nodes under any interleaving of their pulls. A pull
    of one table runs in several steps (the peer's digest, the local read, in Tier A the peer's
    bucket digests and a second local read, the plan, the fetch, and one apply per record), and the
    steps of all pulls of all nodes interleave freely. */
module Convergence {
  import opened Ordering
  import opened Merges
  import opened Rows

  datatype Cell = Cell(tier: Tier, table: string, key: string)

  /** A node's replicated rows. */
  type Node<R> = map<Cell, R>

  /** How two copies of a row merge (Tier A keeps the local one), the version a row is advertised
      under, the bucket a Tier-A row falls into, and the rows that may occur at a cell; the row a
      row refers to by its foreign key, the table a table's foreign key leads to, and the place of
      a table in the registry. */
  datatype Rules<!R> = Rules(merge: (Cell, R, R) -> R, version: (Cell, R) -> string, bucket: (Cell, R) -> nat,
                             ok: (Cell, R) -> bool, refers: (Cell, R) -> Option<Cell>,
                             parent: string -> Option<string>, rank: string -> nat)

  /** On the rows that may occur, merging is a join, the version determines the row, a Tier-A cell
      has one row only, and foreign keys lead from Tier A to Tier A, to a table registered before. */
  ghost predicate Lawful<R(!new)>(rs: Rules<R>) {
    && (forall c, a, b {:trigger rs.ok(c, rs.merge(c, a, b))} ::
          rs.ok(c, a) && rs.ok(c, b) ==> rs.ok(c, rs.merge(c, a, b)))
    && (forall c, a, b {:trigger rs.merge(c, a, b), rs.merge(c, b, a)} ::
          rs.ok(c, a) && rs.ok(c, b) ==> rs.merge(c, a, b) == rs.merge(c, b, a))
    && (forall c, a {:trigger rs.merge(c, a, a)} :: rs.ok(c, a) ==> rs.merge(c, a, a) == a)
    && (forall c, a, b, d {:trigger rs.merge(c, rs.merge(c, a, b), d)} :: rs.ok(c, a) && rs.ok(c, b) && rs.ok(c, d) ==>
          rs.merge(c, rs.merge(c, a, b), d) == rs.merge(c, a, rs.merge(c, b, d)))
    && (forall c, a, b {:trigger rs.version(c, a), rs.version(c, b)} :: rs.ok(c, a) && rs.ok(c, b) ==>
          (c.tier == A || rs.version(c, a) == rs.version(c, b) ==> a == b))
    && (forall c, a {:trigger rs.refers(c, a)} :: rs.ok(c, a) && rs.refers(c, a).Some? ==>
          c.tier == A && rs.refers(c, a).value.tier == A && rs.parent(c.table) == Some(rs.refers(c, a).value.table))
    && (forall t :: rs.parent(t).Some? ==> rs.rank(rs.parent(t).value) < rs.rank(t))
  }

  // ----- the order on rows and nodes -----

  ghost predicate Below<R(!new)>(rs: Rules<R>, c: Cell, a: R, b: R) {
    rs.ok(c, a) && rs.ok(c, b) && rs.merge(c, a, b) == b
  }

  lemma BelowReflexive<R(!new)>(rs: Rules<R>, c: Cell, a: R)
    requires Lawful(rs) && rs.ok(c, a)
    ensures Below(rs, c, a, a)
  {
    assert rs.merge(c, a, a) == a;
  }

  lemma BelowTransitive<R(!new)>(rs: Rules<R>, c: Cell, a: R, b: R, d: R)
    requires Lawful(rs) && Below(rs, c, a, b) && Below(rs, c, b, d)
    ensures Below(rs, c, a, d)
  {
    assert rs.merge(c, rs.merge(c, a, b), d) == rs.merge(c, a, rs.merge(c, b, d));
  }

  lemma BelowAntisymmetric<R(!new)>(rs: Rules<R>, c: Cell, a: R, b: R)
    requires Lawful(rs) && Below(rs, c, a, b) && Below(rs, c, b, a)
    ensures a == b
  {
    assert rs.merge(c, a, b) == rs.merge(c, b, a);
  }

  lemma MergeIsJoin<R(!new)>(rs: Rules<R>, c: Cell, a: R, b: R)
    requires Lawful(rs) && rs.ok(c, a) && rs.ok(c, b)
    ensures Below(rs, c, a, rs.merge(c, a, b)) && Below(rs, c, b, rs.merge(c, a, b))
  {
    var m := rs.merge(c, a, b);
    assert rs.ok(c, rs.merge(c, a, b));
    assert rs.merge(c, rs.merge(c, a, a), b) == rs.merge(c, a, rs.merge(c, a, b));
    assert rs.merge(c, a, a) == a && rs.merge(c, b, b) == b;
    assert rs.merge(c, rs.merge(c, b, b), a) == rs.merge(c, b, rs.merge(c, b, a));
    assert rs.merge(c, a, b) == rs.merge(c, b, a);
  }

  lemma MergeIsLeast<R(!new)>(rs: Rules<R>, c: Cell, a: R, b: R, d: R)
    requires Lawful(rs) && Below(rs, c, a, d) && Below(rs, c, b, d)
    ensures Below(rs, c, rs.merge(c, a, b), d)
  {
    assert rs.ok(c, rs.merge(c, a, b));
    assert rs.merge(c, rs.merge(c, a, b), d) == rs.merge(c, a, rs.merge(c, b, d));
  }

  ghost predicate NodeBelow<R(!new)>(rs: Rules<R>, x: Node<R>, y: Node<R>) {
    forall c :: c in x ==> c in y && Below(rs, c, x[c], y[c])
  }

  ghost predicate NodeOk<R(!new)>(rs: Rules<R>, x: Node<R>) {
    forall c :: c in x ==> rs.ok(c, x[c])
  }

  lemma NodeBelowReflexive<R(!new)>(rs: Rules<R>, x: Node<R>)
    requires Lawful(rs) && NodeOk(rs, x)
    ensures NodeBelow(rs, x, x)
  {
    forall c | c in x ensures Below(rs, c, x[c], x[c]) { BelowReflexive(rs, c, x[c]); }
  }

  lemma NodeBelowTransitive<R(!new)>(rs: Rules<R>, x: Node<R>, y: Node<R>, z: Node<R>)
    requires Lawful(rs) && NodeBelow(rs, x, y) && NodeBelow(rs, y, z)
    ensures NodeBelow(rs, x, z)
  {
    forall c | c in x ensures c in z && Below(rs, c, x[c], z[c]) { BelowTransitive(rs, c, x[c], y[c], z[c]); }
  }

  lemma NodeBelowAntisymmetric<R(!new)>(rs: Rules<R>, x: Node<R>, y: Node<R>)
    requires Lawful(rs) && NodeBelow(rs, x, y) && NodeBelow(rs, y, x)
    ensures x == y
  {
    forall c | c in x ensures x[c] == y[c] { BelowAntisymmetric(rs, c, x[c], y[c]); }
  }

  // ----- the join of all nodes -----

  function JoinNodes<R(!new)>(rs: Rules<R>, x: Node<R>, y: Node<R>): Node<R> {
    map c | c in x.Keys + y.Keys ::
      if c !in y then x[c] else if c !in x then y[c] else rs.merge(c, x[c], y[c])
  }

  function JoinAll<R(!new)>(rs: Rules<R>, nodes: seq<Node<R>>): Node<R> {
    if nodes == [] then map[] else JoinNodes(rs, JoinAll(rs, nodes[..|nodes| - 1]), nodes[|nodes| - 1])
  }

  lemma JoinNodesIsJoin<R(!new)>(rs: Rules<R>, x: Node<R>, y: Node<R>)
    requires Lawful(rs) && NodeOk(rs, x) && NodeOk(rs, y)
    ensures NodeOk(rs, JoinNodes(rs, x, y))
    ensures NodeBelow(rs, x, JoinNodes(rs, x, y)) && NodeBelow(rs, y, JoinNodes(rs, x, y))
  {
    var j := JoinNodes(rs, x, y);
    forall c | c in j
      ensures rs.ok(c, j[c]) && (c in x ==> Below(rs, c, x[c], j[c])) && (c in y ==> Below(rs, c, y[c], j[c]))
    {
      if c in x && c in y { MergeIsJoin(rs, c, x[c], y[c]); }
      else if c in x { BelowReflexive(rs, c, x[c]); }
      else { BelowReflexive(rs, c, y[c]); }
    }
  }

  lemma JoinNodesIsLeast<R(!new)>(rs: Rules<R>, x: Node<R>, y: Node<R>, z: Node<R>)
    requires Lawful(rs) && NodeBelow(rs, x, z) && NodeBelow(rs, y, z)
    ensures NodeBelow(rs, JoinNodes(rs, x, y), z)
  {
    forall c | c in JoinNodes(rs, x, y) ensures c in z && Below(rs, c, JoinNodes(rs, x, y)[c], z[c]) {
      if c in x && c in y { MergeIsLeast(rs, c, x[c], y[c], z[c]); }
    }
  }

  ghost predicate AllOk<R(!new)>(rs: Rules<R>, nodes: seq<Node<R>>) {
    forall i :: 0 <= i < |nodes| ==> NodeOk(rs, nodes[i])
  }

  lemma {:induction false} JoinAllIsJoin<R(!new)>(rs: Rules<R>, nodes: seq<Node<R>>, i: nat)
    requires Lawful(rs) && AllOk(rs, nodes)
    ensures NodeOk(rs, JoinAll(rs, nodes))
    ensures i < |nodes| ==> NodeBelow(rs, nodes[i], JoinAll(rs, nodes))
  {
    if nodes != [] {
      var n := |nodes| - 1;
      JoinAllIsJoin(rs, nodes[..n], i);
      JoinNodesIsJoin(rs, JoinAll(rs, nodes[..n]), nodes[n]);
      if i < n {
        NodeBelowTransitive(rs, nodes[i], JoinAll(rs, nodes[..n]), JoinAll(rs, nodes));
      }
    }
  }

  lemma {:induction false} JoinAllIsLeast<R(!new)>(rs: Rules<R>, nodes: seq<Node<R>>, z: Node<R>)
    requires Lawful(rs) && forall i :: 0 <= i < |nodes| ==> NodeBelow(rs, nodes[i], z)
    ensures NodeBelow(rs, JoinAll(rs, nodes), z)
  {
    if nodes != [] {
      var n := |nodes| - 1;
      JoinAllIsLeast(rs, nodes[..n], z);
      JoinNodesIsLeast(rs, JoinAll(rs, nodes[..n]), nodes[n], z);
    }
  }

  // ----- pulls -----

  function TableRows<R>(x: Node<R>, tier: Tier, table: string): Node<R> {
    map c | c in x && c.tier == tier && c.table == table :: x[c]
  }

  function Versions<R(!new)>(rs: Rules<R>, rows: Node<R>): map<Cell, string> {
    map c | c in rows :: rs.version(c, rows[c])
  }

  /** `planRound` for one table: nothing when the digests (taken as the version maps) agree,
      otherwise every cell of the peer's whose version is missing or different here. */
  function Plan<R(!new)>(rs: Rules<R>, basis: Node<R>, advertised: Node<R>, peer: Node<R>): set<Cell> {
    if Versions(rs, basis) == Versions(rs, advertised) then {}
    else set c | c in peer && (c !in basis || rs.version(c, basis[c]) != rs.version(c, peer[c]))
  }

  /** Two nodes hold the same rows in a bucket, as far as their digests tell. */
  ghost predicate SameBucket<R(!new)>(rs: Rules<R>, mine: Node<R>, theirs: Node<R>, i: nat) {
    forall c :: InBucket(rs, mine, c, i) || InBucket(rs, theirs, c, i) ==>
      c in mine && c in theirs && rs.version(c, mine[c]) == rs.version(c, theirs[c])
  }

  ghost predicate InBucket<R(!new)>(rs: Rules<R>, rows: Node<R>, c: Cell, i: nat) {
    c in rows && rs.bucket(c, rows[c]) == i
  }

  /** The plan of a bucket walk: what the peer now lists in the buckets that differed between its
      bucket digests and the second local read, less what the first local read held. */
  ghost function WalkPlan<R(!new)>(rs: Rules<R>, basis: Node<R>, mine: Node<R>, theirs: Node<R>,
                                   peer: Node<R>): set<Cell> {
    set c | c in peer && !SameBucket(rs, mine, theirs, rs.bucket(c, peer[c]))
            && (c !in basis || rs.version(c, basis[c]) != rs.version(c, peer[c]))
  }

  /** The row would be new here and the row it refers to is not there: its INSERT fails. */
  predicate Dangles<R(!new)>(rs: Rules<R>, x: Node<R>, c: Cell, row: R) {
    c !in x && rs.refers(c, row).Some? && rs.refers(c, row).value !in x
  }

  /** Insert if absent, merge if present; a failing INSERT is passed over. */
  function ApplyRow<R(!new)>(rs: Rules<R>, x: Node<R>, c: Cell, row: R): Node<R> {
    if Dangles(rs, x, c, row) then x else x[c := if c in x then rs.merge(c, x[c], row) else row]
  }

  /** A pull in flight; `advertised` is the peer's table when it answered with its digest, and
      `ordered` says that the table's parent had been pulled from that peer before the fetch. */
  datatype Stage<R> =
    | Advertised(advertised: Node<R>)
    | Read(advertised: Node<R>, basis: Node<R>)
    | Bucketed(advertised: Node<R>, basis: Node<R>, theirs: Node<R>)
    | Compared(advertised: Node<R>, basis: Node<R>, theirs: Node<R>, mine: Node<R>)
    | Planned(advertised: Node<R>, want: set<Cell>)
    | Applying(advertised: Node<R>, todo: Node<R>, ordered: bool)

  datatype Pull<R> = Pull(local: nat, peer: nat, tier: Tier, table: string, stage: Stage<R>)

  /** `done`: the finished pulls that were in order. */
  datatype World<R> = World(nodes: seq<Node<R>>, pulls: map<nat, Pull<R>>, done: set<(nat, nat, Tier, string)>)

  datatype Action =
    | Dial(id: nat, local: nat, peer: nat, tier: Tier, table: string)
    | ReadLocal(id: nat)
    | AskBuckets(id: nat)
    | Reread(id: nat)
    | MakePlan(id: nat)
    | Fetch(id: nat)
    | Apply(id: nat, cell: Cell)
    | Finish(id: nat)
    | Abandon(id: nat)

  predicate Flying<R>(w: World<R>, id: nat) {
    id in w.pulls && w.pulls[id].local < |w.nodes| && w.pulls[id].peer < |w.nodes|
  }

  /** Only an append-only table whose digest differs takes the bucket walk. */
  predicate TakesWalk<R(!new)>(rs: Rules<R>, p: Pull<R>) {
    p.stage.Read? && p.tier == A && Versions(rs, p.stage.basis) != Versions(rs, p.stage.advertised)
  }

  predicate Enabled<R(!new)>(rs: Rules<R>, w: World<R>, a: Action) {
    match a
    case Dial(id, local, peer, _, _) => id !in w.pulls && local < |w.nodes| && peer < |w.nodes|
    case ReadLocal(id) => Flying(w, id) && w.pulls[id].stage.Advertised?
    case AskBuckets(id) => Flying(w, id) && TakesWalk(rs, w.pulls[id])
    case Reread(id) => Flying(w, id) && w.pulls[id].stage.Bucketed?
    case MakePlan(id) =>
      Flying(w, id) && (w.pulls[id].stage.Compared? || (w.pulls[id].stage.Read? && !TakesWalk(rs, w.pulls[id])))
    case Fetch(id) => Flying(w, id) && w.pulls[id].stage.Planned?
    case Apply(id, c) => Flying(w, id) && w.pulls[id].stage.Applying? && c in w.pulls[id].stage.todo
    case Finish(id) => Flying(w, id) && w.pulls[id].stage.Applying? && w.pulls[id].stage.todo == map[]
    case Abandon(id) => id in w.pulls
  }

  function SetStage<R>(w: World<R>, id: nat, stage: Stage<R>): World<R>
    requires id in w.pulls
  {
    w.(pulls := w.pulls[id := w.pulls[id].(stage := stage)])
  }

  /** The registry's order was kept: the parent of this table was pulled from this peer before. */
  predicate InOrder<R(!new)>(rs: Rules<R>, w: World<R>, local: nat, peer: nat, tier: Tier, table: string) {
    tier == B || rs.parent(table).None? || (local, peer, A, rs.parent(table).value) in w.done
  }

  ghost function PlanOf<R(!new)>(rs: Rules<R>, p: Pull<R>, peer: Node<R>): set<Cell>
    requires p.stage.Read? || p.stage.Compared?
  {
    if p.stage.Read? then Plan(rs, p.stage.basis, p.stage.advertised, peer)
    else WalkPlan(rs, p.stage.basis, p.stage.mine, p.stage.theirs, peer)
  }

  ghost function Step<R(!new)>(rs: Rules<R>, w: World<R>, a: Action): World<R>
    requires Enabled(rs, w, a)
  {
    match a
    case Dial(id, local, peer, tier, table) =>
      w.(pulls := w.pulls[id := Pull(local, peer, tier, table, Advertised(TableRows(w.nodes[peer], tier, table)))])
    case ReadLocal(id) =>
      var p := w.pulls[id];
      SetStage(w, id, Read(p.stage.advertised, TableRows(w.nodes[p.local], p.tier, p.table)))
    case AskBuckets(id) =>
      var p := w.pulls[id];
      SetStage(w, id, Bucketed(p.stage.advertised, p.stage.basis, TableRows(w.nodes[p.peer], p.tier, p.table)))
    case Reread(id) =>
      var p := w.pulls[id];
      SetStage(w, id, Compared(p.stage.advertised, p.stage.basis, p.stage.theirs,
                               TableRows(w.nodes[p.local], p.tier, p.table)))
    case MakePlan(id) =>
      var p := w.pulls[id];
      SetStage(w, id, Planned(p.stage.advertised, PlanOf(rs, p, TableRows(w.nodes[p.peer], p.tier, p.table))))
    case Fetch(id) =>
      var p := w.pulls[id];
      var peer := w.nodes[p.peer];
      SetStage(w, id, Applying(p.stage.advertised, map c | c in p.stage.want && c in peer :: peer[c],
                               InOrder(rs, w, p.local, p.peer, p.tier, p.table)))
    case Apply(id, c) =>
      var p := w.pulls[id];
      var w' := SetStage(w, id, p.stage.(todo := p.stage.todo - {c}));
      w'.(nodes := w.nodes[p.local := ApplyRow(rs, w.nodes[p.local], c, p.stage.todo[c])])
    case Finish(id) =>
      var p := w.pulls[id];
      w.(pulls := w.pulls - {id},
         done := if p.stage.ordered then w.done + {(p.local, p.peer, p.tier, p.table)} else w.done)
    case Abandon(id) => w.(pulls := w.pulls - {id})
  }

  /** Any schedule of actions; one that is not enabled when its turn comes is skipped. */
  ghost function Run<R(!new)>(rs: Rules<R>, w: World<R>, schedule: seq<Action>): World<R> {
    if schedule == [] then w
    else
      var before := Run(rs, w, schedule[..|schedule| - 1]);
      var a := schedule[|schedule| - 1];
      if Enabled(rs, before, a) then Step(rs, before, a) else before
  }

  function Start<R>(init: seq<Node<R>>): World<R> {
    World(init, map[], {})
  }

  // ----- what every step keeps -----

  /** The peer row advertised at `c` has arrived at the node. */
  ghost predicate Arrived<R(!new)>(rs: Rules<R>, x: Node<R>, c: Cell, row: R) {
    c in x && Below(rs, c, row, x[c])
  }

  /** No row of the node refers to a row it does not hold. */
  ghost predicate Closed<R(!new)>(rs: Rules<R>, x: Node<R>) {
    forall c :: c in x && rs.refers(c, x[c]).Some? ==> rs.refers(c, x[c]).value in x
  }

  /** The rows a node starts with in a table cannot fail for want of a parent it does not hold. */
  ghost predicate Grounded<R(!new)>(rs: Rules<R>, start: Node<R>, tier: Tier, table: string) {
    tier == B || rs.parent(table).None? || Closed(rs, start)
  }

  /** Of these rows each is here or about to be applied, and finds its parent here. */
  ghost predicate Coming<R(!new)>(rs: Rules<R>, local: Node<R>, todo: Node<R>, rows: Node<R>) {
    forall c :: c in rows ==>
      && (Arrived(rs, todo, c, rows[c]) || Arrived(rs, local, c, rows[c]))
      && (rs.refers(c, rows[c]).Some? ==> rs.refers(c, rows[c]).value in local)
  }

  /** `rows` are those the peer started with in this table, if they are grounded. */
  ghost predicate StageInv<R(!new)>(rs: Rules<R>, top: Node<R>, local: Node<R>, rows: Node<R>, s: Stage<R>) {
    match s
    case Advertised(_) => true
    case Read(_, basis) => NodeBelow(rs, basis, local)
    case Bucketed(adv, basis, theirs) => NodeBelow(rs, basis, local) && NodeBelow(rs, adv, theirs)
    case Compared(adv, basis, theirs, mine) =>
      NodeBelow(rs, basis, local) && NodeBelow(rs, adv, theirs) && NodeBelow(rs, mine, local)
    case Planned(adv, want) => forall c :: c in adv && c !in want ==> Arrived(rs, local, c, adv[c])
    case Applying(adv, todo, ordered) => NodeBelow(rs, todo, top) && (ordered ==> Coming(rs, local, todo, rows))
  }

  /** What a pull of this table from this peer is sure to bring. */
  ghost function Due<R(!new)>(rs: Rules<R>, start: Node<R>, tier: Tier, table: string): Node<R> {
    if Grounded(rs, start, tier, table) then TableRows(start, tier, table) else map[]
  }

  ghost predicate PullInv<R(!new)>(rs: Rules<R>, init: seq<Node<R>>, nodes: seq<Node<R>>, top: Node<R>, p: Pull<R>)
    requires |nodes| == |init|
  {
    && p.local < |init| && p.peer < |init|
    && NodeBelow(rs, TableRows(init[p.peer], p.tier, p.table), p.stage.advertised)
    && NodeBelow(rs, p.stage.advertised, TableRows(nodes[p.peer], p.tier, p.table))
    && StageInv(rs, top, nodes[p.local], Due(rs, init[p.peer], p.tier, p.table), p.stage)
    && (p.stage.Bucketed? || p.stage.Compared? ==> p.tier == A)
  }

  ghost predicate DoneInv<R(!new)>(rs: Rules<R>, init: seq<Node<R>>, nodes: seq<Node<R>>, d: (nat, nat, Tier, string))
    requires |nodes| == |init|
  {
    d.0 < |init| && d.1 < |init| && NodeBelow(rs, Due(rs, init[d.1], d.2, d.3), nodes[d.0])
  }

  ghost predicate Grown<R(!new)>(rs: Rules<R>, xs: seq<Node<R>>, ys: seq<Node<R>>) {
    |xs| == |ys| && forall i :: 0 <= i < |xs| ==> NodeBelow(rs, xs[i], ys[i])
  }

  ghost predicate Bounded<R(!new)>(rs: Rules<R>, nodes: seq<Node<R>>, top: Node<R>) {
    forall i :: 0 <= i < |nodes| ==> NodeBelow(rs, nodes[i], top)
  }

  ghost predicate Inv<R(!new)>(rs: Rules<R>, init: seq<Node<R>>, top: Node<R>, w: World<R>) {
    && Grown(rs, init, w.nodes)
    && Bounded(rs, w.nodes, top)
    && (forall id :: id in w.pulls ==> PullInv(rs, init, w.nodes, top, w.pulls[id]))
    && (forall d :: d in w.done ==> DoneInv(rs, init, w.nodes, d))
  }

  lemma TableRowsBelow<R(!new)>(rs: Rules<R>, x: Node<R>, y: Node<R>, tier: Tier, table: string)
    requires NodeBelow(rs, x, y)
    ensures NodeBelow(rs, TableRows(x, tier, table), TableRows(y, tier, table))
  {}

  lemma GrownTransitive<R(!new)>(rs: Rules<R>, xs: seq<Node<R>>, ys: seq<Node<R>>, zs: seq<Node<R>>)
    requires Lawful(rs) && Grown(rs, xs, ys) && Grown(rs, ys, zs)
    ensures Grown(rs, xs, zs)
  {
    forall i | 0 <= i < |xs| ensures NodeBelow(rs, xs[i], zs[i]) { NodeBelowTransitive(rs, xs[i], ys[i], zs[i]); }
  }

  lemma ArrivedStays<R(!new)>(rs: Rules<R>, x: Node<R>, y: Node<R>, c: Cell, row: R)
    requires Lawful(rs) && NodeBelow(rs, x, y) && Arrived(rs, x, c, row)
    ensures Arrived(rs, y, c, row)
  {
    BelowTransitive(rs, c, row, x[c], y[c]);
  }

  lemma ComingGrows<R(!new)>(rs: Rules<R>, x: Node<R>, y: Node<R>, todo: Node<R>, rows: Node<R>)
    requires Lawful(rs) && NodeBelow(rs, x, y) && Coming(rs, x, todo, rows)
    ensures Coming(rs, y, todo, rows)
  {
    forall c | c in rows ensures Arrived(rs, todo, c, rows[c]) || Arrived(rs, y, c, rows[c]) {
      if Arrived(rs, x, c, rows[c]) { ArrivedStays(rs, x, y, c, rows[c]); }
    }
  }

  lemma StageInvGrows<R(!new)>(rs: Rules<R>, top: Node<R>, x: Node<R>, y: Node<R>, rows: Node<R>, s: Stage<R>)
    requires Lawful(rs) && NodeBelow(rs, x, y) && StageInv(rs, top, x, rows, s)
    ensures StageInv(rs, top, y, rows, s)
  {
    match s
    case Advertised(_) =>
    case Read(_, basis) => NodeBelowTransitive(rs, basis, x, y);
    case Bucketed(_, basis, _) => NodeBelowTransitive(rs, basis, x, y);
    case Compared(_, basis, _, mine) =>
      NodeBelowTransitive(rs, basis, x, y);
      NodeBelowTransitive(rs, mine, x, y);
    case Planned(adv, want) =>
      forall c | c in adv && c !in want ensures Arrived(rs, y, c, adv[c]) { ArrivedStays(rs, x, y, c, adv[c]); }
    case Applying(adv, todo, ordered) =>
      if ordered { ComingGrows(rs, x, y, todo, rows); }
  }

  lemma PullInvGrows<R(!new)>(rs: Rules<R>, init: seq<Node<R>>, xs: seq<Node<R>>, ys: seq<Node<R>>, top: Node<R>,
                              p: Pull<R>)
    requires Lawful(rs) && |init| == |xs| && Grown(rs, xs, ys) && PullInv(rs, init, xs, top, p)
    ensures PullInv(rs, init, ys, top, p)
  {
    TableRowsBelow(rs, xs[p.peer], ys[p.peer], p.tier, p.table);
    NodeBelowTransitive(rs, p.stage.advertised, TableRows(xs[p.peer], p.tier, p.table),
                        TableRows(ys[p.peer], p.tier, p.table));
    StageInvGrows(rs, top, xs[p.local], ys[p.local], Due(rs, init[p.peer], p.tier, p.table), p.stage);
  }

  lemma InvGrows<R(!new)>(rs: Rules<R>, init: seq<Node<R>>, top: Node<R>, w: World<R>, ys: seq<Node<R>>)
    requires Lawful(rs) && Inv(rs, init, top, w) && Grown(rs, w.nodes, ys) && Bounded(rs, ys, top)
    ensures Inv(rs, init, top, w.(nodes := ys))
  {
    GrownTransitive(rs, init, w.nodes, ys);
    forall id | id in w.pulls ensures PullInv(rs, init, ys, top, w.pulls[id]) {
      PullInvGrows(rs, init, w.nodes, ys, top, w.pulls[id]);
    }
    forall d | d in w.done ensures DoneInv(rs, init, ys, d) {
      NodeBelowTransitive(rs, Due(rs, init[d.1], d.2, d.3), w.nodes[d.0], ys[d.0]);
    }
  }

  lemma BoundedIsOk<R(!new)>(rs: Rules<R>, nodes: seq<Node<R>>, top: Node<R>, i: nat)
    requires Bounded(rs, nodes, top) && i < |nodes|
    ensures NodeOk(rs, nodes[i])
  {
    assert NodeBelow(rs, nodes[i], top);
  }

  /** A pull that is abandoned is forgotten: no node has changed and nothing is done. */
  lemma AbandonForgets<R(!new)>(rs: Rules<R>, w: World<R>, id: nat)
    requires id in w.pulls
    ensures Step(rs, w, Abandon(id)) == World(w.nodes, map i | i in w.pulls && i != id :: w.pulls[i], w.done)
  {
  }

  /** Whatever the local basis was, a peer row the plan leaves out has already arrived. */
  lemma PlanOmitsOnlyArrived<R(!new)>(rs: Rules<R>, local: Node<R>, basis: Node<R>, adv: Node<R>, peer: Node<R>,
                                      c: Cell)
    requires Lawful(rs) && NodeBelow(rs, basis, local) && NodeBelow(rs, adv, peer)
    requires c in adv && c !in Plan(rs, basis, adv, peer)
    ensures Arrived(rs, local, c, adv[c])
  {
    assert Below(rs, c, adv[c], peer[c]);
    if Versions(rs, basis) == Versions(rs, adv) {
      assert c in Versions(rs, adv) && c in Versions(rs, basis);
      assert rs.version(c, basis[c]) == Versions(rs, basis)[c] == Versions(rs, adv)[c] == rs.version(c, adv[c]);
      assert Below(rs, c, basis[c], local[c]);
      assert basis[c] == adv[c];
    } else {
      assert c in basis && rs.version(c, basis[c]) == rs.version(c, peer[c]);
      assert Below(rs, c, basis[c], local[c]);
      assert basis[c] == peer[c];
      BelowTransitive(rs, c, adv[c], peer[c], local[c]);
    }
  }

  /** The bucket walk too omits only what has arrived, although its second local read, the peer's
      bucket digests and the peer's hash list are all of different moments. */
  lemma WalkOmitsOnlyArrived<R(!new)>(rs: Rules<R>, local: Node<R>, basis: Node<R>, adv: Node<R>, mine: Node<R>,
                                      theirs: Node<R>, peer: Node<R>, c: Cell)
    requires Lawful(rs) && NodeBelow(rs, basis, local) && NodeBelow(rs, mine, local)
    requires NodeBelow(rs, adv, theirs) && NodeBelow(rs, adv, peer)
    requires c.tier == A && c in adv && c !in WalkPlan(rs, basis, mine, theirs, peer)
    ensures Arrived(rs, local, c, adv[c])
  {
    assert Below(rs, c, adv[c], peer[c]) && Below(rs, c, adv[c], theirs[c]);
    SameCell(rs, c, adv[c], peer[c]);
    SameCell(rs, c, adv[c], theirs[c]);
    if SameBucket(rs, mine, theirs, rs.bucket(c, peer[c])) {
      assert InBucket(rs, theirs, c, rs.bucket(c, peer[c]));
      assert Below(rs, c, mine[c], local[c]);
      SameCell(rs, c, adv[c], mine[c]);
    } else {
      assert Below(rs, c, basis[c], local[c]);
      SameCell(rs, c, adv[c], basis[c]);
    }
  }

  lemma SameCell<R(!new)>(rs: Rules<R>, c: Cell, a: R, b: R)
    requires Lawful(rs) && rs.ok(c, a) && rs.ok(c, b) && c.tier == A
    ensures a == b
  {
    assert rs.version(c, a) == rs.version(c, b) || rs.version(c, a) != rs.version(c, b);
  }

  lemma ApplyRowGrows<R(!new)>(rs: Rules<R>, x: Node<R>, top: Node<R>, c: Cell, row: R)
    requires Lawful(rs) && NodeBelow(rs, x, top) && c in top && Below(rs, c, row, top[c])
    ensures NodeBelow(rs, x, ApplyRow(rs, x, c, row)) && NodeBelow(rs, ApplyRow(rs, x, c, row), top)
    ensures !Dangles(rs, x, c, row) ==> Arrived(rs, ApplyRow(rs, x, c, row), c, row)
  {
    NodeBelowReflexive(rs, x);
    BelowReflexive(rs, c, row);
    if c in x {
      assert Below(rs, c, x[c], top[c]);
      MergeIsJoin(rs, c, x[c], row);
      MergeIsLeast(rs, c, x[c], row, top[c]);
    }
  }

  /** Replacing one pull by another that satisfies the invariant. */
  lemma InvSetStage<R(!new)>(rs: Rules<R>, init: seq<Node<R>>, top: Node<R>, w: World<R>, id: nat, s: Stage<R>)
    requires Inv(rs, init, top, w) && id in w.pulls
    requires s.advertised == w.pulls[id].stage.advertised
    requires Flying(w, id) && |init| == |w.nodes| ==>
      StageInv(rs, top, w.nodes[w.pulls[id].local],
               Due(rs, init[w.pulls[id].peer], w.pulls[id].tier, w.pulls[id].table), s)
    requires s.Bucketed? || s.Compared? ==> w.pulls[id].tier == A
    ensures Inv(rs, init, top, SetStage(w, id, s))
  {
    var p := w.pulls[id];
    assert PullInv(rs, init, w.nodes, top, p);
    assert PullInv(rs, init, w.nodes, top, p.(stage := s));
  }

  lemma DialKeepsInv<R(!new)>(rs: Rules<R>, init: seq<Node<R>>, top: Node<R>, w: World<R>, a: Action)
    requires Lawful(rs) && Inv(rs, init, top, w) && Enabled(rs, w, a) && a.Dial?
    ensures Inv(rs, init, top, Step(rs, w, a))
  {
    var rows := TableRows(w.nodes[a.peer], a.tier, a.table);
    BoundedIsOk(rs, w.nodes, top, a.peer);
    NodeBelowReflexive(rs, rows);
    TableRowsBelow(rs, init[a.peer], w.nodes[a.peer], a.tier, a.table);
    assert PullInv(rs, init, w.nodes, top, Pull(a.local, a.peer, a.tier, a.table, Advertised(rows)));
  }

  lemma ReadKeepsInv<R(!new)>(rs: Rules<R>, init: seq<Node<R>>, top: Node<R>, w: World<R>, id: nat)
    requires Lawful(rs) && Inv(rs, init, top, w) && Enabled(rs, w, ReadLocal(id))
    ensures Inv(rs, init, top, Step(rs, w, ReadLocal(id)))
  {
    var p := w.pulls[id];
    BoundedIsOk(rs, w.nodes, top, p.local);
    NodeBelowReflexive(rs, w.nodes[p.local]);
    InvSetStage(rs, init, top, w, id, Read(p.stage.advertised, TableRows(w.nodes[p.local], p.tier, p.table)));
  }

  lemma AskKeepsInv<R(!new)>(rs: Rules<R>, init: seq<Node<R>>, top: Node<R>, w: World<R>, id: nat)
    requires Lawful(rs) && Inv(rs, init, top, w) && Enabled(rs, w, AskBuckets(id))
    ensures Inv(rs, init, top, Step(rs, w, AskBuckets(id)))
  {
    var p := w.pulls[id];
    assert PullInv(rs, init, w.nodes, top, p);
    InvSetStage(rs, init, top, w, id,
                Bucketed(p.stage.advertised, p.stage.basis, TableRows(w.nodes[p.peer], p.tier, p.table)));
  }

  lemma RereadKeepsInv<R(!new)>(rs: Rules<R>, init: seq<Node<R>>, top: Node<R>, w: World<R>, id: nat)
    requires Lawful(rs) && Inv(rs, init, top, w) && Enabled(rs, w, Reread(id))
    ensures Inv(rs, init, top, Step(rs, w, Reread(id)))
  {
    var p := w.pulls[id];
    assert PullInv(rs, init, w.nodes, top, p);
    BoundedIsOk(rs, w.nodes, top, p.local);
    NodeBelowReflexive(rs, w.nodes[p.local]);
    InvSetStage(rs, init, top, w, id, Compared(p.stage.advertised, p.stage.basis, p.stage.theirs,
                                               TableRows(w.nodes[p.local], p.tier, p.table)));
  }

  lemma PlanKeepsInv<R(!new)>(rs: Rules<R>, init: seq<Node<R>>, top: Node<R>, w: World<R>, id: nat)
    requires Lawful(rs) && Inv(rs, init, top, w) && Enabled(rs, w, MakePlan(id))
    ensures Inv(rs, init, top, Step(rs, w, MakePlan(id)))
  {
    var p := w.pulls[id];
    var adv, basis := p.stage.advertised, p.stage.basis;
    var rows := TableRows(w.nodes[p.peer], p.tier, p.table);
    assert PullInv(rs, init, w.nodes, top, p);
    forall c | c in adv && c !in PlanOf(rs, p, rows) ensures Arrived(rs, w.nodes[p.local], c, adv[c]) {
      if p.stage.Read? {
        PlanOmitsOnlyArrived(rs, w.nodes[p.local], basis, adv, rows, c);
      } else {
        assert c in rows;
        WalkOmitsOnlyArrived(rs, w.nodes[p.local], basis, adv, p.stage.mine, p.stage.theirs, rows, c);
      }
    }
    InvSetStage(rs, init, top, w, id, Planned(adv, PlanOf(rs, p, rows)));
  }

  /** The parent of what is due of a table pulled in order is here. */
  lemma ParentsAreHere<R(!new)>(rs: Rules<R>, init: seq<Node<R>>, top: Node<R>, w: World<R>, p: Pull<R>, c: Cell)
    requires Lawful(rs) && Inv(rs, init, top, w) && p.local < |init| && p.peer < |init| && NodeOk(rs, init[p.peer])
    requires InOrder(rs, w, p.local, p.peer, p.tier, p.table) && c in Due(rs, init[p.peer], p.tier, p.table)
    ensures rs.refers(c, init[p.peer][c]).Some? ==> rs.refers(c, init[p.peer][c]).value in w.nodes[p.local]
  {
    var start := init[p.peer];
    if rs.refers(c, start[c]).Some? {
      var k := rs.refers(c, start[c]).value;
      assert rs.ok(c, start[c]);
      assert k in start && k in TableRows(start, A, k.table);
      assert DoneInv(rs, init, w.nodes, (p.local, p.peer, A, k.table));
    }
  }

  /** What the plan left out has arrived, and the rest is fetched. */
  lemma FetchBrings<R(!new)>(rs: Rules<R>, local: Node<R>, peer: Node<R>, adv: Node<R>, want: set<Cell>, rows: Node<R>)
    requires Lawful(rs) && NodeBelow(rs, rows, adv) && NodeBelow(rs, adv, peer)
    requires forall c :: c in adv && c !in want ==> Arrived(rs, local, c, adv[c])
    requires forall c :: c in rows && rs.refers(c, rows[c]).Some? ==> rs.refers(c, rows[c]).value in local
    ensures Coming(rs, local, map c | c in want && c in peer :: peer[c], rows)
  {
    var todo := map c | c in want && c in peer :: peer[c];
    forall c | c in rows ensures Arrived(rs, todo, c, rows[c]) || Arrived(rs, local, c, rows[c]) {
      assert Below(rs, c, rows[c], adv[c]) && Below(rs, c, adv[c], peer[c]);
      if c in want { BelowTransitive(rs, c, rows[c], adv[c], peer[c]); }
      else { BelowTransitive(rs, c, rows[c], adv[c], local[c]); }
    }
  }

  lemma DueBelow<R(!new)>(rs: Rules<R>, init: seq<Node<R>>, top: Node<R>, w: World<R>, p: Pull<R>)
    requires Inv(rs, init, top, w) && PullInv(rs, init, w.nodes, top, p)
    ensures NodeBelow(rs, Due(rs, init[p.peer], p.tier, p.table), p.stage.advertised)
    ensures NodeBelow(rs, p.stage.advertised, w.nodes[p.peer])
    ensures NodeOk(rs, init[p.peer]) && NodeBelow(rs, w.nodes[p.peer], top)
  {
    assert NodeBelow(rs, init[p.peer], w.nodes[p.peer]);
  }

  lemma FetchIsComing<R(!new)>(rs: Rules<R>, init: seq<Node<R>>, top: Node<R>, w: World<R>, p: Pull<R>)
    requires Lawful(rs) && Inv(rs, init, top, w) && PullInv(rs, init, w.nodes, top, p) && p.stage.Planned?
    requires InOrder(rs, w, p.local, p.peer, p.tier, p.table)
    ensures var peer := w.nodes[p.peer];
      Coming(rs, w.nodes[p.local], map c | c in p.stage.want && c in peer :: peer[c],
             Due(rs, init[p.peer], p.tier, p.table))
  {
    var rows := Due(rs, init[p.peer], p.tier, p.table);
    DueBelow(rs, init, top, w, p);
    forall c | c in rows && rs.refers(c, rows[c]).Some? ensures rs.refers(c, rows[c]).value in w.nodes[p.local] {
      ParentsAreHere(rs, init, top, w, p, c);
    }
    FetchBrings(rs, w.nodes[p.local], w.nodes[p.peer], p.stage.advertised, p.stage.want, rows);
  }

  lemma FetchKeepsInv<R(!new)>(rs: Rules<R>, init: seq<Node<R>>, top: Node<R>, w: World<R>, id: nat)
    requires Lawful(rs) && Inv(rs, init, top, w) && Enabled(rs, w, Fetch(id))
    ensures Inv(rs, init, top, Step(rs, w, Fetch(id)))
  {
    var p := w.pulls[id];
    var peer := w.nodes[p.peer];
    var todo := map c | c in p.stage.want && c in peer :: peer[c];
    var s := Applying(p.stage.advertised, todo, InOrder(rs, w, p.local, p.peer, p.tier, p.table));
    assert PullInv(rs, init, w.nodes, top, p);
    DueBelow(rs, init, top, w, p);
    assert NodeBelow(rs, todo, top);
    if s.ordered {
      FetchIsComing(rs, init, top, w, p);
    }
    InvSetStage(rs, init, top, w, id, s);
  }

  lemma ApplyKeepsStage<R(!new)>(rs: Rules<R>, top: Node<R>, x: Node<R>, adv: Node<R>, todo: Node<R>, ordered: bool,
                                 rows: Node<R>, cell: Cell)
    requires Lawful(rs) && NodeBelow(rs, x, top) && cell in todo
      && StageInv(rs, top, x, rows, Applying(adv, todo, ordered))
    ensures StageInv(rs, top, ApplyRow(rs, x, cell, todo[cell]), rows, Applying(adv, todo - {cell}, ordered))
  {
    ApplyRowGrows(rs, x, top, cell, todo[cell]);
    var y := ApplyRow(rs, x, cell, todo[cell]);
    if ordered {
      forall c | c in rows ensures Arrived(rs, todo - {cell}, c, rows[c]) || Arrived(rs, y, c, rows[c]) {
        if Arrived(rs, x, c, rows[c]) { ArrivedStays(rs, x, y, c, rows[c]); }
        else if c == cell {
          SameReference(rs, c, rows[c], todo[c]);
          BelowTransitive(rs, c, rows[c], todo[c], y[c]);
        }
      }
    }
  }

  /** What lies above a row refers to what it refers to. */
  lemma SameReference<R(!new)>(rs: Rules<R>, c: Cell, a: R, b: R)
    requires Lawful(rs) && rs.ok(c, a) && rs.ok(c, b)
    ensures rs.refers(c, a) == rs.refers(c, b)
  {
    if c.tier == A { SameCell(rs, c, a, b); }
  }

  lemma OneNodeGrows<R(!new)>(rs: Rules<R>, top: Node<R>, nodes: seq<Node<R>>, i: nat, y: Node<R>)
    requires Lawful(rs) && Bounded(rs, nodes, top) && i < |nodes|
    requires NodeBelow(rs, nodes[i], y) && NodeBelow(rs, y, top)
    ensures Grown(rs, nodes, nodes[i := y]) && Bounded(rs, nodes[i := y], top)
  {
    forall j | 0 <= j < |nodes| ensures NodeBelow(rs, nodes[j], nodes[i := y][j]) {
      BoundedIsOk(rs, nodes, top, j);
      if j != i { NodeBelowReflexive(rs, nodes[j]); }
    }
  }

  lemma ApplyKeepsInv<R(!new)>(rs: Rules<R>, init: seq<Node<R>>, top: Node<R>, w: World<R>, id: nat, cell: Cell)
    requires Lawful(rs) && Inv(rs, init, top, w) && Enabled(rs, w, Apply(id, cell))
    ensures Inv(rs, init, top, Step(rs, w, Apply(id, cell)))
    ensures Grown(rs, w.nodes, Step(rs, w, Apply(id, cell)).nodes)
  {
    var p := w.pulls[id];
    var todo, x := p.stage.todo, w.nodes[p.local];
    assert PullInv(rs, init, w.nodes, top, p);
    ApplyRowGrows(rs, x, top, cell, todo[cell]);
    var y := ApplyRow(rs, x, cell, todo[cell]);
    var ys := w.nodes[p.local := y];
    OneNodeGrows(rs, top, w.nodes, p.local, y);
    InvGrows(rs, init, top, w, ys);
    var s := p.stage.(todo := todo - {cell});
    ApplyKeepsStage(rs, top, x, p.stage.advertised, todo, p.stage.ordered,
                    Due(rs, init[p.peer], p.tier, p.table), cell);
    InvSetStage(rs, init, top, w.(nodes := ys), id, s);
    assert Step(rs, w, Apply(id, cell)) == SetStage(w.(nodes := ys), id, s);
  }

  lemma AllHaveCome<R(!new)>(rs: Rules<R>, x: Node<R>, rows: Node<R>)
    requires Coming(rs, x, map[], rows)
    ensures NodeBelow(rs, rows, x)
  {
    forall c | c in rows ensures c in x && Below(rs, c, rows[c], x[c]) {
      assert !Arrived(rs, map[], c, rows[c]);
    }
  }

  lemma EndPull<R(!new)>(rs: Rules<R>, init: seq<Node<R>>, top: Node<R>, w: World<R>, id: nat,
                         done: set<(nat, nat, Tier, string)>)
    requires Inv(rs, init, top, w) && forall d :: d in done ==> DoneInv(rs, init, w.nodes, d)
    ensures Inv(rs, init, top, w.(pulls := w.pulls - {id}, done := done))
  {
  }

  lemma FinishKeepsInv<R(!new)>(rs: Rules<R>, init: seq<Node<R>>, top: Node<R>, w: World<R>, id: nat)
    requires Lawful(rs) && Inv(rs, init, top, w) && Enabled(rs, w, Finish(id))
    ensures Inv(rs, init, top, Step(rs, w, Finish(id)))
  {
    var p := w.pulls[id];
    assert PullInv(rs, init, w.nodes, top, p);
    var done := (p.local, p.peer, p.tier, p.table);
    if p.stage.ordered {
      AllHaveCome(rs, w.nodes[p.local], Due(rs, init[p.peer], p.tier, p.table));
      assert DoneInv(rs, init, w.nodes, done);
    }
    EndPull(rs, init, top, w, id, if p.stage.ordered then w.done + {done} else w.done);
  }

  lemma StepKeepsInv<R(!new)>(rs: Rules<R>, init: seq<Node<R>>, top: Node<R>, w: World<R>, a: Action)
    requires Lawful(rs) && Inv(rs, init, top, w) && Enabled(rs, w, a)
    ensures Inv(rs, init, top, Step(rs, w, a))
    ensures Grown(rs, w.nodes, Step(rs, w, a).nodes)
  {
    forall i | 0 <= i < |w.nodes| ensures NodeBelow(rs, w.nodes[i], w.nodes[i]) {
      BoundedIsOk(rs, w.nodes, top, i);
      NodeBelowReflexive(rs, w.nodes[i]);
    }
    match a
    case Dial(_, _, _, _, _) => DialKeepsInv(rs, init, top, w, a);
    case ReadLocal(id) => ReadKeepsInv(rs, init, top, w, id);
    case AskBuckets(id) => AskKeepsInv(rs, init, top, w, id);
    case Reread(id) => RereadKeepsInv(rs, init, top, w, id);
    case MakePlan(id) => PlanKeepsInv(rs, init, top, w, id);
    case Fetch(id) => FetchKeepsInv(rs, init, top, w, id);
    case Apply(id, c) => ApplyKeepsInv(rs, init, top, w, id, c);
    case Finish(id) => FinishKeepsInv(rs, init, top, w, id);
    case Abandon(_) =>
  }

  lemma {:induction false} RunKeepsInv<R(!new)>(rs: Rules<R>, init: seq<Node<R>>, top: Node<R>, w: World<R>,
                                                schedule: seq<Action>)
    requires Lawful(rs) && Inv(rs, init, top, w)
    ensures Inv(rs, init, top, Run(rs, w, schedule))
    ensures Grown(rs, w.nodes, Run(rs, w, schedule).nodes)
  {
    if schedule == [] {
      forall i | 0 <= i < |w.nodes| ensures NodeBelow(rs, w.nodes[i], w.nodes[i]) {
        BoundedIsOk(rs, w.nodes, top, i);
        NodeBelowReflexive(rs, w.nodes[i]);
      }
    } else {
      var n := |schedule| - 1;
      RunKeepsInv(rs, init, top, w, schedule[..n]);
      var before := Run(rs, w, schedule[..n]);
      if Enabled(rs, before, schedule[n]) {
        StepKeepsInv(rs, init, top, before, schedule[n]);
        GrownTransitive(rs, w.nodes, before.nodes, Run(rs, w, schedule).nodes);
      }
    }
  }

  lemma StartInv<R(!new)>(rs: Rules<R>, init: seq<Node<R>>)
    requires Lawful(rs) && AllOk(rs, init)
    ensures Inv(rs, init, JoinAll(rs, init), Start(init))
  {
    forall i | 0 <= i < |init|
      ensures NodeBelow(rs, init[i], init[i]) && NodeBelow(rs, init[i], JoinAll(rs, init))
    {
      NodeBelowReflexive(rs, init[i]);
      JoinAllIsJoin(rs, init, i);
    }
  }

  lemma {:induction false} RunSplits<R(!new)>(rs: Rules<R>, w: World<R>, s: seq<Action>, t: seq<Action>)
    ensures Run(rs, w, s + t) == Run(rs, Run(rs, w, s), t)
    decreases |t|
  {
    if t == [] {
      assert s + t == s;
    } else {
      var n := |t| - 1;
      RunSplits(rs, w, s, t[..n]);
      assert (s + t)[..|s + t| - 1] == s + t[..n];
    }
  }

  // ----- the theorems -----

  /** Safety, on every schedule: between any two moments of a run no node loses a row or moves a
      row down, and no node ever holds anything above the join of what all nodes started with. */
  lemma NothingIsLostOrInvented<R(!new)>(rs: Rules<R>, init: seq<Node<R>>, s: seq<Action>, t: seq<Action>)
    requires Lawful(rs) && AllOk(rs, init)
    ensures Grown(rs, init, Run(rs, Start(init), s).nodes)
    ensures Grown(rs, Run(rs, Start(init), s).nodes, Run(rs, Start(init), s + t).nodes)
    ensures Bounded(rs, Run(rs, Start(init), s + t).nodes, JoinAll(rs, init))
  {
    var top := JoinAll(rs, init);
    StartInv(rs, init);
    RunKeepsInv(rs, init, top, Start(init), s);
    RunKeepsInv(rs, init, top, Run(rs, Start(init), s), t);
    RunSplits(rs, Start(init), s, t);
  }

  /** Node `i` has finished a pull of every table of every other node. */
  ghost predicate FullPass<R>(init: seq<Node<R>>, w: World<R>, i: nat) {
    forall j: nat, c {:trigger (i, j, c.tier, c.table) in w.done} ::
      j < |init| && j != i && c in init[j] ==> (i, j, c.tier, c.table) in w.done
  }

  ghost predicate AllClosed<R(!new)>(rs: Rules<R>, nodes: seq<Node<R>>) {
    forall i :: 0 <= i < |nodes| ==> Closed(rs, nodes[i])
  }

  /** Convergence, on every schedule: a node that has finished one full pass over its peers, each
      table after its parent, holds exactly the join of all initial states. No child is left
      behind: whoever started with it started with its parent too. */
  lemma FullPassConverges<R(!new)>(rs: Rules<R>, init: seq<Node<R>>, schedule: seq<Action>, i: nat)
    requires Lawful(rs) && AllOk(rs, init) && AllClosed(rs, init) && i < |init|
    requires FullPass(init, Run(rs, Start(init), schedule), i)
    ensures i < |Run(rs, Start(init), schedule).nodes|
    ensures Run(rs, Start(init), schedule).nodes[i] == JoinAll(rs, init)
  {
    var top, w := JoinAll(rs, init), Run(rs, Start(init), schedule);
    StartInv(rs, init);
    RunKeepsInv(rs, init, top, Start(init), schedule);
    forall j | 0 <= j < |init| ensures NodeBelow(rs, init[j], w.nodes[i]) {
      if j != i {
        forall c | c in init[j] ensures c in w.nodes[i] && Below(rs, c, init[j][c], w.nodes[i][c]) {
          assert DoneInv(rs, init, w.nodes, (i, j, c.tier, c.table));
          assert c in TableRows(init[j], c.tier, c.table);
        }
      }
    }
    JoinAllIsLeast(rs, init, w.nodes[i]);
    NodeBelowAntisymmetric(rs, w.nodes[i], top);
  }

  lemma ApplyKeepsClosed<R(!new)>(rs: Rules<R>, x: Node<R>, top: Node<R>, c: Cell, row: R)
    requires Lawful(rs) && NodeBelow(rs, x, top) && c in top && Below(rs, c, row, top[c]) && Closed(rs, x)
    ensures Closed(rs, ApplyRow(rs, x, c, row))
  {
    ApplyRowGrows(rs, x, top, c, row);
    var y := ApplyRow(rs, x, c, row);
    forall d | d in y && rs.refers(d, y[d]).Some? ensures rs.refers(d, y[d]).value in y {
      if d in x { SameReference(rs, d, x[d], y[d]); }
    }
  }

  lemma TodoIsBelow<R(!new)>(rs: Rules<R>, init: seq<Node<R>>, top: Node<R>, w: World<R>, id: nat)
    requires Inv(rs, init, top, w) && Flying(w, id) && w.pulls[id].stage.Applying?
    ensures NodeBelow(rs, w.pulls[id].stage.todo, top) && NodeBelow(rs, w.nodes[w.pulls[id].local], top)
  {
    assert PullInv(rs, init, w.nodes, top, w.pulls[id]);
  }

  lemma StepKeepsClosed<R(!new)>(rs: Rules<R>, init: seq<Node<R>>, top: Node<R>, w: World<R>, a: Action)
    requires Lawful(rs) && Inv(rs, init, top, w) && AllClosed(rs, w.nodes) && Enabled(rs, w, a)
    ensures AllClosed(rs, Step(rs, w, a).nodes)
  {
    if a.Apply? {
      var p := w.pulls[a.id];
      TodoIsBelow(rs, init, top, w, a.id);
      ApplyKeepsClosed(rs, w.nodes[p.local], top, a.cell, p.stage.todo[a.cell]);
    }
  }

  /** On every schedule, in order or not, no node ever holds a row without the row it refers to. */
  lemma {:induction false} NoRowDangles<R(!new)>(rs: Rules<R>, init: seq<Node<R>>, schedule: seq<Action>)
    requires Lawful(rs) && AllOk(rs, init) && AllClosed(rs, init)
    ensures AllClosed(rs, Run(rs, Start(init), schedule).nodes)
  {
    if schedule != [] {
      var n := |schedule| - 1;
      NoRowDangles(rs, init, schedule[..n]);
      StartInv(rs, init);
      RunKeepsInv(rs, init, JoinAll(rs, init), Start(init), schedule[..n]);
      var w := Run(rs, Start(init), schedule[..n]);
      if Enabled(rs, w, schedule[n]) {
        StepKeepsClosed(rs, init, JoinAll(rs, init), w, schedule[n]);
      }
    }
  }

  // ----- convergence stays within reach -----

  lemma RunOne<R(!new)>(rs: Rules<R>, w: World<R>, a: Action)
    requires Enabled(rs, w, a)
    ensures Run(rs, w, [a]) == Step(rs, w, a)
  {
    assert [a][..0] == [];
  }

  ghost predicate Draining<R>(w: World<R>, id: nat, local: nat, peer: nat, tier: Tier, table: string) {
    && Flying(w, id) && w.pulls[id].stage.Applying? && w.pulls[id].stage.ordered
    && w.pulls[id].local == local && w.pulls[id].peer == peer && w.pulls[id].tier == tier && w.pulls[id].table == table
  }

  lemma {:induction false} Drain<R(!new)>(rs: Rules<R>, w: World<R>, id: nat, local: nat, peer: nat, tier: Tier,
                                          table: string)
    returns (t: seq<Action>)
    requires Draining(w, id, local, peer, tier, table)
    ensures var w' := Run(rs, w, t);
      && (local, peer, tier, table) in w'.done && w.done <= w'.done && |w'.nodes| == |w.nodes|
    decreases w.pulls[id].stage.todo.Keys
  {
    var todo := w.pulls[id].stage.todo;
    if todo == map[] {
      t := [Finish(id)];
      RunOne(rs, w, Finish(id));
    } else {
      assert todo.Keys != {} by { assert todo.Keys == {} ==> todo == map[]; }
      var c :| c in todo;
      var w1 := Step(rs, w, Apply(id, c));
      RunOne(rs, w, Apply(id, c));
      assert w1.pulls[id].stage.todo.Keys == todo.Keys - {c};
      var rest := Drain(rs, w1, id, local, peer, tier, table);
      t := [Apply(id, c)] + rest;
      RunSplits(rs, w, [Apply(id, c)], rest);
    }
  }

  lemma FreshId(used: set<nat>) returns (id: nat)
    ensures id !in used
  {
    if used == {} { return 0; }
    var top := MaxOf(used);
    id := top + 1;
  }

  lemma {:induction false} MaxOf(used: set<nat>) returns (top: nat)
    requires used != {}
    ensures forall x :: x in used ==> x <= top
  {
    var y :| y in used;
    if used == {y} { return y; }
    assert used - {y} != {} by { assert used - {y} == {} ==> used == {y}; }
    var rest := MaxOf(used - {y});
    top := if y > rest then y else rest;
    forall x | x in used ensures x <= top {
      assert x == y || x in used - {y};
    }
  }

  /** A pull in order: the line of parents first. */
  lemma {:induction false} CanPull<R(!new)>(rs: Rules<R>, w: World<R>, local: nat, peer: nat, tier: Tier, table: string)
    returns (t: seq<Action>)
    requires Lawful(rs) && local < |w.nodes| && peer < |w.nodes|
    ensures var w' := Run(rs, w, t);
      && (local, peer, tier, table) in w'.done && w.done <= w'.done && |w'.nodes| == |w.nodes|
    decreases rs.rank(table)
  {
    if InOrder(rs, w, local, peer, tier, table) {
      t := CanPullNow(rs, w, local, peer, tier, table);
    } else {
      var first := CanPull(rs, w, local, peer, A, rs.parent(table).value);
      var w1 := Run(rs, w, first);
      var rest := CanPullNow(rs, w1, local, peer, tier, table);
      t := first + rest;
      RunSplits(rs, w, first, rest);
    }
  }

  lemma CanPullNow<R(!new)>(rs: Rules<R>, w: World<R>, local: nat, peer: nat, tier: Tier, table: string)
    returns (t: seq<Action>)
    requires local < |w.nodes| && peer < |w.nodes| && InOrder(rs, w, local, peer, tier, table)
    ensures var w' := Run(rs, w, t);
      && (local, peer, tier, table) in w'.done && w.done <= w'.done && |w'.nodes| == |w.nodes|
  {
    var id := FreshId(w.pulls.Keys);
    var dial := Dial(id, local, peer, tier, table);
    var w1 := Step(rs, w, dial);
    var w2 := Step(rs, w1, ReadLocal(id));
    RunOne(rs, w, dial);
    RunOne(rs, w1, ReadLocal(id));
    var rest := CanPlan(rs, w2, id, local, peer, tier, table);
    RunSplits(rs, w1, [ReadLocal(id)], rest);
    t := [dial] + ([ReadLocal(id)] + rest);
    RunSplits(rs, w, [dial], [ReadLocal(id)] + rest);
  }

  ghost predicate Going<R>(w: World<R>, id: nat, local: nat, peer: nat, tier: Tier, table: string) {
    && Flying(w, id)
    && w.pulls[id].local == local && w.pulls[id].peer == peer && w.pulls[id].tier == tier && w.pulls[id].table == table
  }

  lemma CanPlan<R(!new)>(rs: Rules<R>, w: World<R>, id: nat, local: nat, peer: nat, tier: Tier, table: string)
    returns (t: seq<Action>)
    requires Going(w, id, local, peer, tier, table) && w.pulls[id].stage.Read?
    requires InOrder(rs, w, local, peer, tier, table)
    ensures var w' := Run(rs, w, t);
      && (local, peer, tier, table) in w'.done && w.done <= w'.done && |w'.nodes| == |w.nodes|
  {
    if TakesWalk(rs, w.pulls[id]) {
      var w1 := Step(rs, w, AskBuckets(id));
      var w2 := Step(rs, w1, Reread(id));
      RunOne(rs, w, AskBuckets(id));
      RunOne(rs, w1, Reread(id));
      var rest := CanFetch(rs, w2, id, local, peer, tier, table);
      RunSplits(rs, w1, [Reread(id)], rest);
      t := [AskBuckets(id)] + ([Reread(id)] + rest);
      RunSplits(rs, w, [AskBuckets(id)], [Reread(id)] + rest);
    } else {
      t := CanFetch(rs, w, id, local, peer, tier, table);
    }
  }

  lemma CanFetch<R(!new)>(rs: Rules<R>, w: World<R>, id: nat, local: nat, peer: nat, tier: Tier, table: string)
    returns (t: seq<Action>)
    requires Going(w, id, local, peer, tier, table) && Enabled(rs, w, MakePlan(id))
    requires InOrder(rs, w, local, peer, tier, table)
    ensures var w' := Run(rs, w, t);
      && (local, peer, tier, table) in w'.done && w.done <= w'.done && |w'.nodes| == |w.nodes|
  {
    var w1 := Step(rs, w, MakePlan(id));
    var w2 := Step(rs, w1, Fetch(id));
    RunOne(rs, w, MakePlan(id));
    RunOne(rs, w1, Fetch(id));
    var rest := Drain(rs, w2, id, local, peer, tier, table);
    RunSplits(rs, w1, [Fetch(id)], rest);
    t := [MakePlan(id)] + ([Fetch(id)] + rest);
    RunSplits(rs, w, [MakePlan(id)], [Fetch(id)] + rest);
  }

  lemma {:induction false} CanPullAll<R(!new)>(rs: Rules<R>, w: World<R>, wanted: set<(nat, nat, Tier, string)>)
    returns (t: seq<Action>)
    requires Lawful(rs) && forall d :: d in wanted ==> d.0 < |w.nodes| && d.1 < |w.nodes|
    ensures wanted <= Run(rs, w, t).done
    decreases wanted
  {
    if wanted == {} { return []; }
    var d :| d in wanted;
    var first := CanPull(rs, w, d.0, d.1, d.2, d.3);
    var w1 := Run(rs, w, first);
    var rest := CanPullAll(rs, w1, wanted - {d});
    t := first + rest;
    RunSplits(rs, w, first, rest);
    DoneStays(rs, w1, rest);
    assert d == (d.0, d.1, d.2, d.3);
  }

  lemma {:induction false} DoneStays<R(!new)>(rs: Rules<R>, w: World<R>, schedule: seq<Action>)
    ensures w.done <= Run(rs, w, schedule).done
  {
    if schedule != [] {
      DoneStays(rs, w, schedule[..|schedule| - 1]);
    }
  }

  ghost function Upto(n: nat): (r: set<nat>)
    ensures forall i: nat :: i in r <==> i < n
  {
    if n == 0 then {} else Upto(n - 1) + {n - 1}
  }

  ghost function AllPulls<R>(init: seq<Node<R>>): set<(nat, nat, Tier, string)> {
    set i, j, c | i in Upto(|init|) && j in Upto(|init|) && c in init[j] :: (i, j, c.tier, c.table)
  }

  lemma AllPullsAreAFullPass<R>(init: seq<Node<R>>, w: World<R>, i: nat)
    requires AllPulls(init) <= w.done && i < |init|
    ensures FullPass(init, w, i)
  {
    forall j: nat, c | j < |init| && j != i && c in init[j] ensures (i, j, c.tier, c.table) in w.done {
      assert i in Upto(|init|) && j in Upto(|init|) && c in init[j];
      assert (i, j, c.tier, c.table) in AllPulls(init);
    }
  }

  /** Whatever schedule has run so far, some continuation brings every node to the join. */
  lemma ConvergenceStaysPossible<R(!new)>(rs: Rules<R>, init: seq<Node<R>>, sofar: seq<Action>) returns (t: seq<Action>)
    requires Lawful(rs) && AllOk(rs, init) && AllClosed(rs, init)
    ensures |Run(rs, Start(init), sofar + t).nodes| == |init|
    ensures forall i :: 0 <= i < |init| ==> Run(rs, Start(init), sofar + t).nodes[i] == JoinAll(rs, init)
  {
    var w := Run(rs, Start(init), sofar);
    NothingIsLostOrInvented(rs, init, sofar, []);
    t := CanPullAll(rs, w, AllPulls(init));
    RunSplits(rs, Start(init), sofar, t);
    NothingIsLostOrInvented(rs, init, sofar + t, []);
    forall i: nat | i < |init| ensures Run(rs, Start(init), sofar + t).nodes[i] == JoinAll(rs, init) {
      AllPullsAreAFullPass(init, Run(rs, Start(init), sofar + t), i);
      FullPassConverges(rs, init, sofar + t, i);
    }
  }

  // ----- one pull, undisturbed -----

  function Absorbed<R(!new)>(rs: Rules<R>, x: Node<R>, todo: Node<R>): Node<R> {
    map c | c in x.Keys + todo.Keys ::
      if c !in todo then x[c] else if c in x then rs.merge(c, x[c], todo[c]) else todo[c]
  }

  /** The fetched rows that do not fail for want of their parent. */
  function Landing<R(!new)>(rs: Rules<R>, x: Node<R>, todo: Node<R>): Node<R> {
    map c | c in todo && !Dangles(rs, x, c, todo[c]) :: todo[c]
  }

  /** No row of a table refers to another of the same table. */
  ghost predicate Layered<R(!new)>(rs: Rules<R>, rows: Node<R>, table: string) {
    forall c :: c in rows && c.table == table && rs.refers(c, rows[c]).Some? ==>
      rs.refers(c, rows[c]).value.table != table
  }

  function Applies(id: nat, cells: seq<Cell>): seq<Action> {
    if cells == [] then [] else Applies(id, cells[..|cells| - 1]) + [Apply(id, cells[|cells| - 1])]
  }

  function Those<R>(todo: Node<R>, cells: seq<Cell>): Node<R> {
    map c | c in todo && c in cells :: todo[c]
  }

  /** Two nodes and one pull of the first from the second. */
  function One<R>(x: Node<R>, y: Node<R>, tier: Tier, table: string, stage: Stage<R>): World<R> {
    World([x, y], map[0 := Pull(0, 1, tier, table, stage)], {})
  }

  /** Without a parent table a first pull is in order; with one it is not. */
  predicate First<R(!new)>(rs: Rules<R>, tier: Tier, table: string) {
    tier == B || rs.parent(table).None?
  }

  function Stored<R(!new)>(rs: Rules<R>, x: Node<R>, y: Node<R>, tier: Tier, table: string, adv: Node<R>,
                           todo: Node<R>): World<R> {
    One(x, y, tier, table, Applying(adv, todo, First(rs, tier, table)))
  }

  lemma StepApply<R(!new)>(rs: Rules<R>, x: Node<R>, y: Node<R>, tier: Tier, table: string, adv: Node<R>,
                           todo: Node<R>, c: Cell)
    requires c in todo
    ensures var w := Stored(rs, x, y, tier, table, adv, todo);
      && Enabled(rs, w, Apply(0, c))
      && Step(rs, w, Apply(0, c)) == Stored(rs, ApplyRow(rs, x, c, todo[c]), y, tier, table, adv, todo - {c})
  {
    var w, x' := Stored(rs, x, y, tier, table, adv, todo), ApplyRow(rs, x, c, todo[c]);
    var s := Applying(adv, todo - {c}, First(rs, tier, table));
    assert w.nodes[0 := x'] == [x', y];
    assert w.pulls[0 := Pull(0, 1, tier, table, s)] == map[0 := Pull(0, 1, tier, table, s)];
  }

  /** Applying the fetched rows, in whatever order, absorbs those that land. */
  lemma {:induction false} ApplyAll<R(!new)>(rs: Rules<R>, x: Node<R>, y: Node<R>, tier: Tier, table: string,
                                             adv: Node<R>, todo: Node<R>, cells: seq<Cell>)
    requires Distinct(cells) && forall c :: c in cells ==> c in todo
    requires Layered(rs, todo, table) && forall c :: c in todo ==> c.table == table
    ensures Run(rs, Stored(rs, x, y, tier, table, adv, todo), Applies(0, cells))
      == Stored(rs, Absorbed(rs, x, Landing(rs, x, Those(todo, cells))), y, tier, table, adv, Rest(todo, cells))
  {
    if cells == [] {
      assert Absorbed(rs, x, Landing(rs, x, Those(todo, cells))) == x && Rest(todo, cells) == todo;
    } else {
      var n := |cells| - 1;
      var w := Stored(rs, x, y, tier, table, adv, todo);
      assert forall c :: c in cells[..n] ==> c in cells;
      ApplyAll(rs, x, y, tier, table, adv, todo, cells[..n]);
      ApplyOneMore(rs, x, y, tier, table, adv, todo, cells);
      RunOneMore(rs, w, Applies(0, cells[..n]), Apply(0, cells[n]));
    }
  }

  lemma ApplyOneMore<R(!new)>(rs: Rules<R>, x: Node<R>, y: Node<R>, tier: Tier, table: string,
                              adv: Node<R>, todo: Node<R>, cells: seq<Cell>)
    requires cells != [] && Distinct(cells) && forall c :: c in cells ==> c in todo
    requires Layered(rs, todo, table) && forall c :: c in todo ==> c.table == table
    ensures var n := |cells| - 1;
      var before := Stored(rs, Absorbed(rs, x, Landing(rs, x, Those(todo, cells[..n]))), y, tier, table,
                           adv, Rest(todo, cells[..n]));
      && Enabled(rs, before, Apply(0, cells[n]))
      && Step(rs, before, Apply(0, cells[n]))
           == Stored(rs, Absorbed(rs, x, Landing(rs, x, Those(todo, cells))), y, tier, table, adv, Rest(todo, cells))
  {
    var n := |cells| - 1;
    RestOneLess(todo, cells);
    StepApply(rs, Absorbed(rs, x, Landing(rs, x, Those(todo, cells[..n]))), y, tier, table, adv, Rest(todo, cells[..n]),
              cells[n]);
    AbsorbOneMore(rs, x, todo, table, cells);
  }

  lemma RestOneLess<R>(todo: Node<R>, cells: seq<Cell>)
    requires cells != [] && Distinct(cells) && forall c :: c in cells ==> c in todo
    ensures var n := |cells| - 1; var c := cells[n];
      && c in Rest(todo, cells[..n]) && Rest(todo, cells[..n])[c] == todo[c]
      && Rest(todo, cells[..n]) - {c} == Rest(todo, cells)
  {
    var n := |cells| - 1;
    assert cells == cells[..n] + [cells[n]] && cells[n] !in cells[..n];
  }

  function Rest<R>(todo: Node<R>, cells: seq<Cell>): Node<R> {
    map c | c in todo && c !in cells :: todo[c]
  }

  lemma AbsorbOneMore<R(!new)>(rs: Rules<R>, x: Node<R>, todo: Node<R>, table: string, cells: seq<Cell>)
    requires cells != [] && Distinct(cells) && forall c :: c in cells ==> c in todo
    requires Layered(rs, todo, table) && forall c :: c in todo ==> c.table == table
    ensures var n := |cells| - 1; var c := cells[n];
      ApplyRow(rs, Absorbed(rs, x, Landing(rs, x, Those(todo, cells[..n]))), c, todo[c])
        == Absorbed(rs, x, Landing(rs, x, Those(todo, cells)))
  {
    var n := |cells| - 1;
    var c, sofar := cells[n], Landing(rs, x, Those(todo, cells[..n]));
    assert cells == cells[..n] + [c] && c !in cells[..n];
    assert c !in sofar;
    StillDangles(rs, x, sofar, todo, table, c);
    LandOneMore(rs, x, todo, cells[..n], c);
    if Dangles(rs, x, c, todo[c]) {
      assert Landing(rs, x, Those(todo, cells)) == sofar;
    } else {
      assert Landing(rs, x, Those(todo, cells)) == sofar[c := todo[c]];
      AbsorbAnother(rs, x, sofar, c, todo[c]);
    }
  }

  /** What has landed so far brings no parent of a row of the same table. */
  lemma StillDangles<R(!new)>(rs: Rules<R>, x: Node<R>, landed: Node<R>, todo: Node<R>, table: string, c: Cell)
    requires c in todo && c !in landed && Layered(rs, todo, table) && c.table == table
    requires forall d :: d in landed ==> d.table == table
    ensures Dangles(rs, Absorbed(rs, x, landed), c, todo[c]) <==> Dangles(rs, x, c, todo[c])
  {
  }

  lemma LandOneMore<R(!new)>(rs: Rules<R>, x: Node<R>, todo: Node<R>, cells: seq<Cell>, c: Cell)
    requires c in todo && c !in cells
    ensures Landing(rs, x, Those(todo, cells + [c])) ==
      var sofar := Landing(rs, x, Those(todo, cells)); if Dangles(rs, x, c, todo[c]) then sofar else sofar[c := todo[c]]
  {
  }

  lemma AbsorbAnother<R(!new)>(rs: Rules<R>, x: Node<R>, landed: Node<R>, c: Cell, row: R)
    requires c !in landed
    ensures Absorbed(rs, x, landed)[c := if c in x then rs.merge(c, x[c], row) else row]
      == Absorbed(rs, x, landed[c := row])
  {
  }

  lemma RunOneMore<R(!new)>(rs: Rules<R>, w: World<R>, s: seq<Action>, a: Action)
    requires Enabled(rs, Run(rs, w, s), a)
    ensures Run(rs, w, s + [a]) == Step(rs, Run(rs, w, s), a)
  {
    assert (s + [a])[..|s|] == s;
  }

  /** What the node wants of its peer when nothing moves in between. */
  ghost function WantAlone<R(!new)>(rs: Rules<R>, x: Node<R>, y: Node<R>, tier: Tier, table: string): set<Cell> {
    var mine, theirs := TableRows(x, tier, table), TableRows(y, tier, table);
    if tier == A && Versions(rs, mine) != Versions(rs, theirs) then WalkPlan(rs, mine, mine, theirs, theirs)
    else Plan(rs, mine, theirs, theirs)
  }

  predicate Differ<R(!new)>(rs: Rules<R>, x: Node<R>, y: Node<R>, tier: Tier, table: string) {
    tier == A && Versions(rs, TableRows(x, tier, table)) != Versions(rs, TableRows(y, tier, table))
  }

  /** The steps of one pull of one table up to its plan, and up to its fetch. */
  function Opening<R(!new)>(rs: Rules<R>, x: Node<R>, y: Node<R>, tier: Tier, table: string): seq<Action> {
    var s := [Dial(0, 0, 1, tier, table), ReadLocal(0)];
    if Differ(rs, x, y, tier, table) then s + [AskBuckets(0)] + [Reread(0)] else s
  }

  function Prelude<R(!new)>(rs: Rules<R>, x: Node<R>, y: Node<R>, tier: Tier, table: string): seq<Action> {
    Opening(rs, x, y, tier, table) + [MakePlan(0)] + [Fetch(0)]
  }

  lemma StepDial<R(!new)>(rs: Rules<R>, x: Node<R>, y: Node<R>, tier: Tier, table: string)
    ensures var a, w := Dial(0, 0, 1, tier, table), Start([x, y]);
      Enabled(rs, w, a) && Step(rs, w, a) == One(x, y, tier, table, Advertised(TableRows(y, tier, table)))
  {
  }

  /** What each of the next steps makes of the pull. */
  function Next<R>(x: Node<R>, y: Node<R>, tier: Tier, table: string, s: Stage<R>, want: set<Cell>,
                   first: bool): Stage<R> {
    match s
    case Advertised(adv) => Read(adv, TableRows(x, tier, table))
    case Read(adv, basis) => Bucketed(adv, basis, TableRows(y, tier, table))
    case Bucketed(adv, basis, theirs) => Compared(adv, basis, theirs, TableRows(x, tier, table))
    case Compared(adv, _, _, _) => Planned(adv, want)
    case Planned(adv, w) => Applying(adv, map c | c in w && c in y :: y[c], first)
    case Applying(_, _, _) => s
  }

  lemma StepOn<R(!new)>(rs: Rules<R>, x: Node<R>, y: Node<R>, tier: Tier, table: string, s: Stage<R>, a: Action)
    requires a in {ReadLocal(0), AskBuckets(0), Reread(0), Fetch(0)} && Enabled(rs, One(x, y, tier, table, s), a)
    ensures Step(rs, One(x, y, tier, table, s), a)
      == One(x, y, tier, table, Next(x, y, tier, table, s, {}, First(rs, tier, table)))
  {
    var t := Next(x, y, tier, table, s, {}, First(rs, tier, table));
    assert map[0 := Pull(0, 1, tier, table, s)][0 := Pull(0, 1, tier, table, t)]
      == map[0 := Pull(0, 1, tier, table, t)];
  }

  lemma StepPlan<R(!new)>(rs: Rules<R>, x: Node<R>, y: Node<R>, tier: Tier, table: string, s: Stage<R>)
    requires Enabled(rs, One(x, y, tier, table, s), MakePlan(0))
    ensures var p := Pull(0, 1, tier, table, s);
      Step(rs, One(x, y, tier, table, s), MakePlan(0)) ==
        One(x, y, tier, table, Planned(s.advertised, PlanOf(rs, p, TableRows(y, tier, table))))
  {
    var p := Pull(0, 1, tier, table, s);
    var t := Planned(s.advertised, PlanOf(rs, p, TableRows(y, tier, table)));
    assert map[0 := p][0 := p.(stage := t)] == map[0 := Pull(0, 1, tier, table, t)];
  }

  lemma PreludeReads<R(!new)>(rs: Rules<R>, x: Node<R>, y: Node<R>, tier: Tier, table: string)
    ensures Run(rs, Start([x, y]), [Dial(0, 0, 1, tier, table), ReadLocal(0)])
      == One(x, y, tier, table, Read(TableRows(y, tier, table), TableRows(x, tier, table)))
  {
    var w0 := Start([x, y]);
    StepDial(rs, x, y, tier, table);
    assert Run(rs, w0, []) == w0;
    RunOneMore(rs, w0, [], Dial(0, 0, 1, tier, table));
    assert [] + [Dial(0, 0, 1, tier, table)] == [Dial(0, 0, 1, tier, table)];
    StepOn(rs, x, y, tier, table, Advertised(TableRows(y, tier, table)), ReadLocal(0));
    RunOneMore(rs, w0, [Dial(0, 0, 1, tier, table)], ReadLocal(0));
    assert [Dial(0, 0, 1, tier, table)] + [ReadLocal(0)] == [Dial(0, 0, 1, tier, table), ReadLocal(0)];
  }

  lemma PreludePlans<R(!new)>(rs: Rules<R>, x: Node<R>, y: Node<R>, tier: Tier, table: string, s: seq<Action>,
                              stage: Stage<R>)
    requires Run(rs, Start([x, y]), s) == One(x, y, tier, table, stage)
    requires Enabled(rs, One(x, y, tier, table, stage), MakePlan(0))
    requires PlanOf(rs, Pull(0, 1, tier, table, stage), TableRows(y, tier, table)) == WantAlone(rs, x, y, tier, table)
    requires stage.advertised == TableRows(y, tier, table)
    ensures Run(rs, Start([x, y]), s + [MakePlan(0)] + [Fetch(0)]) ==
      Stored(rs, x, y, tier, table, TableRows(y, tier, table), WantedRows(rs, x, y, tier, table))
  {
    var w0, want := Start([x, y]), WantAlone(rs, x, y, tier, table);
    StepPlan(rs, x, y, tier, table, stage);
    RunOneMore(rs, w0, s, MakePlan(0));
    StepOn(rs, x, y, tier, table, Planned(TableRows(y, tier, table), want), Fetch(0));
    RunOneMore(rs, w0, s + [MakePlan(0)], Fetch(0));
  }

  lemma PreludeWalks<R(!new)>(rs: Rules<R>, x: Node<R>, y: Node<R>, table: string)
    requires Versions(rs, TableRows(x, A, table)) != Versions(rs, TableRows(y, A, table))
    ensures var mine, theirs := TableRows(x, A, table), TableRows(y, A, table);
      Run(rs, Start([x, y]), [Dial(0, 0, 1, A, table), ReadLocal(0)] + [AskBuckets(0)] + [Reread(0)])
        == One(x, y, A, table, Compared(theirs, mine, theirs, mine))
  {
    var mine, theirs, w0 := TableRows(x, A, table), TableRows(y, A, table), Start([x, y]);
    var s2 := [Dial(0, 0, 1, A, table), ReadLocal(0)];
    PreludeReads(rs, x, y, A, table);
    StepOn(rs, x, y, A, table, Read(theirs, mine), AskBuckets(0));
    RunOneMore(rs, w0, s2, AskBuckets(0));
    StepOn(rs, x, y, A, table, Bucketed(theirs, mine, theirs), Reread(0));
    RunOneMore(rs, w0, s2 + [AskBuckets(0)], Reread(0));
  }

  function Opened<R(!new)>(rs: Rules<R>, x: Node<R>, y: Node<R>, tier: Tier, table: string): Stage<R> {
    var mine, theirs := TableRows(x, tier, table), TableRows(y, tier, table);
    if Differ(rs, x, y, tier, table) then Compared(theirs, mine, theirs, mine) else Read(theirs, mine)
  }

  lemma OpeningReads<R(!new)>(rs: Rules<R>, x: Node<R>, y: Node<R>, tier: Tier, table: string)
    ensures Run(rs, Start([x, y]), Opening(rs, x, y, tier, table))
      == One(x, y, tier, table, Opened(rs, x, y, tier, table))
  {
    if Differ(rs, x, y, tier, table) {
      PreludeWalks(rs, x, y, table);
    } else {
      PreludeReads(rs, x, y, tier, table);
    }
  }

  lemma OpenedPlans<R(!new)>(rs: Rules<R>, x: Node<R>, y: Node<R>, tier: Tier, table: string)
    ensures var s := Opened(rs, x, y, tier, table);
      && Enabled(rs, One(x, y, tier, table, s), MakePlan(0))
      && PlanOf(rs, Pull(0, 1, tier, table, s), TableRows(y, tier, table)) == WantAlone(rs, x, y, tier, table)
  {
  }

  lemma PreludeFetches<R(!new)>(rs: Rules<R>, x: Node<R>, y: Node<R>, tier: Tier, table: string)
    ensures Run(rs, Start([x, y]), Prelude(rs, x, y, tier, table)) ==
      Stored(rs, x, y, tier, table, TableRows(y, tier, table), WantedRows(rs, x, y, tier, table))
  {
    OpeningReads(rs, x, y, tier, table);
    OpenedPlans(rs, x, y, tier, table);
    PreludePlans(rs, x, y, tier, table, Opening(rs, x, y, tier, table), Opened(rs, x, y, tier, table));
  }

  function DoneAfter<R(!new)>(rs: Rules<R>, tier: Tier, table: string): set<(nat, nat, Tier, string)> {
    if First(rs, tier, table) then {(0, 1, tier, table)} else {}
  }

  lemma StepFinish<R(!new)>(rs: Rules<R>, x: Node<R>, y: Node<R>, tier: Tier, table: string, adv: Node<R>)
    ensures var w := Stored(rs, x, y, tier, table, adv, map[]);
      Enabled(rs, w, Finish(0)) && Step(rs, w, Finish(0)) == World([x, y], map[], DoneAfter(rs, tier, table))
  {
    var w := Stored(rs, x, y, tier, table, adv, map[]);
    assert w.pulls - {0} == map[];
  }

  /** A pull that nothing disturbs ends, whatever the order of its applies, with the peer's wanted
      rows absorbed, those without their parent here excepted, and nothing else changed. */
  lemma PullAlone<R(!new)>(rs: Rules<R>, x: Node<R>, y: Node<R>, tier: Tier, table: string, cells: seq<Cell>)
    requires Distinct(cells) && Elements(cells) == WantAlone(rs, x, y, tier, table) && Layered(rs, y, table)
    ensures Run(rs, Start([x, y]), Whole(rs, x, y, tier, table, cells))
      == World([Absorbed(rs, x, Landing(rs, x, WantedRows(rs, x, y, tier, table))), y], map[],
               DoneAfter(rs, tier, table))
  {
    var todo, adv := WantedRows(rs, x, y, tier, table), TableRows(y, tier, table);
    var s := Prelude(rs, x, y, tier, table);
    PreludeFetches(rs, x, y, tier, table);
    WantedAreHeld(rs, x, y, tier, table);
    AllOfThem(todo, cells);
    ApplyAll(rs, x, y, tier, table, adv, todo, cells);
    RunSplits(rs, Start([x, y]), s, Applies(0, cells));
    StepFinish(rs, Absorbed(rs, x, Landing(rs, x, todo)), y, tier, table, adv);
    RunOneMore(rs, Start([x, y]), s + Applies(0, cells), Finish(0));
  }

  /** All the steps of one pull. */
  function Whole<R(!new)>(rs: Rules<R>, x: Node<R>, y: Node<R>, tier: Tier, table: string,
                          cells: seq<Cell>): seq<Action> {
    Prelude(rs, x, y, tier, table) + Applies(0, cells) + [Finish(0)]
  }

  /** Why the order is asked for: an empty node that pulls a child table and then its parent, both to
      the end, is left without any row of the child. */
  lemma ChildFirstStaysBehind<R(!new)>(rs: Rules<R>, y: Node<R>, child: string, parent: string, cs: seq<Cell>,
                                       ps: seq<Cell>)
    requires rs.parent(child) == Some(parent) && rs.parent(parent).None? && child != parent
    requires Layered(rs, y, child) && Layered(rs, y, parent)
    requires forall c :: c in TableRows(y, A, child) ==> rs.refers(c, y[c]).Some?
    requires Distinct(cs) && Elements(cs) == WantAlone(rs, map[], y, A, child)
    requires Distinct(ps) && Elements(ps) == WantAlone(rs, map[], y, A, parent)
    ensures var s := Whole(rs, map[], y, A, child, cs) + Whole(rs, map[], y, A, parent, ps);
      var w := Run(rs, Start([map[], y]), s);
      && |w.nodes| == 2 && w.nodes[1] == y && w.pulls == map[]
      && forall c :: c in w.nodes[0] ==> c.table == parent
  {
    var x: Node<R> := map[];
    PullAlone(rs, x, y, A, child, cs);
    PullAlone(rs, x, y, A, parent, ps);
    WantedAreHeld(rs, x, y, A, child);
    assert Landing(rs, x, WantedRows(rs, x, y, A, child)) == map[];
    assert Absorbed(rs, x, map[]) == x;
    RunSplits(rs, Start([x, y]), Whole(rs, x, y, A, child, cs), Whole(rs, x, y, A, parent, ps));
  }

  lemma AllOfThem<R>(todo: Node<R>, cells: seq<Cell>)
    requires Elements(cells) == todo.Keys
    ensures (forall c :: c in cells ==> c in todo) && Those(todo, cells) == todo && Rest(todo, cells) == map[]
  {
    forall c ensures c in cells <==> c in todo { assert c in Elements(cells) <==> c in cells; }
  }

  ghost function WantedRows<R(!new)>(rs: Rules<R>, x: Node<R>, y: Node<R>, tier: Tier, table: string): Node<R> {
    map c | c in WantAlone(rs, x, y, tier, table) && c in y :: y[c]
  }

  lemma WantedAreHeld<R(!new)>(rs: Rules<R>, x: Node<R>, y: Node<R>, tier: Tier, table: string)
    ensures WantedRows(rs, x, y, tier, table).Keys == WantAlone(rs, x, y, tier, table)
  {
  }

  /** Exactly the peer's rows of the table that are missing here or of another version, bucket walk or
      not; so a node that holds them all wants nothing. */
  lemma WantedExactly<R(!new)>(rs: Rules<R>, x: Node<R>, y: Node<R>, tier: Tier, table: string, c: Cell)
    ensures c in WantAlone(rs, x, y, tier, table) <==>
      && c in y && c.tier == tier && c.table == table
      && (c !in x || rs.version(c, x[c]) != rs.version(c, y[c]))
  {
    var mine, theirs := TableRows(x, tier, table), TableRows(y, tier, table);
    if c in theirs {
      assert InBucket(rs, theirs, c, rs.bucket(c, theirs[c]));
      if Versions(rs, mine) == Versions(rs, theirs) {
        EqualVersionsAgree(rs, mine, theirs, c);
      }
    }
  }

  lemma EqualVersionsAgree<R(!new)>(rs: Rules<R>, x: Node<R>, y: Node<R>, c: Cell)
    requires Versions(rs, x) == Versions(rs, y) && c in y
    ensures c in x && rs.version(c, x[c]) == rs.version(c, y[c])
  {
    assert c in Versions(rs, y) && c in Versions(rs, x);
    assert Versions(rs, y)[c] == rs.version(c, y[c]) && Versions(rs, x)[c] == rs.version(c, x[c]);
  }

  // ----- the directory's own rows -----

  datatype Row = Appended(content: string) | Suspended(suspension: Suspension) | Present(presence: Presence)

  /** The library functions the merges and the version summaries call; `column` reads the foreign
      key out of a row of a table. */
  datatype Library = Library(rank: Tie -> nat, num: string -> Option<real>, json: Presence -> string,
                             hash: Row -> string, bucket: string -> nat, column: (string, Row) -> Option<string>)

  ghost predicate Sound(lib: Library) {
    && (forall x, y :: lib.rank(x) == lib.rank(y) ==> x == y)
    && (forall x, y :: lib.json(x) == lib.json(y) ==> x == y)
    && (forall x, y :: lib.hash(x) == lib.hash(y) ==> x == y)
  }

  function MergeRow(lib: Library, c: Cell, a: Row, b: Row): Row {
    match (a, b)
    case (Suspended(x), Suspended(y)) => Suspended(MergeSuspension(lib.rank, x, y))
    case (Present(x), Present(y)) => Present(MergePresence(lib.num, lib.json, x, y))
    case _ => a
  }

  /** A row of the table its cell names, under its own key. */
  predicate Fits(c: Cell, r: Row) {
    match r
    case Appended(_) => c.tier == A
    case Suspended(s) => c.tier == B && c.table == "agent_suspensions" && s.agentId == c.key
    case Present(p) => c.tier == B && c.table == "agent_presence" && p.pubkey == c.key
  }

  /** The replicated tables with a foreign key to a replicated table. */
  function ParentTable(table: string): Option<string> {
    if table in {"agent_account_links", "account_email_stubs"} then Some("user_accounts")
    else if table in {"conversation_participation", "conversation_attestations"} then Some("conversation_seals")
    else None
  }

  function Refers(lib: Library, c: Cell, r: Row): Option<Cell> {
    if c.tier == A && ParentTable(c.table).Some? && lib.column(c.table, r).Some?
    then Some(Cell(A, ParentTable(c.table).value, lib.column(c.table, r).value))
    else None
  }

  function DirectoryRules(lib: Library, agreed: Cell -> Row): Rules<Row> {
    Rules((c, a, b) => MergeRow(lib, c, a, b), (c, r) => lib.hash(r), (c, r) => lib.bucket(lib.hash(r)),
          (c, r) => Fits(c, r) && (c.tier == A ==> r == agreed(c)),
          (c, r) => Refers(lib, c, r), t => ParentTable(t), t => if ParentTable(t).Some? then 1 else 0)
  }

  lemma DirectoryRulesAreLawful(lib: Library, agreed: Cell -> Row)
    requires Sound(lib)
    ensures Lawful(DirectoryRules(lib, agreed))
  {
    var rs := DirectoryRules(lib, agreed);
    forall c, a, b | rs.ok(c, a) && rs.ok(c, b)
      ensures rs.merge(c, a, b) == rs.merge(c, b, a) && rs.merge(c, a, a) == a && rs.ok(c, rs.merge(c, a, b))
    {
      MergeRowLaws(lib, c, a, b, b);
    }
    forall c, a, b, d | rs.ok(c, a) && rs.ok(c, b) && rs.ok(c, d)
      ensures rs.merge(c, rs.merge(c, a, b), d) == rs.merge(c, a, rs.merge(c, b, d))
    {
      MergeRowLaws(lib, c, a, b, d);
    }
  }

  lemma MergeRowLaws(lib: Library, c: Cell, a: Row, b: Row, d: Row)
    requires Sound(lib) && Fits(c, a) && Fits(c, b) && Fits(c, d) && (c.tier == A ==> a == b == d)
    ensures MergeRow(lib, c, a, b) == MergeRow(lib, c, b, a) && MergeRow(lib, c, a, a) == a
      && Fits(c, MergeRow(lib, c, a, b))
    ensures c.tier == A ==> MergeRow(lib, c, a, b) == a
    ensures MergeRow(lib, c, MergeRow(lib, c, a, b), d) == MergeRow(lib, c, a, MergeRow(lib, c, b, d))
  {
    match a
    case Appended(_) =>
    case Suspended(x) =>
      SuspensionCommutesExactly(lib.rank, x, b.suspension);
      SuspensionIdempotent(lib.rank, x);
      SuspensionAssociative(lib.rank, x, b.suspension, d.suspension);
    case Present(x) =>
      PresenceIsSemilattice(lib.num, lib.json, x, b.presence, d.presence);
  }

  ghost predicate WellTyped(init: seq<Node<Row>>) {
    forall i, c :: 0 <= i < |init| && c in init[i] ==> Fits(c, init[i][c])
  }

  /** No natural key of an append-only table carries two contents. */
  ghost predicate NoKeyConflicts(init: seq<Node<Row>>) {
    forall i, j, c: Cell :: 0 <= i < |init| && 0 <= j < |init| && c.tier == A && c in init[i] && c in init[j] ==>
        init[i][c] == init[j][c]
  }

  ghost function Agreed(init: seq<Node<Row>>): Cell -> Row {
    c => if exists i :: 0 <= i < |init| && c in init[i]
         then var i :| 0 <= i < |init| && c in init[i]; init[i][c]
         else Appended("")
  }

  lemma InitialRowsAreOk(lib: Library, init: seq<Node<Row>>)
    requires WellTyped(init) && NoKeyConflicts(init)
    ensures AllOk(DirectoryRules(lib, Agreed(init)), init)
  {
    var rs := DirectoryRules(lib, Agreed(init));
    forall i, c | 0 <= i < |init| && c in init[i] ensures rs.ok(c, init[i][c]) {}
  }

  /** Every node's database holds its foreign keys. */
  ghost predicate KeysHold(lib: Library, init: seq<Node<Row>>) {
    forall i, c :: 0 <= i < |init| && c in init[i] && Refers(lib, c, init[i][c]).Some? ==>
      Refers(lib, c, init[i][c]).value in init[i]
  }

  /** The theorem for the real tables: with the actual suspension and presence merges and the actual
      foreign keys, and no append-only key conflict, a node that completed a full pass with parents
      before children holds the join of all nodes. */
  lemma DirectoriesConverge(lib: Library, init: seq<Node<Row>>, schedule: seq<Action>, i: nat)
    requires Sound(lib) && WellTyped(init) && NoKeyConflicts(init) && KeysHold(lib, init) && i < |init|
    requires FullPass(init, Run(DirectoryRules(lib, Agreed(init)), Start(init), schedule), i)
    ensures var rs := DirectoryRules(lib, Agreed(init));
      i < |Run(rs, Start(init), schedule).nodes| && Run(rs, Start(init), schedule).nodes[i] == JoinAll(rs, init)
  {
    DirectoryRulesAreLawful(lib, Agreed(init));
    InitialRowsAreOk(lib, init);
    forall k | 0 <= k < |init| ensures Closed(DirectoryRules(lib, Agreed(init)), init[k]) {}
    FullPassConverges(DirectoryRules(lib, Agreed(init)), init, schedule, i);
  }

  /** A row held by node `j` at the start lies below node `i`'s once `i` has pulled its table. */
  lemma PulledRowsArrive<R(!new)>(rs: Rules<R>, init: seq<Node<R>>, schedule: seq<Action>, i: nat, j: nat, c: Cell)
    requires Lawful(rs) && AllOk(rs, init) && i < |init| && j < |init| && c in init[j]
    requires Grounded(rs, init[j], c.tier, c.table)
    requires i == j || (i, j, c.tier, c.table) in Run(rs, Start(init), schedule).done
    ensures var w := Run(rs, Start(init), schedule);
      i < |w.nodes| && Arrived(rs, w.nodes[i], c, init[j][c])
  {
    var w := Run(rs, Start(init), schedule);
    StartInv(rs, init);
    RunKeepsInv(rs, init, JoinAll(rs, init), Start(init), schedule);
    if i != j {
      assert DoneInv(rs, init, w.nodes, (i, j, c.tier, c.table));
      assert c in TableRows(init[j], c.tier, c.table);
    } else {
      assert NodeBelow(rs, init[i], w.nodes[i]);
    }
  }

  /** A burn anywhere reaches every node that has since pulled the suspensions of a node that
      held it, and is never undone by anything that happens in between or afterwards. */
  lemma BurnsSpread(lib: Library, init: seq<Node<Row>>, schedule: seq<Action>, i: nat, j: nat, c: Cell)
    requires Sound(lib) && WellTyped(init) && NoKeyConflicts(init) && i < |init| && j < |init|
    requires c in init[j] && init[j][c].Suspended? && init[j][c].suspension.burned
    requires i == j ||
      (i, j, B, "agent_suspensions") in Run(DirectoryRules(lib, Agreed(init)), Start(init), schedule).done
    ensures var w := Run(DirectoryRules(lib, Agreed(init)), Start(init), schedule);
      i < |w.nodes| && c in w.nodes[i] && w.nodes[i][c].Suspended? && w.nodes[i][c].suspension.burned
  {
    var rs := DirectoryRules(lib, Agreed(init));
    DirectoryRulesAreLawful(lib, Agreed(init));
    InitialRowsAreOk(lib, init);
    assert Fits(c, init[j][c]);
    PulledRowsArrive(rs, init, schedule, i, j, c);
    var w := Run(rs, Start(init), schedule);
    KillSwitchNeverLosesABurn(lib.rank, init[j][c].suspension, w.nodes[i][c].suspension);
  }
}
