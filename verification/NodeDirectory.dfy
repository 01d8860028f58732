/** Version summaries of mutable rows, and `directory_nodes`: the one table that is
    replicated by both tiers. Tier A inserts the identity of an unknown node, Tier B moves
    its heartbeat, and `status` is compared but written by neither. */
module NodeDirectory {
  import opened Ordering
  import opened Merges
  import opened Rows

  // ----- version summaries -----

  datatype VersionSpec = VersionSpec(table: string, key: seq<string>, versionColumns: seq<string>)

  const HEARTBEAT_SPEC := VersionSpec("directory_nodes", ["node_id"], ["node_id", "status", "last_heartbeat_at"])

  function Normalize(decimal: int -> string, v: Value): Value {
    match v
    case Undefined => Null
    case Flag(b) => Text(if b then "true" else "false")
    case Instant(t) => Text(decimal(t))
    case _ => v
  }

  function Fields(decimal: int -> string, columns: seq<string>, row: map<string, Value>): map<string, Value> {
    map c | c in columns :: Normalize(decimal, Column(row, c))
  }

  /** `encodeTierBVersion`: only the spec's columns reach the hash, in driver-independent form. */
  method EncodeVersion(decimal: int -> string, recordHash: (string, map<string, Value>) -> string,
                       spec: VersionSpec, row: map<string, Value>) returns (versionHash: string)
    ensures versionHash == recordHash(spec.table, Fields(decimal, spec.versionColumns, row))
  {
    var fields: map<string, Value> := map[];
    for i := 0 to |spec.versionColumns|
      invariant fields == Fields(decimal, spec.versionColumns[..i], row)
    {
      fields := fields[spec.versionColumns[i] := Normalize(decimal, Column(row, spec.versionColumns[i]))];
    }
    assert spec.versionColumns[..|spec.versionColumns|] == spec.versionColumns;
    versionHash := recordHash(spec.table, fields);
  }

  ghost predicate CollisionFree(recordHash: (string, map<string, Value>) -> string) {
    forall t, f, t', f' :: recordHash(t, f) == recordHash(t', f') ==> t == t' && f == f'
  }

  /** Two rows share a version exactly when they agree, after normalisation, on every
      version column; how a driver typed a value, and every other column, is invisible. */
  lemma VersionSeesExactlyItsColumns(decimal: int -> string, recordHash: (string, map<string, Value>) -> string,
                                     spec: VersionSpec, r: map<string, Value>, s: map<string, Value>)
    requires CollisionFree(recordHash)
    ensures recordHash(spec.table, Fields(decimal, spec.versionColumns, r))
         == recordHash(spec.table, Fields(decimal, spec.versionColumns, s))
      <==> forall c :: c in spec.versionColumns ==>
             Normalize(decimal, Column(r, c)) == Normalize(decimal, Column(s, c))
  {
    var f, g := Fields(decimal, spec.versionColumns, r), Fields(decimal, spec.versionColumns, s);
    if f == g {
      forall c | c in spec.versionColumns ensures Normalize(decimal, Column(r, c)) == Normalize(decimal, Column(s, c)) {
        assert f[c] == g[c];
      }
    }
  }

  /** How a driver types a value is invisible: an instant and its decimal text, a flag and its text,
      a null and a missing column give one version. */
  lemma DriversAgree(decimal: int -> string, recordHash: (string, map<string, Value>) -> string, spec: VersionSpec,
                     row: map<string, Value>, c: string, t: int, flag: bool)
    requires CollisionFree(recordHash) && c in spec.versionColumns
    ensures SameVersion(decimal, recordHash, spec, row[c := Instant(t)], row[c := Text(decimal(t))])
    ensures var text := if flag then "true" else "false";
      SameVersion(decimal, recordHash, spec, row[c := Flag(flag)], row[c := Text(text)])
    ensures SameVersion(decimal, recordHash, spec, row[c := Null], row - {c})
  {
    OneColumn(decimal, recordHash, spec, row, c, Instant(t), Text(decimal(t)));
    OneColumn(decimal, recordHash, spec, row, c, Flag(flag), Text(if flag then "true" else "false"));
    NullOrMissing(decimal, recordHash, spec, row, c);
  }

  /** But two texts, or a text and a null, do not. */
  lemma TextsTell(decimal: int -> string, recordHash: (string, map<string, Value>) -> string, spec: VersionSpec,
                  row: map<string, Value>, c: string, x: string, y: string)
    requires CollisionFree(recordHash) && c in spec.versionColumns
    ensures SameVersion(decimal, recordHash, spec, row[c := Text(x)], row[c := Text(y)]) <==> x == y
    ensures !SameVersion(decimal, recordHash, spec, row[c := Text(x)], row[c := Null])
  {
    OneColumn(decimal, recordHash, spec, row, c, Text(x), Text(y));
    OneColumn(decimal, recordHash, spec, row, c, Text(x), Null);
  }

  ghost predicate SameVersion(decimal: int -> string, recordHash: (string, map<string, Value>) -> string,
                              spec: VersionSpec, r: map<string, Value>, s: map<string, Value>) {
    recordHash(spec.table, Fields(decimal, spec.versionColumns, r))
      == recordHash(spec.table, Fields(decimal, spec.versionColumns, s))
  }

  lemma NullOrMissing(decimal: int -> string, recordHash: (string, map<string, Value>) -> string, spec: VersionSpec,
                      row: map<string, Value>, c: string)
    requires CollisionFree(recordHash)
    ensures SameVersion(decimal, recordHash, spec, row[c := Null], row - {c})
  {
    VersionSeesExactlyItsColumns(decimal, recordHash, spec, row[c := Null], row - {c});
  }

  lemma OneColumn(decimal: int -> string, recordHash: (string, map<string, Value>) -> string, spec: VersionSpec,
                  row: map<string, Value>, c: string, v: Value, w: Value)
    requires CollisionFree(recordHash) && c in spec.versionColumns
    ensures SameVersion(decimal, recordHash, spec, row[c := v], row[c := w])
      <==> Normalize(decimal, v) == Normalize(decimal, w)
  {
    VersionSeesExactlyItsColumns(decimal, recordHash, spec, row[c := v], row[c := w]);
  }

  // ----- the replicated directory table -----

  datatype NodeRow = NodeRow(region: string, status: string, at: string)
  type Directory = map<string, NodeRow>

  /** The library functions the table's code calls. */
  datatype Wiring = Wiring(num: string -> Option<real>, json: seq<string> -> string,
                           decimal: int -> string, recordHash: (string, map<string, Value>) -> string)

  ghost predicate Sound(w: Wiring) {
    Unambiguous(w.json) && CollisionFree(w.recordHash)
  }

  function Columns(id: string, r: NodeRow): map<string, Value> {
    map["node_id" := Text(id), "status" := Text(r.status), "last_heartbeat_at" := Text(r.at)]
  }

  function Version(w: Wiring, id: string, r: NodeRow): string {
    w.recordHash(HEARTBEAT_SPEC.table, Fields(w.decimal, HEARTBEAT_SPEC.versionColumns, Columns(id, r)))
  }

  function BeatOf(id: string, r: NodeRow): Heartbeat {
    Heartbeat(id, r.status, r.at)
  }

  lemma VersionIsExact(w: Wiring, id: string, r: NodeRow, s: NodeRow)
    requires Sound(w)
    ensures Version(w, id, r) == Version(w, id, s) <==> r.status == s.status && r.at == s.at
  {
    VersionSeesExactlyItsColumns(w.decimal, w.recordHash, HEARTBEAT_SPEC, Columns(id, r), Columns(id, s));
    var cs := HEARTBEAT_SPEC.versionColumns;
    assert cs[0] in cs && cs[1] in cs && cs[2] in cs;
    assert forall c :: c in cs ==> c == cs[0] || c == cs[1] || c == cs[2];
  }

  /** A row whose version the peer shares cannot be changed by merging the peer's copy. */
  lemma EqualVersionsLeaveTheRowAlone(w: Wiring, id: string, r: NodeRow, s: NodeRow)
    requires Sound(w) && Version(w, id, r) == Version(w, id, s)
    ensures MergeHeartbeat(w.num, w.json, BeatOf(id, r), BeatOf(id, s)) == BeatOf(id, r)
  {
    VersionIsExact(w, id, r, s);
    HeartbeatMergeLaws(w.num, w.json, BeatOf(id, r), BeatOf(id, r), BeatOf(id, r));
  }

  /** The ids whose Tier-B version differs here, fixed before anything is applied. */
  function Planned(w: Wiring, local: Directory, peer: Directory): set<string> {
    set id | id in peer && (id !in local || Version(w, id, local[id]) != Version(w, id, peer[id]))
  }

  /** Tier A: an unknown node is inserted with the column defaults; a known one is kept. */
  function AfterTierA(local: Directory, peer: Directory): Directory {
    map id | id in local.Keys + peer.Keys ::
      if id in local then local[id] else NodeRow(peer[id].region, "active", "0")
  }

  /** One whole round: Tier A, then the Tier-B merge of every planned id. */
  function Pull(w: Wiring, local: Directory, peer: Directory): Directory {
    var t := AfterTierA(local, peer);
    map id | id in t ::
      if id in Planned(w, local, peer)
      then t[id].(at := MergeHeartbeat(w.num, w.json, BeatOf(id, t[id]), BeatOf(id, peer[id])).at)
      else t[id]
  }

  /** The ids the round reports as an unsettled fork. */
  function Divergent(w: Wiring, local: Directory, peer: Directory): set<string> {
    var t := AfterTierA(local, peer);
    set id | id in Planned(w, local, peer) && StillDivergent(BeatOf(id, t[id]), BeatOf(id, peer[id]))
  }

  function Later(w: Wiring, id: string, x: string, y: string): string {
    MergeHeartbeat(w.num, w.json, Heartbeat(id, "", x), Heartbeat(id, "", y)).at
  }

  lemma LaterLaws(w: Wiring, id: string, x: string, y: string)
    requires Sound(w)
    ensures Later(w, id, x, y) == Later(w, id, y, x)
    ensures Later(w, id, x, x) == x
    ensures Later(w, id, Later(w, id, x, y), y) == Later(w, id, x, y)
    ensures Later(w, id, y, Later(w, id, x, y)) == Later(w, id, x, y)
    ensures Later(w, id, x, y) in {x, y}
  {
    var a, b := Heartbeat(id, "", x), Heartbeat(id, "", y);
    HeartbeatMergeLaws(w.num, w.json, a, b, b);
    HeartbeatMergeLaws(w.num, w.json, b, a, b);
    HeartbeatMergeLaws(w.num, w.json, a, a, a);
    HeartbeatMergeLaws(w.num, w.json, b, b, b);
    var m := MergeHeartbeat(w.num, w.json, a, b);
    assert m == Heartbeat(id, "", m.at);
  }

  /** What one pull does to every row, whether or not its id was planned. */
  lemma PullRow(w: Wiring, local: Directory, peer: Directory, id: string)
    requires Sound(w) && id in local.Keys + peer.Keys
    ensures id in Pull(w, local, peer)
    ensures var t := AfterTierA(local, peer)[id];
      Pull(w, local, peer)[id] == if id in peer then t.(at := Later(w, id, t.at, peer[id].at)) else t
  {
    var t := AfterTierA(local, peer)[id];
    if id in peer {
      HeartbeatKeepsLater(w.num, w.json, BeatOf(id, t), BeatOf(id, peer[id]));
      HeartbeatKeepsLater(w.num, w.json, Heartbeat(id, "", t.at), Heartbeat(id, "", peer[id].at));
      if id !in Planned(w, local, peer) {
        VersionIsExact(w, id, local[id], peer[id]);
        LaterLaws(w, id, t.at, t.at);
      }
    }
  }

  /** A pull, column by column: a known node keeps its region and status, a new one takes the peer's
      region and the status `active`; of two real instants the later stays, a malformed one of the
      peer's never replaces a real one, and a new node's row starts from zero. */
  lemma PullIs(w: Wiring, local: Directory, peer: Directory, id: string)
    requires Sound(w)
    ensures id in Pull(w, local, peer) <==> id in local || id in peer
    ensures id in local || id in peer ==>
      var r := Pull(w, local, peer)[id];
      var was := if id in local then local[id] else NodeRow(peer[id].region, "active", "0");
      && (r.region, r.status) == (was.region, was.status)
      && (id !in peer ==> r == was)
      && (id in peer ==>
            var x, y := w.num(was.at), w.num(peer[id].at);
            && (x.Some? && y.Some? && x.value > y.value ==> r.at == was.at)
            && (x.Some? && y.Some? && y.value > x.value ==> r.at == peer[id].at)
            && (x.Some? && y.None? ==> r.at == was.at) && (x.None? && y.Some? ==> r.at == peer[id].at))
  {
    if id in local || id in peer {
      PullRow(w, local, peer, id);
      if id in peer {
        LaterHeartbeatWins(w.num, w.json, Heartbeat(id, "", AfterTierA(local, peer)[id].at),
                           Heartbeat(id, "", peer[id].at));
      }
    }
  }

  ghost predicate SameHeartbeats(x: Directory, y: Directory) {
    x.Keys == y.Keys && forall id :: id in x ==> x[id].at == y[id].at
  }

  ghost function StatusForks(x: Directory, y: Directory): set<string>
    requires x.Keys == y.Keys
  {
    set id | id in x && x[id].status != y[id].status
  }

  /** Once the heartbeats agree nothing moves again, and a status disagreement is planned
      and reported, alone, by every round. */
  lemma SettledRound(w: Wiring, x: Directory, y: Directory)
    requires Sound(w) && SameHeartbeats(x, y)
    ensures Pull(w, x, y) == x
    ensures Planned(w, x, y) == Divergent(w, x, y) == StatusForks(x, y)
  {
    forall id | id in x ensures Pull(w, x, y)[id] == x[id] {
      PullRow(w, x, y, id);
      LaterLaws(w, id, x[id].at, x[id].at);
    }
    forall id | id in x ensures id in Planned(w, x, y) <==> x[id].status != y[id].status {
      VersionIsExact(w, id, x[id], y[id]);
    }
    assert AfterTierA(x, y) == x;
  }

  /** Two nodes pulling from each other along a schedule; `true` lets the first one pull. */
  function Exchange(w: Wiring, x: Directory, y: Directory, turns: seq<bool>): (Directory, Directory)
    decreases turns
  {
    if turns == [] then (x, y)
    else if turns[0] then Exchange(w, Pull(w, x, y), y, turns[1..])
    else Exchange(w, x, Pull(w, y, x), turns[1..])
  }

  lemma {:induction false} SettledForever(w: Wiring, x: Directory, y: Directory, turns: seq<bool>)
    requires Sound(w) && SameHeartbeats(x, y)
    ensures Exchange(w, x, y, turns) == (x, y)
    ensures Planned(w, x, y) == Divergent(w, x, y) == Planned(w, y, x) == Divergent(w, y, x) == StatusForks(x, y)
  {
    SettledRound(w, x, y);
    SettledRound(w, y, x);
    assert StatusForks(x, y) == StatusForks(y, x);
    if turns != [] {
      SettledForever(w, x, y, turns[1..]);
    }
  }

  lemma PullKeys(w: Wiring, x: Directory, y: Directory)
    ensures Pull(w, x, y).Keys == x.Keys + y.Keys
  {
  }

  /** One row across a pull in each direction: `x'`, then `y'`. */
  lemma RowAcrossTwoPulls(w: Wiring, x: Directory, y: Directory, x': Directory, y': Directory, id: string)
    requires Sound(w) && id in x.Keys + y.Keys
    requires x' == Pull(w, x, y) && y' == Pull(w, y, x')
    ensures id in x' && id in y'
    ensures id in x && id !in y ==> x'[id].at == x[id].at && y'[id].at == Later(w, id, "0", x[id].at)
    ensures !(id in x && id !in y) ==> y'[id].at == x'[id].at
  {
    PullRow(w, x, y, id);
    PullRow(w, y, x', id);
    if id in y {
      LaterLaws(w, id, if id in x then x[id].at else "0", y[id].at);
    }
  }

  lemma RowAfterThirdPull(w: Wiring, x': Directory, y': Directory, id: string, z: string)
    requires Sound(w) && id in x' && id in y'
    requires y'[id].at == x'[id].at || y'[id].at == Later(w, id, z, x'[id].at)
    ensures id in Pull(w, x', y') && Pull(w, x', y')[id].at == y'[id].at
  {
    PullRow(w, x', y', id);
    LaterLaws(w, id, x'[id].at, x'[id].at);
    LaterLaws(w, id, z, x'[id].at);
    LaterLaws(w, id, x'[id].at, z);
  }

  ghost predicate NoEarlyRow(w: Wiring, x: Directory, y: Directory, id: string) {
    id in x && id !in y ==> Later(w, id, "0", x[id].at) == x[id].at
  }

  lemma RowSettlesExactly(w: Wiring, x: Directory, y: Directory, x': Directory, y': Directory, id: string)
    requires Sound(w) && id in x.Keys + y.Keys
    requires x' == Pull(w, x, y) && y' == Pull(w, y, x')
    ensures id in x' && id in y' && (x'[id].at == y'[id].at <==> NoEarlyRow(w, x, y, id))
  {
    RowAcrossTwoPulls(w, x, y, x', y', id);
  }

  lemma KeysAcrossPulls(w: Wiring, x: Directory, y: Directory, x': Directory, y': Directory)
    requires x' == Pull(w, x, y) && y' == Pull(w, y, x')
    ensures x'.Keys == y'.Keys == x.Keys + y.Keys
  {
    PullKeys(w, x, y);
    PullKeys(w, y, x');
  }

  ghost predicate AgreeExactly(x': Directory, y': Directory, ids: set<string>, good: string -> bool)
    requires x'.Keys == y'.Keys == ids
  {
    forall id :: id in ids ==> (x'[id].at == y'[id].at <==> good(id))
  }

  lemma AgreeingRows(x': Directory, y': Directory, ids: set<string>, good: string -> bool)
    requires x'.Keys == y'.Keys == ids && AgreeExactly(x', y', ids, good)
    requires forall id :: id !in ids ==> good(id)
    ensures SameHeartbeats(x', y') <==> forall id :: good(id)
  {
    if SameHeartbeats(x', y') {
      forall id ensures good(id) {
        if id in ids { assert x'[id].at == y'[id].at; }
      }
    }
  }

  /** A pull in each direction settles the heartbeats exactly when no row known to the first
      node alone carries a timestamp below the column default. */
  lemma TwoPullsSettleExactly(w: Wiring, x: Directory, y: Directory, x': Directory, y': Directory)
    requires Sound(w)
    requires x' == Pull(w, x, y) && y' == Pull(w, y, x')
    ensures SameHeartbeats(x', y') <==> forall id :: NoEarlyRow(w, x, y, id)
  {
    KeysAcrossPulls(w, x, y, x', y');
    var good := id => NoEarlyRow(w, x, y, id);
    forall id | id in x.Keys + y.Keys ensures x'[id].at == y'[id].at <==> good(id) {
      RowSettlesExactly(w, x, y, x', y', id);
    }
    AgreeingRows(x', y', x.Keys + y.Keys, good);
    assert (forall id :: good(id)) <==> forall id :: NoEarlyRow(w, x, y, id);
  }

  /** What a pull in each direction leaves: timestamps that agree or are one default apart. */
  ghost predicate NearlySettled(w: Wiring, x: Directory, y: Directory) {
    && x.Keys == y.Keys
    && forall id :: id in x ==> y[id].at == x[id].at || y[id].at == Later(w, id, "0", x[id].at)
  }

  lemma TwoPullsNearlySettle(w: Wiring, x: Directory, y: Directory, x': Directory, y': Directory)
    requires Sound(w)
    requires x' == Pull(w, x, y) && y' == Pull(w, y, x')
    ensures NearlySettled(w, x', y')
  {
    KeysAcrossPulls(w, x, y, x', y');
    forall id | id in x' ensures y'[id].at == x'[id].at || y'[id].at == Later(w, id, "0", x'[id].at) {
      RowAcrossTwoPulls(w, x, y, x', y', id);
    }
  }

  lemma ThirdPullSettles(w: Wiring, x: Directory, y: Directory)
    requires Sound(w) && NearlySettled(w, x, y)
    ensures SameHeartbeats(Pull(w, x, y), y)
  {
    PullKeys(w, x, y);
    forall id | id in x ensures Pull(w, x, y)[id].at == y[id].at {
      RowAfterThirdPull(w, x, y, id, "0");
    }
  }

  /** One more pull always settles them, whatever the timestamps. */
  lemma ThreePullsSettle(w: Wiring, x: Directory, y: Directory, x': Directory, y': Directory)
    requires Sound(w)
    requires x' == Pull(w, x, y) && y' == Pull(w, y, x')
    ensures SameHeartbeats(Pull(w, x', y'), y')
  {
    TwoPullsNearlySettle(w, x, y, x', y');
    ThirdPullSettles(w, x', y');
  }

  /** The failing family is not empty: a node known to the first side alone, with a heartbeat
      before 1970, is one pull short. The column can hold such an instant, but no writer of the
      system produces it: a node's own heartbeat is written as the present time. */
  lemma TwoPullsMayNotSettle(w: Wiring, id: string, region: string)
    requires Sound(w) && w.num("-1") == Some(-1.0) && w.num("0") == Some(0.0)
    ensures var x: Directory := map[id := NodeRow(region, "active", "-1")];
      var x' := Pull(w, x, map[]); var y' := Pull(w, map[], x');
      !SameHeartbeats(x', y') && SameHeartbeats(Pull(w, x', y'), y')
  {
    var x: Directory := map[id := NodeRow(region, "active", "-1")];
    var y: Directory := map[];
    var x' := Pull(w, x, y);
    var y' := Pull(w, y, x');
    assert Later(w, id, "0", "-1") == "0";
    assert !NoEarlyRow(w, x, y, id);
    TwoPullsSettleExactly(w, x, y, x', y');
    ThreePullsSettle(w, x, y, x', y');
  }
}
