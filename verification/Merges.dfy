/** The three Tier-B merges. Each picks a winning row under a total preorder and
    keeps its left argument on a tie; what differs is which columns travel with
    the winner. The tie-break hash, `Number()` and `JSON.stringify` are parameters. */
module Merges {
  import opened Ordering

  datatype Option<+T> = None | Some(value: T)

  // ----- agent_suspensions: the kill switch -----

  datatype Suspension = Suspension(
    agentId: string, paused: bool, burned: bool, reason: Option<string>,
    account: Option<string>, seqNo: int, origin: string)

  /** The columns the tie-break hash covers. */
  datatype Tie = Tie(agentId: string, reason: Option<string>, account: Option<string>, origin: string, seqNo: int)

  function TieOf(r: Suspension): Tie {
    Tie(r.agentId, r.reason, r.account, r.origin, r.seqNo)
  }

  /** `rank` is the tie-break hash read as a number. */
  function MergeSuspension(rank: Tie -> nat, a: Suspension, b: Suspension): Suspension {
    var burned := a.burned || b.burned;
    if a.seqNo != b.seqNo then
      var winner := if a.seqNo > b.seqNo then a else b;
      winner.(burned := burned)
    else
      var winner := if rank(TieOf(a)) >= rank(TieOf(b)) then a else b;
      Suspension(winner.agentId, a.paused || b.paused, burned, winner.reason, winner.account, winner.seqNo,
                 winner.origin)
  }

  /** Commutative exactly when two records that tie on sequence number and hash carry the
      same copied columns; a hash collision there is the one way the order could matter. */
  lemma SuspensionCommutesExactly(rank: Tie -> nat, a: Suspension, b: Suspension)
    ensures MergeSuspension(rank, a, b) == MergeSuspension(rank, b, a)
      <==> (a.seqNo == b.seqNo && rank(TieOf(a)) == rank(TieOf(b)) ==> TieOf(a) == TieOf(b))
  {
    var m, n := MergeSuspension(rank, a, b), MergeSuspension(rank, b, a);
    if a.seqNo == b.seqNo && rank(TieOf(a)) == rank(TieOf(b)) {
      assert TieOf(m) == TieOf(a) && TieOf(n) == TieOf(b);
      assert m.paused == n.paused && m.burned == n.burned;
    }
  }

  /** The merge column by column. */
  lemma MergedColumns(rank: Tie -> nat, a: Suspension, b: Suspension)
    ensures var m := MergeSuspension(rank, a, b);
      && m.burned == (a.burned || b.burned)
      && m.paused == (if a.seqNo > b.seqNo then a.paused
                      else if a.seqNo < b.seqNo then b.paused
                      else a.paused || b.paused)
      && TieOf(m) == (if a.seqNo > b.seqNo || (a.seqNo == b.seqNo && rank(TieOf(a)) >= rank(TieOf(b)))
                      then TieOf(a) else TieOf(b))
      && m.seqNo == TieOf(m).seqNo
  {
  }

  lemma SuspensionAssociative(rank: Tie -> nat, a: Suspension, b: Suspension, c: Suspension)
    ensures MergeSuspension(rank, MergeSuspension(rank, a, b), c)
      == MergeSuspension(rank, a, MergeSuspension(rank, b, c))
  {
    var ab, bc := MergeSuspension(rank, a, b), MergeSuspension(rank, b, c);
    MergedColumns(rank, a, b);
    MergedColumns(rank, b, c);
    MergedColumns(rank, ab, c);
    MergedColumns(rank, a, bc);
    var l, r := MergeSuspension(rank, ab, c), MergeSuspension(rank, a, bc);
    assert l.burned == r.burned && l.paused == r.paused && TieOf(l) == TieOf(r);
  }

  lemma SuspensionIdempotent(rank: Tie -> nat, a: Suspension)
    ensures MergeSuspension(rank, a, a) == a
  {
  }

  /** What the kill switch promises: no merge un-burns, a strictly newer write decides the
      pause, and among equally new writes suspended wins. */
  lemma KillSwitchNeverLosesABurn(rank: Tie -> nat, a: Suspension, b: Suspension)
    ensures var m := MergeSuspension(rank, a, b);
      && (m.burned <==> a.burned || b.burned)
      && (a.seqNo > b.seqNo ==> m.paused == a.paused && TieOf(m) == TieOf(a))
      && (a.seqNo < b.seqNo ==> m.paused == b.paused && TieOf(m) == TieOf(b))
      && (a.seqNo == b.seqNo ==> (m.paused <==> a.paused || b.paused) && TieOf(m) in {TieOf(a), TieOf(b)})
      && (a.seqNo == b.seqNo && rank(TieOf(a)) > rank(TieOf(b)) ==> TieOf(m) == TieOf(a))
      && (a.seqNo == b.seqNo && rank(TieOf(a)) < rank(TieOf(b)) ==> TieOf(m) == TieOf(b))
  {
  }

  // ----- last writer wins -----

  /** `Number(s)` where finite; a malformed timestamp is `None` and loses to every real one. */
  predicate ClockLe(x: Option<real>, y: Option<real>) {
    x.None? || (y.Some? && x.value <= y.value)
  }

  /** Later clock first, then the canonical text. */
  predicate StampLe(x: (Option<real>, string), y: (Option<real>, string)) {
    if x.0 != y.0 then ClockLe(x.0, y.0) else LexLe(x.1, y.1)
  }

  lemma StampIsTotalOrder()
    ensures TotalOrder(StampLe)
  {
    LexIsTotalOrder();
    forall x: (Option<real>, string), y: (Option<real>, string) ensures StampLe(x, y) || StampLe(y, x) {}
    forall x, y, z | StampLe(x, y) && StampLe(y, z) ensures StampLe(x, z) {
      if x.0 == y.0 && y.0 == z.0 {
        LexTransitive(x.1, y.1, z.1);
      }
    }
    forall x, y | StampLe(x, y) && StampLe(y, x) ensures x == y {
      if x.0 == y.0 {
        LexAntisymmetric(x.1, y.1);
      }
      assert x == (x.0, x.1) && y == (y.0, y.1);
    }
  }

  // ----- agent_presence -----

  datatype Presence = Presence(pubkey: string, online: bool, owner: string, lastSeen: string, updatedAt: string)

  function PresenceStamp(num: string -> Option<real>, json: Presence -> string, r: Presence): (Option<real>, string) {
    (num(r.updatedAt), json(r))
  }

  function MergePresence(num: string -> Option<real>, json: Presence -> string, a: Presence, b: Presence): Presence {
    var ta, tb := num(a.updatedAt), num(b.updatedAt);
    if ta != tb then (if ClockLe(tb, ta) then a else b)
    else if LexLe(json(b), json(a)) then a else b
  }

  lemma PresenceIsSemilattice(num: string -> Option<real>, json: Presence -> string, a: Presence, b: Presence,
                              c: Presence)
    requires forall x, y :: json(x) == json(y) ==> x == y
    ensures MergePresence(num, json, a, b) == MergePresence(num, json, b, a)
    ensures MergePresence(num, json, MergePresence(num, json, a, b), c)
      == MergePresence(num, json, a, MergePresence(num, json, b, c))
    ensures MergePresence(num, json, a, a) == a
  {
    StampIsTotalOrder();
    var sa, sb, sc := PresenceStamp(num, json, a), PresenceStamp(num, json, b), PresenceStamp(num, json, c);
    PresenceKeepsLater(num, json, a, b);
    PresenceKeepsLater(num, json, b, a);
    PresenceKeepsLater(num, json, b, c);
    PresenceKeepsLater(num, json, MergePresence(num, json, a, b), c);
    PresenceKeepsLater(num, json, a, MergePresence(num, json, b, c));
    assert LexLe(json(a), json(a)) by { LexTotal(json(a), json(a)); }
  }

  /** Which record wins, whichever side merges: the later clock; a real one over a malformed one; and
      between equal clocks the record whose text does not come first. */
  lemma LaterPresenceWins(num: string -> Option<real>, json: Presence -> string, a: Presence, b: Presence)
    ensures var x, y, m := num(a.updatedAt), num(b.updatedAt), MergePresence(num, json, a, b);
      && (x.Some? && y.Some? && x.value > y.value ==> m == a)
      && (x.Some? && y.Some? && y.value > x.value ==> m == b)
      && (x.Some? && y.None? ==> m == a) && (x.None? && y.Some? ==> m == b)
      && (x == y && TextBefore(json(a), json(b)) ==> m == b)
      && (x == y && TextBefore(json(b), json(a)) ==> m == a)
  {
    LargerTextIsLater(json(a), json(b));
  }

  lemma LargerTextIsLater(s: string, t: string)
    ensures TextBefore(s, t) ==> !LexLe(t, s)
    ensures TextBefore(t, s) ==> LexLe(t, s)
  {
    TextOrderIsStrict(s, t);
    TextOrderIsStrict(t, s);
  }

  lemma PresenceKeepsLater(num: string -> Option<real>, json: Presence -> string, a: Presence, b: Presence)
    ensures MergePresence(num, json, a, b)
      == if StampLe(PresenceStamp(num, json, b), PresenceStamp(num, json, a)) then a else b
  {
  }

  // ----- directory_nodes: the heartbeat and its status witness -----

  datatype Heartbeat = Heartbeat(nodeId: string, status: string, at: string)

  function HeartbeatStamp(num: string -> Option<real>, json: seq<string> -> string,
                          r: Heartbeat): (Option<real>, string) {
    (num(r.at), json([r.nodeId, r.at]))
  }

  function MergeHeartbeat(num: string -> Option<real>, json: seq<string> -> string, a: Heartbeat,
                          b: Heartbeat): Heartbeat {
    var ta, tb := num(a.at), num(b.at);
    if ta != tb then
      var winner := if ClockLe(tb, ta) then a else b;
      winner.(status := a.status)
    else
      var winner := if LexLe(json([b.nodeId, b.at]), json([a.nodeId, a.at])) then a else b;
      winner.(status := a.status)
  }

  predicate StillDivergent(local: Heartbeat, incoming: Heartbeat) {
    local.status != incoming.status
  }

  ghost predicate Unambiguous(json: seq<string> -> string) {
    forall x, y :: json(x) == json(y) ==> x == y
  }

  lemma HeartbeatKeepsLater(num: string -> Option<real>, json: seq<string> -> string, a: Heartbeat, b: Heartbeat)
    ensures var m := MergeHeartbeat(num, json, a, b);
      && m.status == a.status
      && m.at == (if StampLe(HeartbeatStamp(num, json, b), HeartbeatStamp(num, json, a)) then a else b).at
    ensures a.nodeId == b.nodeId ==> MergeHeartbeat(num, json, a, b).nodeId == a.nodeId
  {
  }

  /** The same of two heartbeats: the later instant stays, a malformed one never does, and of equally
      late ones the one whose canonical text does not come first. */
  lemma LaterHeartbeatWins(num: string -> Option<real>, json: seq<string> -> string, a: Heartbeat, b: Heartbeat)
    ensures var x, y, m := num(a.at), num(b.at), MergeHeartbeat(num, json, a, b);
      && (x.Some? && y.Some? && x.value > y.value ==> m.at == a.at)
      && (x.Some? && y.Some? && y.value > x.value ==> m.at == b.at)
      && (x.Some? && y.None? ==> m.at == a.at) && (x.None? && y.Some? ==> m.at == b.at)
      && (x == y && TextBefore(json([a.nodeId, a.at]), json([b.nodeId, b.at])) ==> m.at == b.at)
      && (x == y && TextBefore(json([b.nodeId, b.at]), json([a.nodeId, a.at])) ==> m.at == a.at)
      && m.status == a.status
  {
    LargerTextIsLater(json([a.nodeId, a.at]), json([b.nodeId, b.at]));
  }

  /** On one node id: associative, idempotent, absorbing, never moving the receiver's
      status, and agreeing on the timestamp whichever side merges; malformed timestamps
      included. Full commutativity holds exactly when the statuses agree. */
  lemma HeartbeatMergeLaws(num: string -> Option<real>, json: seq<string> -> string, a: Heartbeat, b: Heartbeat,
                           c: Heartbeat)
    requires Unambiguous(json)
    requires a.nodeId == b.nodeId == c.nodeId
    ensures MergeHeartbeat(num, json, MergeHeartbeat(num, json, a, b), c)
      == MergeHeartbeat(num, json, a, MergeHeartbeat(num, json, b, c))
    ensures MergeHeartbeat(num, json, a, a) == a
    ensures MergeHeartbeat(num, json, MergeHeartbeat(num, json, a, b), a) == MergeHeartbeat(num, json, a, b)
    ensures MergeHeartbeat(num, json, a, b).status == a.status
    ensures MergeHeartbeat(num, json, a, b).at == MergeHeartbeat(num, json, b, a).at
    ensures MergeHeartbeat(num, json, a, b) == MergeHeartbeat(num, json, b, a) <==> !StillDivergent(a, b)
  {
    StampIsTotalOrder();
    var ab, bc := MergeHeartbeat(num, json, a, b), MergeHeartbeat(num, json, b, c);
    HeartbeatKeepsLater(num, json, a, b);
    HeartbeatKeepsLater(num, json, b, a);
    HeartbeatKeepsLater(num, json, b, c);
    HeartbeatKeepsLater(num, json, ab, c);
    HeartbeatKeepsLater(num, json, a, bc);
    HeartbeatKeepsLater(num, json, ab, a);
    HeartbeatKeepsLater(num, json, a, a);
    var sa, sb, sc := HeartbeatStamp(num, json, a), HeartbeatStamp(num, json, b), HeartbeatStamp(num, json, c);
    assert HeartbeatStamp(num, json, ab) == if StampLe(sb, sa) then sa else sb;
    assert HeartbeatStamp(num, json, bc) == if StampLe(sc, sb) then sb else sc;
    if sa == sb {
      assert [a.nodeId, a.at] == [b.nodeId, b.at];
      assert [a.nodeId, a.at][1] == a.at && [b.nodeId, b.at][1] == b.at;
    }
  }
}
