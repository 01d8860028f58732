/** Checkpoint cross-signing: the canonical batch order, who coordinates, and a round that
    collects signatures from peers answering concurrently. */
module Checkpoint {
  import opened Ordering
  import opened Merges

  // ----- the canonical batch order -----

  datatype SealRow = SealRow(stagingId: string, conversationId: string, recordedAt: int)

  predicate RowLe(a: SealRow, b: SealRow) {
    a.recordedAt < b.recordedAt || (a.recordedAt == b.recordedAt && LexLe(a.conversationId, b.conversationId))
  }

  function SortSealBatch(batch: seq<SealRow>): seq<SealRow> {
    Sort(RowLe, batch)
  }

  ghost predicate DistinctKeys(batch: seq<SealRow>) {
    forall a, b :: a in batch && b in batch ==>
      ((a.recordedAt, a.conversationId) == (b.recordedAt, b.conversationId) ==> a == b)
  }

  lemma RowLeIsPreorder()
    ensures TotalPreorder(RowLe)
  {
    forall a: SealRow, b: SealRow ensures RowLe(a, b) || RowLe(b, a) { LexTotal(a.conversationId, b.conversationId); }
    forall a, b, c | RowLe(a, b) && RowLe(b, c) ensures RowLe(a, c) {
      if a.recordedAt == b.recordedAt == c.recordedAt {
        LexTransitive(a.conversationId, b.conversationId, c.conversationId);
      }
    }
  }

  /** Earlier rows first, and of rows recorded at one time the one of the smaller conversation id. */
  ghost predicate InTimeOrder(s: seq<SealRow>) {
    forall i, j :: 0 <= i < j < |s| ==>
      s[i].recordedAt < s[j].recordedAt
      || (s[i].recordedAt == s[j].recordedAt && !TextBefore(s[j].conversationId, s[i].conversationId))
  }

  /** The result is a permutation in time order, and every node that reads the same rows, in
      whatever order, builds the same sequence. */
  lemma BatchOrderIsCanonical(batch: seq<SealRow>, other: seq<SealRow>)
    requires multiset(batch) == multiset(other) && DistinctKeys(batch)
    ensures multiset(SortSealBatch(batch)) == multiset(batch) && InTimeOrder(SortSealBatch(batch))
    ensures SortSealBatch(batch) == SortSealBatch(other)
  {
    var s, t := SortSealBatch(batch), SortSealBatch(other);
    RowLeIsPreorder();
    SortIsPermutation(RowLe, batch);
    SortIsPermutation(RowLe, other);
    SortIsSorted(RowLe, batch);
    SortIsSorted(RowLe, other);
    forall a, b | a in s && b in s && RowLe(a, b) && RowLe(b, a) ensures a == b {
      assert a in multiset(batch) && b in multiset(batch);
      LexAntisymmetric(a.conversationId, b.conversationId);
    }
    SortedArrangementIsUnique(RowLe, s, t);
    forall i, j | 0 <= i < j < |s| && s[i].recordedAt == s[j].recordedAt
      ensures !TextBefore(s[j].conversationId, s[i].conversationId)
    {
      assert RowLe(s[i], s[j]);
      TextOrderIsStrict(s[j].conversationId, s[i].conversationId);
    }
  }

  // ----- who coordinates -----

  /** `runRound` up to its early return; `recent` says a checkpoint appeared within the
      failover window. */
  function Coordinates(le: (string, string) -> bool, self: string, peers: seq<string>, recent: bool): bool {
    var all := Sort(le, peers + [self]);
    SortIsPermutation(le, peers + [self]);
    assert |all| == |multiset(all)| == |peers| + 1;
    if recent then all[0] == self
    else if self == all[0] then true
    else
      var available := Sort(le, Excluding(peers, all[0]) + [self]);
      SortIsPermutation(le, Excluding(peers, all[0]) + [self]);
      assert |available| == |multiset(available)| > 0;
      available[0] == self
  }

  function Excluding(s: seq<string>, x: string): seq<string> {
    if s == [] then []
    else if s[|s| - 1] == x then Excluding(s[..|s| - 1], x)
    else Excluding(s[..|s| - 1], x) + [s[|s| - 1]]
  }

  lemma {:induction false} ExcludingElements(s: seq<string>, x: string)
    ensures forall y :: y in Excluding(s, x) <==> y in s && y != x
  {
    if s != [] {
      ExcludingElements(s[..|s| - 1], x);
      assert s == s[..|s| - 1] + [s[|s| - 1]];
    }
  }

  ghost predicate IsLeast(le: (string, string) -> bool, x: string, nodes: set<string>) {
    x in nodes && forall y :: y in nodes ==> le(x, y)
  }

  lemma SortStartsLeast(le: (string, string) -> bool, s: seq<string>)
    requires TotalOrder(le) && s != []
    ensures Sort(le, s) != [] && IsLeast(le, Sort(le, s)[0], Elements(s))
  {
    var t := Sort(le, s);
    SortIsPermutation(le, s);
    SortIsSorted(le, s);
    assert |t| == |multiset(t)| == |s|;
    forall y | y in Elements(s) ensures le(t[0], y) {
      assert y in multiset(t);
      var j :| 0 <= j < |t| && t[j] == y;
    }
    assert t[0] in multiset(s);
  }

  /** With a shared view of the membership exactly the lowest id coordinates inside the
      failover window, and exactly the two lowest after it. */
  lemma CoordinatorsAreTheLowest(le: (string, string) -> bool, nodes: set<string>, self: string, peers: seq<string>)
    requires TotalOrder(le) && self in nodes && Elements(peers) == nodes - {self}
    ensures Coordinates(le, self, peers, true) <==> IsLeast(le, self, nodes)
    ensures Coordinates(le, self, peers, false) <==>
      IsLeast(le, self, nodes) || exists first :: IsLeast(le, first, nodes) && IsLeast(le, self, nodes - {first})
  {
    SortStartsLeast(le, peers + [self]);
    forall y ensures y in peers + [self] <==> y in nodes {
      assert y in peers <==> y in Elements(peers);
    }
    assert Elements(peers + [self]) == nodes;
    var first := Sort(le, peers + [self])[0];
    assert forall y :: IsLeast(le, y, nodes) ==> y == first;
    if first != self {
      ExcludingElements(peers, first);
      var rest := Excluding(peers, first) + [self];
      SortStartsLeast(le, rest);
      forall y ensures y in Elements(rest) <==> y in nodes - {first} {
        assert y in peers <==> y in Elements(peers);
      }
      assert Elements(rest) == nodes - {first};
      assert IsLeast(le, self, nodes - {first}) ==> Sort(le, rest)[0] == self;
    }
  }

  // ----- the signing round -----

  /** What the MMR store holds: the checkpoint commits to both. */
  datatype MmrState = MmrState(peaks: seq<string>, identityRoot: string)
  datatype Proposal = Proposal(id: string, hash: string)

  /** A peer's side, `verifyAndSign`: the bytes it signs, from its own state alone. */
  function VerifyAndSign(tbs: (MmrState, string) -> string, hex: string -> string, local: MmrState,
                         p: Proposal): Option<string> {
    if hex(tbs(local, p.id)) != p.hash then None else Some(tbs(local, p.id))
  }

  datatype Reply = Reply(nodeId: string, signature: string, publicKey: Option<string>)
  datatype Entry = Entry(nodeId: string, signature: string, publicKey: string)

  /** What survives a crash. */
  datatype Store = Store(checkpoint: bool, signatures: seq<Entry>, staging: set<string>)

  datatype Phase = Collecting | Writing | Done | Skipped
  datatype Round = Round(self: string, peers: seq<string>, threshold: nat, bytes: string, batch: set<string>,
                         waiting: set<nat>, seen: set<string>, collected: seq<Entry>, phase: Phase, store: Store)

  type Verify = (string, string, string) -> bool

  /** The coordinator signs first; a collector starts for every peer not already seen. */
  function Begin(self: string, key: string, signature: string, peers: seq<string>, threshold: nat, bytes: string,
                 batch: set<string>, staging: set<string>): Round
  {
    Round(self, peers, threshold, bytes, batch, set i | 0 <= i < |peers| && peers[i] != self,
          {self}, [Entry(self, signature, key)], Collecting, Store(false, [], staging))
  }

  /** One collector's turn after its peer answered (or did not). */
  function Receive(verify: Verify, r: Round, i: nat, reply: Option<Reply>): Round
    requires i < |r.peers|
  {
    var r := r.(waiting := r.waiting - {i});
    if reply.None? then r
    else
      var a := reply.value;
      if a.nodeId != r.peers[i] || a.nodeId in r.seen then r
      else if a.publicKey.None? || a.publicKey.value == "" then r
      else if !verify(a.publicKey.value, r.bytes, a.signature) then r
      else r.(seen := r.seen + {a.nodeId}, collected := r.collected + [Entry(a.nodeId, a.signature, a.publicKey.value)])
  }

  datatype Action =
    | Answer(peer: nat, reply: Option<Reply>)
    | Decide
    | WriteCheckpoint
    | WriteSignature
    | Clear
    | Stage(rows: set<string>)

  predicate Enabled(r: Round, a: Action) {
    match a
    case Answer(i, _) => r.phase == Collecting && i in r.waiting && i < |r.peers|
    case Decide => r.phase == Collecting && r.waiting == {}
    case WriteCheckpoint => r.phase == Writing && !r.store.checkpoint
    case WriteSignature => r.phase == Writing && r.store.checkpoint && |r.store.signatures| < |r.collected|
    case Clear => r.phase == Writing && r.store.checkpoint && |r.store.signatures| == |r.collected|
    case Stage(_) => true
  }

  function Step(verify: Verify, r: Round, a: Action): Round
    requires Enabled(r, a)
  {
    match a
    case Answer(i, reply) => Receive(verify, r, i, reply)
    case Decide => r.(phase := if |r.collected| < r.threshold then Skipped else Writing)
    case WriteCheckpoint => r.(store := r.store.(checkpoint := true))
    case WriteSignature =>
      var n := |r.store.signatures|;
      r.(store := r.store.(signatures := r.store.signatures + [r.collected[n]]))
    case Clear => r.(phase := Done, store := r.store.(staging := r.store.staging - r.batch))
    case Stage(rows) => r.(store := r.store.(staging := r.store.staging + rows))
  }

  /** Pairwise distinct nodes, each signature valid over the round's bytes. */
  ghost predicate Quorum(verify: Verify, r: Round, entries: seq<Entry>) {
    && (forall i, j :: 0 <= i < j < |entries| ==> entries[i].nodeId != entries[j].nodeId)
    && (forall e :: e in entries ==> verify(e.publicKey, r.bytes, e.signature))
    && (forall e :: e in entries ==> e.nodeId == r.self || e.nodeId in r.peers)
  }

  ghost predicate Inv(verify: Verify, r: Round) {
    && Quorum(verify, r, r.collected)
    && (forall e :: e in r.collected ==> e.nodeId in r.seen)
    && r.store.signatures <= r.collected
    && (r.store.checkpoint || r.phase in {Writing, Done} ==> |r.collected| >= r.threshold && r.waiting == {})
    && (r.phase in {Collecting, Skipped} ==> !r.store.checkpoint && r.store.signatures == [])
    && (r.phase == Done ==> r.store.checkpoint && r.store.signatures == r.collected)
  }

  lemma StepKeepsInv(verify: Verify, r: Round, a: Action)
    requires Inv(verify, r) && Enabled(r, a)
    ensures Inv(verify, Step(verify, r, a))
    ensures Step(verify, r, a).bytes == r.bytes && Step(verify, r, a).threshold == r.threshold
  {
  }

  /** Rows leave the staging table only in the clearing step, only rows of the batch, and only
      when the checkpoint and every collected signature are already stored. */
  lemma OnlyTheBatchIsCleared(verify: Verify, r: Round, a: Action, row: string)
    requires Inv(verify, r) && Enabled(r, a)
    requires row in r.store.staging && row !in Step(verify, r, a).store.staging
    ensures row in r.batch && r.store.checkpoint && r.store.signatures == r.collected
    ensures |r.store.signatures| >= r.threshold && Quorum(verify, r, r.store.signatures)
  {
  }

  ghost function Run(verify: Verify, r: Round, actions: seq<Action>): Round {
    if actions == [] then r
    else
      var q := Run(verify, r, actions[..|actions| - 1]);
      if Enabled(q, actions[|actions| - 1]) then Step(verify, q, actions[|actions| - 1]) else q
  }

  /** For any replies in any order, and a crash after any step: a stored checkpoint means at
      least the threshold of pairwise distinct nodes signed the same bytes validly, and the
      stored signatures are an initial stretch of theirs. */
  lemma {:induction false} CheckpointsHaveQuorum(verify: Verify, self: string, key: string, signature: string,
                                                 peers: seq<string>, threshold: nat, bytes: string,
                                                 batch: set<string>, staging: set<string>, actions: seq<Action>)
    requires verify(key, bytes, signature)
    ensures var r := Run(verify, Begin(self, key, signature, peers, threshold, bytes, batch, staging), actions);
      && Inv(verify, r) && r.bytes == bytes && r.threshold == threshold
      && (r.store.checkpoint ==> |r.collected| >= threshold && Quorum(verify, r, r.collected))
  {
    if actions != [] {
      var n := |actions| - 1;
      CheckpointsHaveQuorum(verify, self, key, signature, peers, threshold, bytes, batch, staging, actions[..n]);
      var q := Run(verify, Begin(self, key, signature, peers, threshold, bytes, batch, staging), actions[..n]);
      if Enabled(q, actions[n]) {
        StepKeepsInv(verify, q, actions[n]);
      }
    }
  }

  lemma RunOneMore(verify: Verify, r: Round, actions: seq<Action>, a: Action)
    requires Enabled(Run(verify, r, actions), a)
    ensures Run(verify, r, actions + [a]) == Step(verify, Run(verify, r, actions), a)
  {
    assert (actions + [a])[..|actions|] == actions;
  }

  datatype Arrival = Arrival(peer: nat, reply: Option<Reply>)

  ghost predicate OncePerPeer(arrivals: seq<Arrival>, waiting: set<nat>) {
    && (forall i, j :: 0 <= i < j < |arrivals| ==> arrivals[i].peer != arrivals[j].peer)
    && waiting == set a | a in arrivals :: a.peer
  }

  function Answers(arrivals: seq<Arrival>): seq<Action> {
    if arrivals == [] then []
    else
      var n := |arrivals| - 1;
      Answers(arrivals[..n]) + [Answer(arrivals[n].peer, arrivals[n].reply)]
  }

  lemma AnswersOneMore(arrivals: seq<Arrival>, n: nat)
    requires n < |arrivals|
    ensures Answers(arrivals[..n + 1]) == Answers(arrivals[..n]) + [Answer(arrivals[n].peer, arrivals[n].reply)]
  {
    assert arrivals[..n + 1][..n] == arrivals[..n];
  }

  /** A reply worth counting: from the peer addressed, with a key under which it verifies. */
  predicate Countable(verify: Verify, r: Round, a: Arrival)
    requires a.peer < |r.peers|
  {
    && a.reply.Some? && a.reply.value.nodeId == r.peers[a.peer]
    && a.reply.value.publicKey.Some? && a.reply.value.publicKey.value != ""
    && verify(a.reply.value.publicKey.value, r.bytes, a.reply.value.signature)
  }

  ghost predicate Counted(entries: seq<Entry>, id: string) {
    exists e :: e in entries && e.nodeId == id
  }

  ghost predicate Answered(verify: Verify, r: Round, arrivals: seq<Arrival>, id: string)
    requires forall a :: a in arrivals ==> a.peer < |r.peers|
  {
    exists a :: a in arrivals && Countable(verify, r, a) && r.peers[a.peer] == id
  }

  /** Whatever the order of the answers, the counted nodes are the ones counted before and exactly
      the peers that answered with a valid signature: none is lost, none is added. */
  lemma {:induction false} ExactlyTheValidCount(verify: Verify, start: Round, arrivals: seq<Arrival>, id: string)
    requires start.phase == Collecting
    requires forall a :: a in arrivals ==> a.peer < |start.peers| && a.peer in start.waiting
    requires forall i, j :: 0 <= i < j < |arrivals| ==> arrivals[i].peer != arrivals[j].peer
    requires forall x :: x in start.seen <==> Counted(start.collected, x)
    ensures var r := Run(verify, start, Answers(arrivals));
      && r == start.(waiting := start.waiting - (set a | a in arrivals :: a.peer), seen := r.seen,
                     collected := r.collected)
      && (forall x :: x in r.seen <==> Counted(r.collected, x))
      && (Counted(r.collected, id) <==> Counted(start.collected, id) || Answered(verify, start, arrivals, id))
  {
    if arrivals != [] {
      var n := |arrivals| - 1;
      var a := arrivals[n];
      ExactlyTheValidCount(verify, start, arrivals[..n], id);
      assert arrivals == arrivals[..n] + [a];
      var q := Run(verify, start, Answers(arrivals[..n]));
      RunOneMore(verify, start, Answers(arrivals[..n]), Answer(a.peer, a.reply));
      CountedOneMore(verify, q, a, id);
      assert a in arrivals;
    }
  }

  lemma CountedOneMore(verify: Verify, q: Round, a: Arrival, id: string)
    requires a.peer < |q.peers| && forall x :: x in q.seen <==> Counted(q.collected, x)
    ensures var r := Receive(verify, q, a.peer, a.reply);
      && r == q.(waiting := q.waiting - {a.peer}, seen := r.seen, collected := r.collected)
      && (forall x :: x in r.seen <==> Counted(r.collected, x))
      && (Counted(r.collected, id) <==> Counted(q.collected, id) || (Countable(verify, q, a) && q.peers[a.peer] == id))
  {
    var r := Receive(verify, q, a.peer, a.reply);
    if r.collected != q.collected {
      var e := r.collected[|q.collected|];
      assert r.collected == q.collected + [e] && e in r.collected;
      forall x ensures Counted(r.collected, x) <==> Counted(q.collected, x) || x == e.nodeId {
        if x != e.nodeId && Counted(r.collected, x) {
          var f :| f in r.collected && f.nodeId == x;
          assert f in q.collected;
        }
      }
    }
  }

  /** The collectors of one round, resumed in the order their peers answer. */
  method Collect(verify: Verify, start: Round, arrivals: seq<Arrival>)
    returns (seen: set<string>, collected: seq<Entry>)
    requires start.phase == Collecting && OncePerPeer(arrivals, start.waiting)
    requires forall i :: i in start.waiting ==> i < |start.peers|
    ensures Run(verify, start, Answers(arrivals)) == start.(waiting := {}, seen := seen, collected := collected)
  {
    seen, collected := start.seen, start.collected;
    ghost var waiting, actions := start.waiting, [];
    for n := 0 to |arrivals|
      invariant waiting == set k | n <= k < |arrivals| :: arrivals[k].peer
      invariant actions == Answers(arrivals[..n])
      invariant Run(verify, start, actions) == start.(waiting := waiting, seen := seen, collected := collected)
    {
      var Arrival(i, reply) := arrivals[n];
      assert arrivals[n] in arrivals && arrivals[n].peer in start.waiting;
      RunOneMore(verify, start, actions, Answer(i, reply));
      actions := actions + [Answer(i, reply)];
      AnswersOneMore(arrivals, n);
      waiting := waiting - {i};
      if reply.Some? && reply.value.nodeId == start.peers[i] && reply.value.nodeId !in seen
        && reply.value.publicKey.Some? && reply.value.publicKey.value != ""
        && verify(reply.value.publicKey.value, start.bytes, reply.value.signature)
      {
        seen := seen + {reply.value.nodeId};
        collected := collected + [Entry(reply.value.nodeId, reply.value.signature, reply.value.publicKey.value)];
      }
    }
    assert arrivals[..|arrivals|] == arrivals;
  }

  /** The writes of a confirmed round, in their order. */
  method WriteAll(verify: Verify, ghost start: Round, ghost before: seq<Action>, r: Round)
    returns (store: Store, ghost actions: seq<Action>)
    requires Run(verify, start, before) == r && r.phase == Writing
    requires !r.store.checkpoint && r.store.signatures == []
    ensures store == Store(true, r.collected, r.store.staging - r.batch)
    ensures Run(verify, start, actions) == r.(phase := Done, store := store)
  {
    RunOneMore(verify, start, before, WriteCheckpoint);
    actions := before + [WriteCheckpoint];
    store := r.store.(checkpoint := true);
    for n := 0 to |r.collected|
      invariant store == Store(true, r.collected[..n], r.store.staging)
      invariant Run(verify, start, actions) == r.(store := store)
    {
      RunOneMore(verify, start, actions, WriteSignature);
      actions := actions + [WriteSignature];
      store := store.(signatures := store.signatures + [r.collected[n]]);
    }
    RunOneMore(verify, start, actions, Clear);
    actions := actions + [Clear];
    store := store.(staging := store.staging - r.batch);
  }

  /** `#runCoordinatorRound` without a crash, for these answers in this order: it stores exactly
      when the counted signatures reach the threshold, then exactly those and nothing outside the
      batch is cleared; and it is one of the runs above. */
  method RunCoordinatorRound(verify: Verify, start: Round, arrivals: seq<Arrival>)
    returns (store: Store, confirmed: bool, ghost actions: seq<Action>)
    requires start.phase == Collecting && OncePerPeer(arrivals, start.waiting)
    requires forall i :: i in start.waiting ==> i < |start.peers|
    requires !start.store.checkpoint && start.store.signatures == []
    ensures var collected := Run(verify, start, Answers(arrivals)).collected;
      && confirmed == (|collected| >= start.threshold)
      && store == if confirmed then Store(true, collected, start.store.staging - start.batch) else start.store
    ensures var r := Run(verify, start, actions);
      r.store == store && r.phase == (if confirmed then Done else Skipped)
  {
    var seen, collected := Collect(verify, start, arrivals);
    RunOneMore(verify, start, Answers(arrivals), Decide);
    actions := Answers(arrivals) + [Decide];
    if |collected| < start.threshold {
      return start.store, false, actions;
    }
    confirmed := true;
    store, actions := WriteAll(verify, start, actions,
                               start.(waiting := {}, seen := seen, collected := collected, phase := Writing));
  }

  /** A signing event at a node that follows `verifyAndSign`. */
  datatype Signing = Signing(key: string, local: MmrState, proposal: Proposal)

  /** Ed25519 unforgeability for the keys of the nodes that follow the protocol: what verifies
      under such a key was signed by its owner in one of its signing events. */
  ghost predicate Unforgeable(verify: Verify, tbs: (MmrState, string) -> string, hex: string -> string,
                              honest: set<string>, signings: set<Signing>)
  {
    forall key, bytes, sig :: key in honest && verify(key, bytes, sig) ==>
      exists s :: s in signings && s.key == key && VerifyAndSign(tbs, hex, s.local, s.proposal) == Some(bytes)
  }

  /** Every counted signature under such a key comes from a node that itself held the
      coordinator's peaks and identity root. */
  lemma HonestSignersHeldTheState(verify: Verify, tbs: (MmrState, string) -> string, hex: string -> string,
                                  honest: set<string>, signings: set<Signing>, mine: MmrState, id: string, r: Round,
                                  e: Entry)
    requires Unforgeable(verify, tbs, hex, honest, signings)
    requires forall x, i, y, j :: tbs(x, i) == tbs(y, j) ==> x == y && i == j
    requires r.bytes == tbs(mine, id) && Quorum(verify, r, r.collected)
    requires e in r.collected && e.publicKey in honest
    ensures exists s :: s in signings && s.key == e.publicKey && s.local == mine && s.proposal.id == id
                        && s.proposal.hash == hex(r.bytes)
  {
    assert verify(e.publicKey, r.bytes, e.signature);
    var s :| s in signings && s.key == e.publicKey && VerifyAndSign(tbs, hex, s.local, s.proposal) == Some(r.bytes);
    assert tbs(s.local, s.proposal.id) == tbs(mine, id);
  }

  // ----- ids and keys -----

  /** Distinct node ids need not mean distinct keys: the key a signature is checked under comes with
      the reply, so two peers answering under one key are both counted. */
  lemma OneKeyMayFillTheQuorum(verify: Verify, self: string, own: string, ownSig: string, a: string, b: string,
                               key: string, sig: string, bytes: string, batch: set<string>, staging: set<string>)
    requires self != a && self != b && a != b && key != ""
    requires verify(own, bytes, ownSig) && verify(key, bytes, sig)
    ensures var start := Begin(self, own, ownSig, [a, b], 3, bytes, batch, staging);
      var r := Run(verify, start, Answers([Under(0, a, key, sig), Under(1, b, key, sig)]));
      && Quorum(verify, r, r.collected) && |r.collected| == r.threshold == 3
      && r.collected[1].publicKey == r.collected[2].publicKey && r.collected[1].nodeId != r.collected[2].nodeId
  {
    var start := Begin(self, own, ownSig, [a, b], 3, bytes, batch, staging);
    var x, y := Under(0, a, key, sig), Under(1, b, key, sig);
    FirstUnder(verify, start, x, y);
    var q := Receive(verify, start, 0, x.reply);
    assert q.collected == [Entry(self, ownSig, own), Entry(a, sig, key)];
    var r := Receive(verify, q, 1, y.reply);
    assert r.collected == [Entry(self, ownSig, own), Entry(a, sig, key), Entry(b, sig, key)];
    CheckpointsHaveQuorum(verify, self, own, ownSig, [a, b], 3, bytes, batch, staging, Answers([x, y]));
  }

  function Under(i: nat, node: string, key: string, sig: string): Arrival {
    Arrival(i, Some(Reply(node, sig, Some(key))))
  }

  lemma FirstUnder(verify: Verify, start: Round, x: Arrival, y: Arrival)
    requires start.phase == Collecting && |start.peers| == 2 && x.peer == 0 && y.peer == 1 && start.waiting == {0, 1}
    ensures Run(verify, start, Answers([x, y])) == Receive(verify, Receive(verify, start, 0, x.reply), 1, y.reply)
  {
    assert [x, y][..1] == [x] && [x][..0] == [];
    assert Answers([]) == [] && Answers([x]) == [] + [Answer(0, x.reply)];
    assert Answers([x, y]) == Answers([x]) + [Answer(1, y.reply)];
    assert Run(verify, start, []) == start;
    RunOneMore(verify, start, [], Answer(0, x.reply));
    RunOneMore(verify, start, Answers([x]), Answer(1, y.reply));
  }

  ghost predicate KeysDistinct(entries: seq<Entry>) {
    forall i, j :: 0 <= i < j < |entries| ==> entries[i].publicKey != entries[j].publicKey
  }

  /** The entry a countable reply is counted as. */
  function EntryOf(a: Arrival): Entry
    requires a.reply.Some? && a.reply.value.publicKey.Some?
  {
    Entry(a.reply.value.nodeId, a.reply.value.signature, a.reply.value.publicKey.value)
  }

  ghost predicate CountedAs(verify: Verify, r: Round, arrivals: seq<Arrival>, e: Entry)
    requires forall a :: a in arrivals ==> a.peer < |r.peers|
  {
    exists a :: a in arrivals && Countable(verify, r, a) && EntryOf(a) == e
  }

  /** Peers asked at most once each, under their own ids, by a coordinator that has counted itself. */
  ghost predicate Asked(start: Round, arrivals: seq<Arrival>) {
    && start.phase == Collecting && start.seen == {start.self}
    && |start.collected| == 1 && start.collected[0].nodeId == start.self
    && (forall i, j :: 0 <= i < j < |start.peers| ==> start.peers[i] != start.peers[j])
    && (forall i :: i in start.waiting ==> i < |start.peers| && start.peers[i] != start.self)
    && (forall a :: a in arrivals ==> a.peer in start.waiting && a.peer < |start.peers|)
    && (forall i, j :: 0 <= i < j < |arrivals| ==> arrivals[i].peer != arrivals[j].peer)
  }

  /** A round begins so: only its own signature counted, every other node asked. */
  lemma BeginAsks(self: string, key: string, signature: string, peers: seq<string>, threshold: nat, bytes: string,
                  batch: set<string>, staging: set<string>)
    requires forall i, j :: 0 <= i < j < |peers| ==> peers[i] != peers[j]
    ensures var r := Begin(self, key, signature, peers, threshold, bytes, batch, staging);
      && Asked(r, []) && r.collected == [Entry(self, signature, key)] && r.store == Store(false, [], staging)
      && (forall i: nat :: i < |peers| && peers[i] != self ==> i in r.waiting)
      && (r.peers, r.threshold, r.bytes, r.batch) == (peers, threshold, bytes, batch)
  {
  }

  /** Whatever the order of the answers, exactly the countable replies are collected. */
  lemma {:induction false} CollectedAre(verify: Verify, start: Round, arrivals: seq<Arrival>, e: Entry)
    requires Asked(start, arrivals)
    ensures e in Run(verify, start, Answers(arrivals)).collected
      <==> e in start.collected || CountedAs(verify, start, arrivals, e)
  {
    if arrivals != [] {
      var n := |arrivals| - 1;
      var a := arrivals[n];
      CollectedAre(verify, start, arrivals[..n], e);
      CollectOneMore(verify, start, arrivals);
      CountOneMore(verify, start, arrivals, e);
    }
  }

  lemma CountOneMore(verify: Verify, start: Round, arrivals: seq<Arrival>, e: Entry)
    requires Asked(start, arrivals) && arrivals != []
    ensures var n := |arrivals| - 1; var a := arrivals[n];
      CountedAs(verify, start, arrivals, e) <==>
        CountedAs(verify, start, arrivals[..n], e) || (Countable(verify, start, a) && EntryOf(a) == e)
  {
    var n := |arrivals| - 1;
    assert arrivals == arrivals[..n] + [arrivals[n]];
  }

  lemma CollectOneMore(verify: Verify, start: Round, arrivals: seq<Arrival>)
    requires Asked(start, arrivals) && arrivals != []
    ensures var n := |arrivals| - 1; var a := arrivals[n];
      Run(verify, start, Answers(arrivals)).collected == Run(verify, start, Answers(arrivals[..n])).collected
        + if Countable(verify, start, a) then [EntryOf(a)] else []
  {
    var n := |arrivals| - 1;
    var a := arrivals[n];
    assert arrivals == arrivals[..n] + [a] && a in arrivals;
    ExactlyTheValidCount(verify, start, arrivals[..n], start.peers[a.peer]);
    NotYetCounted(verify, start, arrivals);
    RunOneMore(verify, start, Answers(arrivals[..n]), Answer(a.peer, a.reply));
    ReceiveNew(verify, start, Run(verify, start, Answers(arrivals[..n])), a);
  }

  lemma ReceiveNew(verify: Verify, start: Round, q: Round, a: Arrival)
    requires a.peer < |start.peers| && q.peers == start.peers && q.bytes == start.bytes
      && start.peers[a.peer] !in q.seen
    ensures Receive(verify, q, a.peer, a.reply).collected
      == q.collected + if Countable(verify, start, a) then [EntryOf(a)] else []
  {
  }

  lemma NotYetCounted(verify: Verify, start: Round, arrivals: seq<Arrival>)
    requires Asked(start, arrivals) && arrivals != []
    ensures var n := |arrivals| - 1; var id := start.peers[arrivals[n].peer];
      !Counted(start.collected, id) && !Answered(verify, start, arrivals[..n], id)
  {
    var n := |arrivals| - 1;
    assert arrivals[n] in arrivals;
    forall a | a in arrivals[..n] ensures start.peers[a.peer] != start.peers[arrivals[n].peer] {
      var i :| 0 <= i < n && arrivals[i] == a;
      assert arrivals[i].peer != arrivals[n].peer && arrivals[i] in arrivals;
    }
  }

  /** No countable reply comes under the coordinator's key or under that of another countable reply. */
  ghost predicate OwnKeys(verify: Verify, start: Round, arrivals: seq<Arrival>)
    requires Asked(start, arrivals)
  {
    && (forall a :: a in arrivals && Countable(verify, start, a) ==>
          a.reply.value.publicKey.value != start.collected[0].publicKey)
    && (forall a, b :: (a in arrivals && b in arrivals && a.peer != b.peer
                        && Countable(verify, start, a) && Countable(verify, start, b)) ==>
          a.reply.value.publicKey != b.reply.value.publicKey)
  }

  /** Every countable reply comes under the key pinned to the peer addressed, the coordinator's under
      its own, and no key is pinned twice. */
  ghost predicate Pinned(verify: Verify, start: Round, arrivals: seq<Arrival>, pin: string -> string)
    requires Asked(start, arrivals)
  {
    && start.collected[0].publicKey == pin(start.self)
    && (forall a :: a in arrivals && Countable(verify, start, a) ==>
          a.reply.value.publicKey.value == pin(start.peers[a.peer]))
    && (forall x, y :: pin(x) == pin(y) ==> x == y)
  }

  lemma PinnedKeysAreOwn(verify: Verify, start: Round, arrivals: seq<Arrival>, pin: string -> string)
    requires Asked(start, arrivals) && Pinned(verify, start, arrivals, pin)
    ensures OwnKeys(verify, start, arrivals)
  {
  }

  /** A quorum of ids is one of keys exactly when the replies come under keys of their own, as they
      do whenever each peer answers under the key a manifest pins to it alone. */
  lemma QuorumOfKeys(verify: Verify, start: Round, arrivals: seq<Arrival>)
    requires Asked(start, arrivals) && Quorum(verify, start, start.collected)
    ensures KeysDistinct(Run(verify, start, Answers(arrivals)).collected) <==> OwnKeys(verify, start, arrivals)
    ensures forall pin: string -> string :: Pinned(verify, start, arrivals, pin) ==> OwnKeys(verify, start, arrivals)
  {
    var c := Run(verify, start, Answers(arrivals)).collected;
    AnswersOnly(arrivals);
    IdsDistinct(verify, start, Answers(arrivals));
    forall e ensures e in c <==> e in start.collected || CountedAs(verify, start, arrivals, e) {
      CollectedAre(verify, start, arrivals, e);
    }
    if OwnKeys(verify, start, arrivals) {
      forall i, j | 0 <= i < j < |c| ensures c[i].publicKey != c[j].publicKey {
        assert c[i] in c && c[j] in c && c[i].nodeId != c[j].nodeId;
      }
    }
    if KeysDistinct(c) {
      OwnKeysIf(verify, start, arrivals, c);
    }
    forall pin: string -> string | Pinned(verify, start, arrivals, pin) ensures OwnKeys(verify, start, arrivals) {
      PinnedKeysAreOwn(verify, start, arrivals, pin);
    }
  }

  lemma OwnKeysIf(verify: Verify, start: Round, arrivals: seq<Arrival>, c: seq<Entry>)
    requires Asked(start, arrivals) && KeysDistinct(c)
    requires forall e :: e in start.collected || CountedAs(verify, start, arrivals, e) ==> e in c
    ensures OwnKeys(verify, start, arrivals)
  {
    forall a | a in arrivals && Countable(verify, start, a)
      ensures a.reply.value.publicKey.value != start.collected[0].publicKey
    {
      assert CountedAs(verify, start, arrivals, EntryOf(a));
      KeysDiffer(c, EntryOf(a), start.collected[0]);
    }
    forall a, b | a in arrivals && b in arrivals && a.peer != b.peer
      && Countable(verify, start, a) && Countable(verify, start, b)
      ensures a.reply.value.publicKey != b.reply.value.publicKey
    {
      assert CountedAs(verify, start, arrivals, EntryOf(a)) && CountedAs(verify, start, arrivals, EntryOf(b));
      KeysDiffer(c, EntryOf(a), EntryOf(b));
    }
  }

  lemma KeysDiffer(c: seq<Entry>, e: Entry, f: Entry)
    requires KeysDistinct(c) && e in c && f in c && e.nodeId != f.nodeId
    ensures e.publicKey != f.publicKey
  {
    var i :| 0 <= i < |c| && c[i] == e;
    var j :| 0 <= j < |c| && c[j] == f;
    assert i != j;
  }

  lemma {:induction false} IdsDistinct(verify: Verify, start: Round, actions: seq<Action>)
    requires start.phase == Collecting && Quorum(verify, start, start.collected)
    requires forall e :: e in start.collected ==> e.nodeId in start.seen
    requires forall k :: 0 <= k < |actions| ==> actions[k].Answer?
    ensures var r := Run(verify, start, actions);
      && Quorum(verify, r, r.collected) && r.phase == Collecting
      && (forall e :: e in r.collected ==> e.nodeId in r.seen)
  {
    if actions != [] {
      IdsDistinct(verify, start, actions[..|actions| - 1]);
    }
  }

  lemma {:induction false} AnswersOnly(arrivals: seq<Arrival>)
    ensures forall k :: 0 <= k < |Answers(arrivals)| ==> Answers(arrivals)[k].Answer?
  {
    if arrivals != [] {
      AnswersOnly(arrivals[..|arrivals| - 1]);
    }
  }
}
