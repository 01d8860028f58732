/** The mutual handshake of the anti-entropy channel, over every run of a network that delivers,
    reorders, replays, drops and invents frames at will. Signing is symbolic: the signed encoding
    is injective, a signature under an honest node's key exists only if that node made it, and
    nonces do not repeat. Nodes outside the honest ones, consortium members included, are part of
    the network. */
module Handshake {
  import opened Merges

  /** What both sides sign. Role A dialed. */
  datatype Params = Params(nodeA: string, nodeB: string, peerA: string, peerB: string,
                           nonceA: string, nonceB: string, timestamp: string)

  datatype Signature = Signature(key: string, over: Params)

  /** `builds`: the encoder accepts the values. `utc`: the timestamp carries an offset. */
  datatype Library = Library(builds: Params -> bool, utc: string -> bool, parse: string -> Option<int>)

  /** The encoder refuses a transcript that names one node on both sides. */
  ghost predicate RefusesReflection(lib: Library) {
    forall p :: lib.builds(p) ==> p.nodeA != p.nodeB
  }

  /** A manifest entry; an empty string is a missing field. */
  datatype Pinned = Pinned(nodeId: string, pubkey: string, peerId: string)

  function Find(manifest: seq<Pinned>, nodeId: string): Option<Pinned> {
    if manifest == [] then None
    else if manifest[0].nodeId == nodeId then Some(manifest[0])
    else Find(manifest[1..], nodeId)
  }

  datatype Slot = A | B

  datatype Reason =
    | NodeIdMismatch | SelfDial | NotInManifest | EntryIncomplete
    | PeerIdMismatch | NonceMismatch | TimestampSkew | SignatureInvalid

  const MAX_SKEW := 60_000

  function PeerNode(p: Params, local: Slot): string { if local == A then p.nodeB else p.nodeA }
  function PeerPeer(p: Params, local: Slot): string { if local == A then p.peerB else p.peerA }
  function OurNonce(p: Params, local: Slot): string { if local == A then p.nonceA else p.nonceB }
  function PeerNonce(p: Params, local: Slot): string { if local == A then p.nonceB else p.nonceA }

  predicate Fresh(lib: Library, timestamp: string, now: int) {
    && lib.utc(timestamp) && lib.parse(timestamp).Some?
    && -MAX_SKEW <= now - lib.parse(timestamp).value <= MAX_SKEW
  }

  /** `verifyPeerAuthFrame`: the first check that fails, or none. */
  function Verify(lib: Library, manifest: seq<Pinned>, peerNode: string, p: Params, sig: Signature,
                  livePeer: string, local: Slot, minted: string, received: string, now: int): Option<Reason>
  {
    if PeerNode(p, local) != peerNode then Some(NodeIdMismatch)
    else if p.nodeA == p.nodeB || p.peerA == p.peerB then Some(SelfDial)
    else
      match Find(manifest, peerNode)
      case None => Some(NotInManifest)
      case Some(node) =>
        if node.pubkey == "" || node.peerId == "" then Some(EntryIncomplete)
        else if livePeer != node.peerId || PeerPeer(p, local) != node.peerId then Some(PeerIdMismatch)
        else if OurNonce(p, local) != minted || PeerNonce(p, local) != received then Some(NonceMismatch)
        else if !Fresh(lib, p.timestamp, now) then Some(TimestampSkew)
        else if !(lib.builds(p) && sig == Signature(node.pubkey, p)) then Some(SignatureInvalid)
        else None
  }

  /** The entry a manifest pins for a node is its first of that id. */
  lemma {:induction false} FindIsTheFirst(manifest: seq<Pinned>, nodeId: string)
    ensures Find(manifest, nodeId).None? <==> forall i :: 0 <= i < |manifest| ==> manifest[i].nodeId != nodeId
    ensures Find(manifest, nodeId).Some? ==> exists i ::
      0 <= i < |manifest| && manifest[i] == Find(manifest, nodeId).value && manifest[i].nodeId == nodeId
      && forall j :: 0 <= j < i ==> manifest[j].nodeId != nodeId
  {
    if manifest != [] && manifest[0].nodeId != nodeId {
      var rest := manifest[1..];
      FindIsTheFirst(rest, nodeId);
      assert forall i :: 0 <= i < |rest| ==> rest[i] == manifest[i + 1];
      if Find(rest, nodeId).Some? {
        var i :| 0 <= i < |rest| && rest[i] == Find(rest, nodeId).value && rest[i].nodeId == nodeId
            && forall j :: 0 <= j < i ==> rest[j].nodeId != nodeId;
        forall j | 0 <= j < i + 1 ensures manifest[j].nodeId != nodeId {
          assert j > 0 ==> manifest[j] == rest[j - 1];
        }
        assert manifest[i + 1] == Find(manifest, nodeId).value;
      }
    }
  }

  /** Acceptance, as one condition: every binding holds at once, the timestamp carries an offset and
      lies within a minute of now either way. */
  lemma VerifyAcceptsExactly(lib: Library, manifest: seq<Pinned>, peerNode: string, p: Params, sig: Signature,
                             livePeer: string, local: Slot, minted: string, received: string, now: int)
    ensures Verify(lib, manifest, peerNode, p, sig, livePeer, local, minted, received, now).None? <==>
      && p.nodeA != p.nodeB && p.peerA != p.peerB
      && (local == A ==> p.nodeB == peerNode && p.peerB == livePeer && p.nonceA == minted && p.nonceB == received)
      && (local == B ==> p.nodeA == peerNode && p.peerA == livePeer && p.nonceB == minted && p.nonceA == received)
      && (exists node :: Find(manifest, peerNode) == Some(node)
            && node.pubkey != "" && node.peerId != "" && livePeer == node.peerId
            && sig == Signature(node.pubkey, p))
      && lib.utc(p.timestamp) && lib.parse(p.timestamp).Some?
      && now - 60_000 <= lib.parse(p.timestamp).value <= now + 60_000 && lib.builds(p)
  {
  }

  /** An entry for the node, of which this holds. */
  ghost predicate Has(manifest: seq<Pinned>, nodeId: string, what: Pinned -> bool) {
    exists e :: e in manifest && e.nodeId == nodeId && what(e)
  }

  /** A refusal names its cause: what each reason says is true of the frame. */
  lemma ReasonsAreTrue(lib: Library, manifest: seq<Pinned>, peerNode: string, p: Params, sig: Signature,
                       livePeer: string, local: Slot, minted: string, received: string, now: int)
    ensures var node := if local == A then p.nodeB else p.nodeA;
      var peer := if local == A then p.peerB else p.peerA;
      match Verify(lib, manifest, peerNode, p, sig, livePeer, local, minted, received, now)
      case None => true
      case Some(NodeIdMismatch) => node != peerNode
      case Some(SelfDial) => p.nodeA == p.nodeB || p.peerA == p.peerB
      case Some(NotInManifest) => forall i :: 0 <= i < |manifest| ==> manifest[i].nodeId != peerNode
      case Some(EntryIncomplete) => Has(manifest, peerNode, (e: Pinned) => e.pubkey == "" || e.peerId == "")
      case Some(PeerIdMismatch) => Has(manifest, peerNode, (e: Pinned) => livePeer != e.peerId || peer != e.peerId)
      case Some(NonceMismatch) =>
        (p.nonceA, p.nonceB) != if local == A then (minted, received) else (received, minted)
      case Some(TimestampSkew) =>
        !(lib.utc(p.timestamp) && lib.parse(p.timestamp).Some?
          && now - 60_000 <= lib.parse(p.timestamp).value <= now + 60_000)
      case Some(SignatureInvalid) =>
        !lib.builds(p) || Has(manifest, peerNode, (e: Pinned) => sig != Signature(e.pubkey, p))
  {
    FindIsTheFirst(manifest, peerNode);
    if Find(manifest, peerNode).Some? {
      var i :| 0 <= i < |manifest| && manifest[i] == Find(manifest, peerNode).value && manifest[i].nodeId == peerNode
          && forall j :: 0 <= j < i ==> manifest[j].nodeId != peerNode;
      assert manifest[i] in manifest;
    }
  }

  // ----- the network -----

  datatype Identity = Identity(nodeId: string, peerId: string, key: string)

  /** One execution of the dialer (slot A) or the responder (slot B) by an honest node. `signed` is
      what it put its name to, `accepted` whether it accepted its peer. */
  datatype Session = Session(slot: Slot, self: Identity, livePeer: string, remote: string, manifest: seq<Pinned>,
                             nonce: string, signed: Option<Params>, accepted: bool, open: bool)

  datatype World = World(sessions: map<nat, Session>, signatures: set<Signature>, minted: set<string>,
                         requested: set<nat>, served: set<nat>)

  /** The fixed part: the encoders and the honest nodes' identities. */
  datatype Setting = Setting(lib: Library, honest: map<string, Identity>)

  ghost predicate Sound(s: Setting) {
    && RefusesReflection(s.lib)
    && (forall n :: n in s.honest ==> s.honest[n].nodeId == n)
    && (forall n, m :: n in s.honest && m in s.honest && s.honest[n].key == s.honest[m].key ==> n == m)
  }

  predicate HonestKey(s: Setting, key: string) {
    exists n :: n in s.honest && s.honest[n].key == key
  }

  /** The verified manifest pins the right key wherever it pins one for an honest node. */
  ghost predicate PinsRightKeys(s: Setting, manifest: seq<Pinned>) {
    forall n :: n in s.honest && Find(manifest, n).Some? && Find(manifest, n).value.pubkey != "" ==>
      Find(manifest, n).value.pubkey == s.honest[n].key
  }

  datatype Action =
    | Dial(id: nat, node: string, remote: string, livePeer: string, manifest: seq<Pinned>, nonce: string)
    | Hello(id: nat, node: string, claimedNode: string, claimedNonce: string, livePeer: string,
            manifest: seq<Pinned>, nonce: string, timestamp: string)
    | AuthB(id: nat, claimedNode: string, peerId: string, nonceB: string, timestamp: string, sig: Signature, now: int)
    | AuthA(id: nat, sig: Signature, now: int)
    | Request(id: nat)
    | Serve(id: nat)
    | Close(id: nat)

  /** The network has a signature if its key is not an honest one or the node made it. */
  predicate Available(s: Setting, w: World, sig: Signature) {
    HonestKey(s, sig.key) ==> sig in w.signatures
  }

  predicate Waiting(w: World, id: nat, slot: Slot) {
    id in w.sessions && w.sessions[id].slot == slot && w.sessions[id].open && !w.sessions[id].accepted
  }

  ghost predicate Enabled(s: Setting, w: World, a: Action) {
    match a
    case Dial(id, node, _, _, manifest, nonce) =>
      id !in w.sessions && node in s.honest && nonce !in w.minted && PinsRightKeys(s, manifest)
    case Hello(id, node, _, _, _, manifest, nonce, _) =>
      id !in w.sessions && node in s.honest && nonce !in w.minted && PinsRightKeys(s, manifest)
    case AuthB(id, _, _, _, _, sig, _) => Waiting(w, id, A) && Available(s, w, sig)
    case AuthA(id, sig, _) => Waiting(w, id, B) && w.sessions[id].signed.Some? && Available(s, w, sig)
    case Request(id) => id in w.sessions && w.sessions[id].slot == A && w.sessions[id].accepted && w.sessions[id].open
    case Serve(id) => id in w.sessions && w.sessions[id].slot == B && w.sessions[id].accepted && w.sessions[id].open
    case Close(id) => id in w.sessions
  }

  function Replace(w: World, id: nat, x: Session): World { w.(sessions := w.sessions[id := x]) }

  function Sign(w: World, id: nat, x: Session, p: Params): World {
    w.(sessions := w.sessions[id := x.(signed := Some(p))], signatures := w.signatures + {Signature(x.self.key, p)})
  }

  function Step(s: Setting, w: World, a: Action): World
    requires Enabled(s, w, a)
  {
    match a
    case Dial(id, node, remote, livePeer, manifest, nonce) =>
      // A node refuses to dial itself before any frame is sent.
      var self := s.honest[node];
      w.(sessions := w.sessions[id := Session(A, self, livePeer, remote, manifest, nonce, None, false,
                                              remote != self.nodeId)],
         minted := w.minted + {nonce})
    case Hello(id, node, claimedNode, claimedNonce, livePeer, manifest, nonce, timestamp) =>
      var self := s.honest[node];
      var p := Params(claimedNode, self.nodeId, livePeer, self.peerId, claimedNonce, nonce, timestamp);
      var x := Session(B, self, livePeer, claimedNode, manifest, nonce, None, false, true);
      var w' := w.(minted := w.minted + {nonce});
      if s.lib.builds(p) then Sign(w', id, x, p) else Replace(w', id, x.(open := false))
    case AuthB(id, claimedNode, peerId, nonceB, timestamp, sig, now) =>
      var x := w.sessions[id];
      var p := Params(x.self.nodeId, claimedNode, x.self.peerId, peerId, x.nonce, nonceB, timestamp);
      if claimedNode == x.remote
         && Verify(s.lib, x.manifest, claimedNode, p, sig, x.livePeer, A, x.nonce, nonceB, now).None?
         && s.lib.builds(p)
      then Sign(w, id, x.(accepted := true), p)
      else Replace(w, id, x.(open := false))
    case AuthA(id, sig, now) =>
      var x := w.sessions[id];
      var p := x.signed.value;
      if Verify(s.lib, x.manifest, p.nodeA, p, sig, x.livePeer, B, x.nonce, p.nonceA, now).None?
      then Replace(w, id, x.(accepted := true))
      else Replace(w, id, x.(open := false))
    case Request(id) => w.(requested := w.requested + {id})
    case Serve(id) => w.(served := w.served + {id})
    case Close(id) => Replace(w, id, w.sessions[id].(open := false))
  }

  const START := World(map[], {}, {}, {}, {})

  ghost function Run(s: Setting, actions: seq<Action>): World {
    if actions == [] then START
    else
      var w := Run(s, actions[..|actions| - 1]);
      var a := actions[|actions| - 1];
      if Enabled(s, w, a) then Step(s, w, a) else w
  }

  // ----- what every step keeps -----

  /** What a session signs it signs in its own slot, under its own nonce and identity. */
  ghost predicate OwnSlot(x: Session, p: Params) {
    match x.slot
    case A => p.nodeA == x.self.nodeId && p.peerA == x.self.peerId && p.nonceA == x.nonce
    case B => p.nodeB == x.self.nodeId && p.peerB == x.self.peerId && p.nonceB == x.nonce && p.peerA == x.livePeer
  }

  ghost predicate SessionInv(s: Setting, w: World, x: Session) {
    && x.self.nodeId in s.honest && s.honest[x.self.nodeId] == x.self
    && x.nonce in w.minted && PinsRightKeys(s, x.manifest)
    && (x.signed.Some? ==> OwnSlot(x, x.signed.value) && s.lib.builds(x.signed.value))
    && (x.slot == A && !x.accepted ==> x.signed.None?)
    && (x.accepted ==>
          && x.signed.Some?
          && PeerPeer(x.signed.value, x.slot) == x.livePeer
          && (PeerNode(x.signed.value, x.slot) in s.honest ==>
                Signature(s.honest[PeerNode(x.signed.value, x.slot)].key, x.signed.value) in w.signatures))
  }

  /** An honest signature was made by a session of its owner. */
  ghost predicate Made(w: World, id: nat, sig: Signature) {
    id in w.sessions && w.sessions[id].self.key == sig.key && w.sessions[id].signed == Some(sig.over)
  }

  ghost predicate Inv(s: Setting, w: World) {
    && (forall id :: id in w.sessions ==> SessionInv(s, w, w.sessions[id]))
    && (forall i, j :: i in w.sessions && j in w.sessions && w.sessions[i].nonce == w.sessions[j].nonce ==> i == j)
    && (forall sig :: sig in w.signatures ==> exists id :: Made(w, id, sig))
    && (forall id :: id in w.requested ==> id in w.sessions && w.sessions[id].slot == A && w.sessions[id].accepted)
    && (forall id :: id in w.served ==> id in w.sessions && w.sessions[id].slot == B && w.sessions[id].accepted)
  }

  /** Changing one session, keeping its nonce and whatever it has signed, accepted or been. */
  ghost predicate Continues(x: Session, y: Session) {
    && y.slot == x.slot && y.self == x.self && y.nonce == x.nonce
    && (x.signed.Some? ==> y.signed == x.signed) && (x.accepted ==> y.accepted)
  }

  lemma SessionInvStays(s: Setting, w: World, v: World, x: Session)
    requires SessionInv(s, w, x) && w.signatures <= v.signatures && w.minted <= v.minted
    ensures SessionInv(s, v, x)
  {
  }

  lemma MadeStays(w: World, v: World, id: nat, y: Session, sig: Signature, maker: nat)
    requires Made(w, maker, sig) && v.sessions == w.sessions[id := y]
      && (id in w.sessions ==> Continues(w.sessions[id], y))
    ensures Made(v, maker, sig)
  {
  }

  /** One session added or changed, and possibly one signature made by it. */
  lemma OneSession(s: Setting, w: World, v: World, id: nat, y: Session)
    requires Inv(s, w) && v.sessions == w.sessions[id := y] && SessionInv(s, v, y)
    requires v.requested == w.requested && v.served == w.served
    requires w.minted <= v.minted
    requires if id in w.sessions then Continues(w.sessions[id], y) else y.nonce !in w.minted
    requires w.signatures <= v.signatures
    requires forall sig :: sig in v.signatures && sig !in w.signatures ==> Made(v, id, sig)
    ensures Inv(s, v)
  {
    forall k | k in v.sessions ensures SessionInv(s, v, v.sessions[k]) {
      if k != id { SessionInvStays(s, w, v, w.sessions[k]); }
    }
    forall i, j | i in v.sessions && j in v.sessions && v.sessions[i].nonce == v.sessions[j].nonce ensures i == j {
      assert i != id ==> SessionInv(s, w, w.sessions[i]);
      assert j != id ==> SessionInv(s, w, w.sessions[j]);
    }
    forall sig | sig in v.signatures ensures exists k :: Made(v, k, sig) {
      if sig in w.signatures {
        var k :| Made(w, k, sig);
        MadeStays(w, v, id, y, sig, k);
      } else {
        assert Made(v, id, sig);
      }
    }
  }

  /** A signature that verified under an honest node's pinned key was really made. */
  lemma AcceptedIsGenuine(s: Setting, w: World, x: Session, peerNode: string, p: Params, sig: Signature,
                          minted: string, received: string, now: int)
    requires PinsRightKeys(s, x.manifest) && Available(s, w, sig)
    requires Verify(s.lib, x.manifest, peerNode, p, sig, x.livePeer, x.slot, minted, received, now).None?
    ensures PeerNode(p, x.slot) == peerNode && PeerPeer(p, x.slot) == x.livePeer
    ensures peerNode in s.honest ==> Signature(s.honest[peerNode].key, p) in w.signatures
  {
    if peerNode in s.honest {
      assert HonestKey(s, s.honest[peerNode].key);
    }
  }

  lemma DialKeepsInv(s: Setting, w: World, a: Action)
    requires Sound(s) && Inv(s, w) && Enabled(s, w, a) && a.Dial?
    ensures Inv(s, Step(s, w, a))
  {
    var v := Step(s, w, a);
    OneSession(s, w, v, a.id, v.sessions[a.id]);
  }

  lemma HelloKeepsInv(s: Setting, w: World, a: Action)
    requires Sound(s) && Inv(s, w) && Enabled(s, w, a) && a.Hello?
    ensures Inv(s, Step(s, w, a))
  {
    var v := Step(s, w, a);
    OneSession(s, w, v, a.id, v.sessions[a.id]);
  }

  /** The dialer accepted its peer and signs. */
  lemma SigningKeepsInv(s: Setting, w: World, id: nat, p: Params)
    requires Sound(s) && Inv(s, w) && Waiting(w, id, A) && w.sessions[id].signed.None?
    requires OwnSlot(w.sessions[id], p) && s.lib.builds(p) && p.peerB == w.sessions[id].livePeer
    requires p.nodeB in s.honest ==> Signature(s.honest[p.nodeB].key, p) in w.signatures
    ensures Inv(s, Sign(w, id, w.sessions[id].(accepted := true), p))
  {
    var x := w.sessions[id];
    var v := Sign(w, id, x.(accepted := true), p);
    assert SessionInv(s, w, x);
    OneSession(s, w, v, id, v.sessions[id]);
  }

  lemma ClosingKeepsInv(s: Setting, w: World, id: nat)
    requires Inv(s, w) && id in w.sessions
    ensures Inv(s, Replace(w, id, w.sessions[id].(open := false)))
  {
    var v := Replace(w, id, w.sessions[id].(open := false));
    assert SessionInv(s, w, w.sessions[id]);
    OneSession(s, w, v, id, v.sessions[id]);
  }

  lemma AuthBKeepsInv(s: Setting, w: World, a: Action)
    requires Sound(s) && Inv(s, w) && Enabled(s, w, a) && a.AuthB?
    ensures Inv(s, Step(s, w, a))
  {
    var x := w.sessions[a.id];
    assert SessionInv(s, w, x);
    var p := Params(x.self.nodeId, a.claimedNode, x.self.peerId, a.peerId, x.nonce, a.nonceB, a.timestamp);
    if Verify(s.lib, x.manifest, a.claimedNode, p, a.sig, x.livePeer, A, x.nonce, a.nonceB, a.now).None?
        && s.lib.builds(p) {
      AcceptedIsGenuine(s, w, x, a.claimedNode, p, a.sig, x.nonce, a.nonceB, a.now);
      SigningKeepsInv(s, w, a.id, p);
    }
    ClosingKeepsInv(s, w, a.id);
  }

  lemma AuthAKeepsInv(s: Setting, w: World, a: Action)
    requires Sound(s) && Inv(s, w) && Enabled(s, w, a) && a.AuthA?
    ensures Inv(s, Step(s, w, a))
  {
    var v := Step(s, w, a);
    var x := w.sessions[a.id];
    assert SessionInv(s, w, x);
    if v.sessions[a.id].accepted {
      AcceptedIsGenuine(s, w, x, x.signed.value.nodeA, x.signed.value, a.sig, x.nonce, x.signed.value.nonceA, a.now);
    }
    OneSession(s, w, v, a.id, v.sessions[a.id]);
  }

  lemma StepKeepsInv(s: Setting, w: World, a: Action)
    requires Sound(s) && Inv(s, w) && Enabled(s, w, a)
    ensures Inv(s, Step(s, w, a))
  {
    var v := Step(s, w, a);
    match a
    case Dial(_, _, _, _, _, _) => DialKeepsInv(s, w, a);
    case Hello(_, _, _, _, _, _, _, _) => HelloKeepsInv(s, w, a);
    case AuthB(_, _, _, _, _, _, _) => AuthBKeepsInv(s, w, a);
    case AuthA(_, _, _) => AuthAKeepsInv(s, w, a);
    case Request(_) => LogsKeepInv(s, w, v);
    case Serve(_) => LogsKeepInv(s, w, v);
    case Close(id) => ClosingKeepsInv(s, w, id);
  }

  lemma LogsKeepInv(s: Setting, w: World, v: World)
    requires Inv(s, w) && v.sessions == w.sessions && v.signatures == w.signatures && v.minted == w.minted
    requires forall id :: id in v.requested - w.requested ==>
      id in w.sessions && w.sessions[id].slot == A && w.sessions[id].accepted
    requires forall id :: id in v.served - w.served ==>
      id in w.sessions && w.sessions[id].slot == B && w.sessions[id].accepted
    ensures Inv(s, v)
  {
    forall id | id in v.sessions ensures SessionInv(s, v, v.sessions[id]) { SessionInvStays(s, w, v, w.sessions[id]); }
    forall sig | sig in v.signatures ensures exists id :: Made(v, id, sig) {
      var id :| Made(w, id, sig);
      assert Made(v, id, sig);
    }
  }

  lemma {:induction false} EveryRun(s: Setting, actions: seq<Action>)
    requires Sound(s)
    ensures Inv(s, Run(s, actions))
  {
    if actions != [] {
      EveryRun(s, actions[..|actions| - 1]);
      var w := Run(s, actions[..|actions| - 1]);
      if Enabled(s, w, actions[|actions| - 1]) {
        StepKeepsInv(s, w, actions[|actions| - 1]);
      }
    }
  }

  // ----- agreement -----

  /** A session of `node` in `slot` signed exactly these parameters. */
  ghost predicate Signed(w: World, id: nat, node: string, slot: Slot, p: Params) {
    id in w.sessions && w.sessions[id].self.nodeId == node && w.sessions[id].slot == slot
        && w.sessions[id].signed == Some(p)
  }

  ghost predicate ExactlyOne(w: World, node: string, slot: Slot, p: Params) {
    && (exists id :: Signed(w, id, node, slot, p))
    && (forall i, j :: Signed(w, i, node, slot, p) && Signed(w, j, node, slot, p) ==> i == j)
  }

  function Other(slot: Slot): Slot { if slot == A then B else A }

  lemma AcceptedAgrees(s: Setting, w: World, id: nat)
    requires Sound(s) && Inv(s, w) && id in w.sessions && w.sessions[id].accepted
    ensures var x := w.sessions[id];
      && x.signed.Some? && PeerPeer(x.signed.value, x.slot) == x.livePeer
      && (PeerNode(x.signed.value, x.slot) in s.honest ==>
            ExactlyOne(w, PeerNode(x.signed.value, x.slot), Other(x.slot), x.signed.value))
  {
    var x := w.sessions[id];
    assert SessionInv(s, w, x);
    var p := x.signed.value;
    var node := PeerNode(p, x.slot);
    if node in s.honest {
      var k :| Made(w, k, Signature(s.honest[node].key, p));
      var y := w.sessions[k];
      assert SessionInv(s, w, y);
      assert y.self.nodeId == node && y.slot == Other(x.slot);
      assert Signed(w, k, node, Other(x.slot), p);
      forall i, j | Signed(w, i, node, Other(x.slot), p) && Signed(w, j, node, Other(x.slot), p) ensures i == j {
        assert SessionInv(s, w, w.sessions[i]) && SessionInv(s, w, w.sessions[j]);
      }
    }
  }

  /** On every run: a responder that served a round frame agreed with exactly one dialer session
      of the claimed honest node on both node ids, both peer ids, both nonces and the timestamp;
      and that dialer's signature opened this responder session and no other. */
  lemma ResponderAgreement(s: Setting, actions: seq<Action>, id: nat)
    requires Sound(s) && id in Run(s, actions).served
    ensures var w := Run(s, actions);
      && id in w.sessions && w.sessions[id].signed.Some?
      && var p := w.sessions[id].signed.value;
         && p.nodeB == w.sessions[id].self.nodeId && p.peerA == w.sessions[id].livePeer
         && p.nonceB == w.sessions[id].nonce
         && (p.nodeA in s.honest ==> ExactlyOne(w, p.nodeA, A, p))
         && forall j :: j in w.served && j in w.sessions && w.sessions[j].signed == Some(p) ==> j == id
  {
    var w := Run(s, actions);
    EveryRun(s, actions);
    AcceptedAgrees(s, w, id);
    assert SessionInv(s, w, w.sessions[id]);
    forall j | j in w.served && w.sessions[j].signed == w.sessions[id].signed ensures j == id {
      assert SessionInv(s, w, w.sessions[j]);
    }
  }

  /** And symmetrically for a dialer before its first request. */
  lemma DialerAgreement(s: Setting, actions: seq<Action>, id: nat)
    requires Sound(s) && id in Run(s, actions).requested
    ensures var w := Run(s, actions);
      && id in w.sessions && w.sessions[id].signed.Some?
      && var p := w.sessions[id].signed.value;
         && p.nodeA == w.sessions[id].self.nodeId && p.peerB == w.sessions[id].livePeer
         && p.nonceA == w.sessions[id].nonce
         && (p.nodeB in s.honest ==> ExactlyOne(w, p.nodeB, B, p))
         && forall j :: j in w.requested && j in w.sessions && w.sessions[j].signed == Some(p) ==> j == id
  {
    var w := Run(s, actions);
    EveryRun(s, actions);
    AcceptedAgrees(s, w, id);
    assert SessionInv(s, w, w.sessions[id]);
    forall j | j in w.requested && w.sessions[j].signed == w.sessions[id].signed ensures j == id {
      assert SessionInv(s, w, w.sessions[j]);
    }
  }

  // ----- honest peers get through -----

  lemma RunOneMore(s: Setting, actions: seq<Action>, a: Action)
    requires Enabled(s, Run(s, actions), a)
    ensures Run(s, actions + [a]) == Step(s, Run(s, actions), a)
  {
    assert (actions + [a])[..|actions|] == actions;
  }

  ghost predicate Pins(manifest: seq<Pinned>, x: Identity) {
    Find(manifest, x.nodeId) == Some(Pinned(x.nodeId, x.key, x.peerId)) && x.key != "" && x.peerId != ""
  }

  /** Two honest nodes that pin each other, on an undisturbed connection, complete the handshake
      and exchange round frames. */
  lemma HonestHandshakeCompletes(s: Setting, a: string, b: string, manifest: seq<Pinned>, nonceA: string,
                                 nonceB: string, timestamp: string, now: int)
    returns (actions: seq<Action>)
    requires Sound(s) && a in s.honest && b in s.honest && a != b && s.honest[a].peerId != s.honest[b].peerId
    requires PinsRightKeys(s, manifest) && Pins(manifest, s.honest[a]) && Pins(manifest, s.honest[b])
    requires nonceA != nonceB && Fresh(s.lib, timestamp, now)
    requires s.lib.builds(Params(a, b, s.honest[a].peerId, s.honest[b].peerId, nonceA, nonceB, timestamp))
    ensures 0 in Run(s, actions).requested && 1 in Run(s, actions).served
  {
    var p := Params(a, b, s.honest[a].peerId, s.honest[b].peerId, nonceA, nonceB, timestamp);
    var dial := Dial(0, a, b, s.honest[b].peerId, manifest, nonceA);
    var hello := Hello(1, b, a, nonceA, s.honest[a].peerId, manifest, nonceB, timestamp);
    var authB := AuthB(0, b, s.honest[b].peerId, nonceB, timestamp, Signature(s.honest[b].key, p), now);
    var authA := AuthA(1, Signature(s.honest[a].key, p), now);
    var s1 := [] + [dial];
    RunOneMore(s, [], dial);
    var w1 := Run(s, s1);
    var s2 := s1 + [hello];
    RunOneMore(s, s1, hello);
    var w2 := Run(s, s2);
    assert w2.sessions[1].signed == Some(p);
    var s3 := s2 + [authB];
    RunOneMore(s, s2, authB);
    var w3 := Run(s, s3);
    assert w3.sessions[0].accepted;
    var s4 := s3 + [authA];
    RunOneMore(s, s3, authA);
    var w4 := Run(s, s4);
    assert w4.sessions[1].accepted;
    RunOneMore(s, s4, Request(0));
    RunOneMore(s, s4 + [Request(0)], Serve(1));
    actions := s4 + [Request(0)] + [Serve(1)];
  }
}
