/** The anti-entropy wire: what the responder answers, and the dialer's view of a peer that may
    answer anything. A peer is a script of replies per round; within one round every request is
    made at most once, so a reply per request describes any behaviour. */
module Channel {
  import opened Ordering
  import opened Reconciliation
  import opened Merges
  import opened Rows
  import opened Store

  /** A reply that arrived, a failure of the wire (an `AeProtocolError`: a timeout, a malformed,
      oversized or unexpected frame), or any other failure. */
  datatype Reply<+T> = Got(value: T) | WireFailed | OtherFailed

  /** One digest per table, as the entries of the advertised objects. */
  datatype WireState = WireState(tierA: seq<Entry>, tierB: seq<Entry>)

  datatype Request =
    | StateReq
    | BucketsReq(table: string)
    | BucketHashesReq(table: string, buckets: set<nat>)
    | VersionsReq(table: string)
    | PullA(table: string, hashes: seq<string>)
    | PullB(table: string, keys: seq<string>)

  datatype Script = Script(
    state: Reply<WireState>,
    buckets: string -> Reply<seq<string>>,
    bucketHashes: (string, set<nat>) -> Reply<seq<string>>,
    versions: string -> Reply<seq<Entry>>,
    pullA: (string, seq<string>) -> Reply<seq<RecordA>>,
    pullB: (string, seq<string>) -> Reply<seq<RecordB>>)

  /** Maps decode to maps, whatever the peer sends. */
  ghost predicate Shaped(s: Script) {
    && (s.state.Got? ==> KeysOnce(s.state.value.tierA) && KeysOnce(s.state.value.tierB))
    && forall t :: s.versions(t).Got? ==> KeysOnce(s.versions(t).value)
  }

  function Digest(entries: seq<Entry>, t: string): Option<string> {
    if entries == [] then None
    else if entries[|entries| - 1].0 == t then Some(entries[|entries| - 1].1)
    else Digest(entries[..|entries| - 1], t)
  }

  lemma {:induction false} DigestFinds(entries: seq<Entry>, t: string, d: string)
    requires KeysOnce(entries)
    ensures Digest(entries, t) == Some(d) <==> (t, d) in entries
  {
    if entries != [] {
      var n := |entries| - 1;
      DigestFinds(entries[..n], t, d);
      assert entries == entries[..n] + [entries[n]];
      assert entries[n] == (entries[n].0, entries[n].1);
    }
  }

  // ----- keeping only what was asked for, once -----

  function Keep<R>(name: R -> string, raw: seq<R>, requested: seq<string>): seq<R> {
    if raw == [] then []
    else
      var n := |raw| - 1;
      var kept := Keep(name, raw[..n], requested);
      if name(raw[n]) in requested && name(raw[n]) !in Labels(name, kept) then kept + [raw[n]] else kept
  }

  function Labels<R>(name: R -> string, records: seq<R>): seq<string> {
    seq(|records|, i requires 0 <= i < |records| => name(records[i]))
  }

  /** Whatever the peer serves, the kept records are served ones, requested, and each once;
      and a requested label is kept exactly when the peer served it. */
  lemma {:induction false} KeptAreRequestedOnce<R>(name: R -> string, raw: seq<R>, requested: seq<string>)
    ensures var kept := Keep(name, raw, requested);
      && Distinct(Labels(name, kept))
      && (forall r :: r in kept ==> r in raw)
      && (forall h :: h in Labels(name, kept) <==> h in requested && h in Labels(name, raw))
  {
    if raw != [] {
      var n := |raw| - 1;
      KeptAreRequestedOnce(name, raw[..n], requested);
      var before, kept := Keep(name, raw[..n], requested), Keep(name, raw, requested);
      assert raw == raw[..n] + [raw[n]];
      assert Labels(name, raw) == Labels(name, raw[..n]) + [name(raw[n])];
      if kept != before {
        assert Labels(name, kept) == Labels(name, before) + [name(raw[n])];
      }
    }
  }

  /** Of records served under one label the first is kept. */
  lemma {:induction false} KeptAreTheFirst<R>(name: R -> string, raw: seq<R>, requested: seq<string>, r: R)
    requires r in Keep(name, raw, requested)
    ensures exists i :: 0 <= i < |raw| && raw[i] == r && forall j :: 0 <= j < i ==> name(raw[j]) != name(r)
  {
    var n := |raw| - 1;
    var before := raw[..n];
    KeptAreRequestedOnce(name, before, requested);
    if r in Keep(name, before, requested) {
      KeptAreTheFirst(name, before, requested, r);
      var i :| 0 <= i < n && before[i] == r && forall j :: 0 <= j < i ==> name(before[j]) != name(r);
      assert raw[i] == r && forall j :: 0 <= j < i ==> raw[j] == before[j];
    } else {
      forall j | 0 <= j < n ensures name(raw[j]) != name(r) {
        assert Labels(name, before)[j] == name(raw[j]);
      }
      assert raw[n] == r;
    }
  }

  /** Never more than was asked for; as many only if everything asked for was served. */
  lemma KeptCount<R>(name: R -> string, raw: seq<R>, requested: seq<string>)
    requires Distinct(requested)
    ensures |Keep(name, raw, requested)| <= |requested|
    ensures |Keep(name, raw, requested)| == |requested| <==> forall h :: h in requested ==> h in Labels(name, raw)
  {
    KeptAreRequestedOnce(name, raw, requested);
    var got := Labels(name, Keep(name, raw, requested));
    DistinctLength(got);
    DistinctLength(requested);
    assert Elements(got) <= Elements(requested);
    SubsetSize(Elements(got), Elements(requested));
    if |got| == |requested| {
      assert Elements(got) == Elements(requested);
      forall h | h in requested ensures h in Labels(name, raw) {
        assert h in Elements(requested) && h in Elements(got);
      }
    }
    if forall h :: h in requested ==> h in Labels(name, raw) {
      assert Elements(got) == Elements(requested);
    }
  }

  method FilterServed<R>(name: R -> string, raw: seq<R>, requested: seq<string>) returns (kept: seq<R>)
    ensures kept == Keep(name, raw, requested)
  {
    var wanted := set h | h in requested;
    var seen: set<string> := {};
    kept := [];
    for n := 0 to |raw|
      invariant kept == Keep(name, raw[..n], requested)
      invariant forall h :: h in seen <==> h in Labels(name, kept)
    {
      assert raw[..n + 1][..n] == raw[..n];
      if name(raw[n]) in wanted && name(raw[n]) !in seen {
        assert Labels(name, kept + [raw[n]]) == Labels(name, kept) + [name(raw[n])];
        seen := seen + {name(raw[n])};
        kept := kept + [raw[n]];
      }
    }
    assert raw[..|raw|] == raw;
  }

  // ----- the bucket walk -----

  /** The dialer's hash list for a table whose digest differs: it reads its own hashes a second
      time, and asks only for the buckets that differ. */
  ghost function Walk(sha: string -> string, s: Script, reread: set<string>, t: string,
                      mine: seq<string>): Reply<seq<string>>
    requires AllWellFormed(mine)
  {
    match s.buckets(t)
    case Got(theirs) =>
      if t in reread then OtherFailed
      else
        var want := DifferingSet(BucketVector(sha, mine), theirs);
        if want == {} then Got([]) else s.bucketHashes(t, want)
    case WireFailed => WireFailed
    case OtherFailed => OtherFailed
  }

  ghost predicate AnswersFrom(sha: string -> string, s: Script, t: string, theirs: seq<string>)
    requires AllWellFormed(theirs)
  {
    && s.buckets(t) == Got(BucketVector(sha, theirs))
    && forall want :: s.bucketHashes(t, want) == Got(InBuckets(theirs, want))
  }

  lemma {:induction false} NoBucketsNoHashes(s: seq<string>)
    requires AllWellFormed(s)
    ensures InBuckets(s, {}) == []
  {
    if s != [] {
      NoBucketsNoHashes(s[..|s| - 1]);
    }
  }

  /** Over the wire, against a peer answering from its table, the walk ends in the very plan a
      full hash list would have given. */
  lemma WalkIsFullExchange(sha: string -> string, s: Script, reread: set<string>, t: string, mine: seq<string>,
                           theirs: seq<string>)
    requires AllWellFormed(mine) && AllWellFormed(theirs) && AnswersFrom(sha, s, t, theirs) && t !in reread
    requires CollisionFree(sha, HashedTexts(sha, mine, theirs))
    ensures Walk(sha, s, reread, t, mine).Got?
    ensures MissingLocally(mine, Walk(sha, s, reread, t, mine).value) == MissingLocally(mine, theirs)
  {
    var want := DifferingSet(BucketVector(sha, mine), BucketVector(sha, theirs));
    BucketWalkIsExact(sha, mine, theirs);
    NoBucketsNoHashes(theirs);
  }

  // ----- the dialer's view of its peer -----

  predicate Walks(r: Request, t: string) {
    (r.BucketsReq? || r.BucketHashesReq?) && r.table == t
  }

  class RemoteStoreView {
    const scripts: nat -> Script
    const local: Database
    const sha: string -> string
    var round: nat
    var state: WireState
    var sent: seq<Request>

    constructor (scripts: nat -> Script, local: Database, sha: string -> string)
      ensures this.scripts == scripts && this.local == local && this.sha == sha
      ensures round == 0 && state == WireState([], []) && sent == []
    {
      this.scripts, this.local, this.sha := scripts, local, sha;
      round, state, sent := 0, WireState([], []), [];
    }

    /** The peer's replies in the current round. */
    function Peer(): Script
      reads this`round
    {
      scripts(round)
    }

    /** `refresh`: opens the next round with a fresh advertisement, kept only if it arrives. */
    method Refresh() returns (ok: bool)
      modifies this
      ensures sent == old(sent) + [StateReq] && round == old(round) + 1 && (ok <==> Peer().state.Got?)
      ensures state == if ok then Peer().state.value else old(state)
    {
      sent, round := sent + [StateReq], round + 1;
      ok := Peer().state.Got?;
      if ok {
        state := Peer().state.value;
      }
    }

    /** `tierARecordHashes`: the bucket walk. */
    method RecordHashes(t: string) returns (r: Reply<seq<string>>)
      modifies this`sent
      ensures r == Walk(sha, Peer(), local.faults.rereadA, t, Hashes(local.schema.specA(t), TableOf(local.tables, t).a))
      ensures old(sent) <= sent && forall f :: f in sent[|old(sent)|..] ==> Walks(f, t)
    {
      sent := sent + [BucketsReq(t)];
      var theirs := Peer().buckets(t);
      if !theirs.Got? {
        return if theirs.WireFailed? then WireFailed else OtherFailed;
      }
      if t in local.faults.rereadA {
        return OtherFailed;
      }
      var mine := BucketDigests(sha, Hashes(local.schema.specA(t), TableOf(local.tables, t).a));
      var want := DifferingBuckets(mine.value, theirs.value);
      if |want| == 0 {
        assert Elements(want) == {};
        return Got([]);
      }
      assert want[0] in Elements(want);
      var wanted := set k | k in want;
      sent := sent + [BucketHashesReq(t, wanted)];
      r := Peer().bucketHashes(t, wanted);
    }

    /** `tierBVersions`. */
    method VersionMap(t: string) returns (r: Reply<seq<Entry>>)
      modifies this`sent
      ensures r == Peer().versions(t) && sent == old(sent) + [VersionsReq(t)]
    {
      sent := sent + [VersionsReq(t)];
      r := Peer().versions(t);
    }

    /** `serveTierA`: what the peer served, cut down to what was asked for. */
    method ServeTierA(t: string, hashes: seq<string>) returns (r: Reply<seq<RecordA>>)
      modifies this`sent
      ensures r == ServedA(Peer(), t, hashes) && sent == old(sent) + [PullA(t, hashes)]
    {
      sent := sent + [PullA(t, hashes)];
      r := Peer().pullA(t, hashes);
      if r.Got? {
        var kept := FilterServed(HashOf, r.value, hashes);
        r := Got(kept);
      }
    }

    method ServeTierB(t: string, keys: seq<string>) returns (r: Reply<seq<RecordB>>)
      modifies this`sent
      ensures r == ServedB(Peer(), t, keys) && sent == old(sent) + [PullB(t, keys)]
    {
      sent := sent + [PullB(t, keys)];
      r := Peer().pullB(t, keys);
      if r.Got? {
        var kept := FilterServed(KeyOf, r.value, keys);
        r := Got(kept);
      }
    }
  }

  function HashOf(r: RecordA): string { r.hash }
  function KeyOf(r: RecordB): string { r.key }

  function ServedA(s: Script, t: string, hashes: seq<string>): Reply<seq<RecordA>> {
    match s.pullA(t, hashes)
    case Got(raw) => Got(Keep(HashOf, raw, hashes))
    case WireFailed => WireFailed
    case OtherFailed => OtherFailed
  }

  function ServedB(s: Script, t: string, keys: seq<string>): Reply<seq<RecordB>> {
    match s.pullB(t, keys)
    case Got(raw) => Got(Keep(KeyOf, raw, keys))
    case WireFailed => WireFailed
    case OtherFailed => OtherFailed
  }

  // ----- the responder -----

  /** The registry's readable tables, in order, with their digests. */
  function Advertisement(tables: seq<string>, unreadable: set<string>, digest: string -> string): seq<Entry> {
    if tables == [] then []
    else
      var n := |tables| - 1;
      var before := Advertisement(tables[..n], unreadable, digest);
      if tables[n] in unreadable then before else before + [(tables[n], digest(tables[n]))]
  }

  /** A table is advertised exactly when it is registered and its digest could be read. */
  lemma {:induction false} AdvertisedExactly(tables: seq<string>, unreadable: set<string>, digest: string -> string)
    requires Distinct(tables)
    ensures KeysOnce(Advertisement(tables, unreadable, digest))
    ensures forall t, d :: (t, d) in Advertisement(tables, unreadable, digest) <==>
      t in tables && t !in unreadable && d == digest(t)
  {
    if tables != [] {
      var n := |tables| - 1;
      AdvertisedExactly(tables[..n], unreadable, digest);
      assert tables == tables[..n] + [tables[n]];
      var before := Advertisement(tables[..n], unreadable, digest);
      forall i | 0 <= i < |before| ensures before[i].0 in tables[..n] {
        assert before[i] == (before[i].0, before[i].1) && before[i] in before;
      }
    }
  }

  /** `buildWireState` for one tier. */
  method Advertise(tables: seq<string>, unreadable: set<string>, digest: string -> string)
    returns (entries: seq<Entry>, skipped: seq<string>)
    ensures entries == Advertisement(tables, unreadable, digest)
    ensures forall t :: t in skipped <==> t in tables && t in unreadable
  {
    entries, skipped := [], [];
    for n := 0 to |tables|
      invariant entries == Advertisement(tables[..n], unreadable, digest)
      invariant forall t :: t in skipped <==> t in tables[..n] && t in unreadable
    {
      assert tables[..n + 1][..n] == tables[..n];
      if tables[n] in unreadable {
        skipped := skipped + [tables[n]];
      } else {
        entries := entries + [(tables[n], digest(tables[n]))];
      }
    }
    assert tables[..|tables|] == tables;
  }

  /** `serveTierA` of the store: the rows whose hash was asked for, in table order. */
  function Serve(spec: SpecA, rows: RowsA, want: seq<string>): seq<RecordA> {
    if rows == [] then []
    else
      var n := |rows| - 1;
      var before := Serve(spec, rows[..n], want);
      if spec.hashOf(rows[n]) in want then before + [RecordA(spec.hashOf(rows[n]), rows[n])] else before
  }

  /** In table order. */
  lemma {:induction false} ServedInOrder(spec: SpecA, rows: RowsA, more: RowsA, want: seq<string>)
    ensures Serve(spec, rows + more, want) == Serve(spec, rows, want) + Serve(spec, more, want)
  {
    if more == [] {
      assert rows + more == rows;
    } else {
      var n := |more| - 1;
      ServedInOrder(spec, rows, more[..n], want);
      assert (rows + more)[..|rows + more| - 1] == rows + more[..n];
    }
  }

  lemma {:induction false} ServedAreTheRows(spec: SpecA, rows: RowsA, want: seq<string>)
    ensures forall r :: r in Serve(spec, rows, want) <==>
      r.body in rows && r.hash == spec.hashOf(r.body) && r.hash in want
  {
    if rows != [] {
      var n := |rows| - 1;
      ServedAreTheRows(spec, rows[..n], want);
      assert rows == rows[..n] + [rows[n]];
    }
  }

  method ServeRows(spec: SpecA, rows: RowsA, want: seq<string>) returns (out: seq<RecordA>)
    ensures out == Serve(spec, rows, want)
  {
    var wanted := set h | h in want;
    out := [];
    for n := 0 to |rows|
      invariant out == Serve(spec, rows[..n], want)
    {
      assert rows[..n + 1][..n] == rows[..n];
      var hash := spec.hashOf(rows[n]);
      if hash in wanted {
        out := out + [RecordA(hash, rows[n])];
      }
    }
    assert rows[..|rows|] == rows;
  }
}
