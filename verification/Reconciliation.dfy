/** Set and version-map reconciliation: what one directory node must pull from
    another, and the digests that let it find out cheaply. SHA-256 is a function
    parameter; it is assumed collision free only on the finitely many texts the
    two nodes under comparison actually hash. */
module Reconciliation {
  import opened Ordering

  datatype Outcome<+T> = Done(value: T) | Thrown(reason: string)

  const BUCKET_COUNT := 256
  const HASH_CHARS := 64

  function HexValue(c: char): nat {
    if '0' <= c <= '9' then c as int - '0' as int
    else if 'a' <= c <= 'f' then c as int - 'a' as int + 10
    else 0
  }

  predicate IsHex(c: char) {
    '0' <= c <= '9' || 'a' <= c <= 'f'
  }

  /** 64 lowercase hex characters. */
  predicate WellFormed(h: string) {
    |h| == HASH_CHARS && forall c :: c in h ==> IsHex(c)
  }

  /** 64 characters, each one of the sixteen lower-case hex digits. */
  lemma WellFormedExactly(h: string)
    ensures WellFormed(h) <==> |h| == 64 && forall c :: c in h ==> c in HEX_DIGITS
  {
    forall c ensures IsHex(c) <==> c in HEX_DIGITS { HexDigitsExactly(c); }
  }

  const HEX_DIGITS: set<char> := {'0', '1', '2', '3', '4', '5', '6', '7', '8', '9', 'a', 'b', 'c', 'd', 'e', 'f'}

  lemma HexDigitsExactly(c: char)
    ensures IsHex(c) <==> c in HEX_DIGITS
  {
  }

  predicate AllWellFormed(hashes: seq<string>) {
    forall h :: h in hashes ==> WellFormed(h)
  }

  /** The first byte of a record hash. */
  function BucketIndex(h: string): (b: nat)
    requires WellFormed(h)
    ensures b < BUCKET_COUNT
  {
    assert h[0] in h && h[1] in h;
    16 * HexValue(h[0]) + HexValue(h[1])
  }

  /** The bucket is the rank of the first two digits: 256 buckets, in the order of the hashes. */
  lemma BucketsAreInOrder(g: string, h: string)
    requires WellFormed(g) && WellFormed(h)
    ensures 0 <= BucketIndex(g) < 256
    ensures BucketIndex(g) < BucketIndex(h) <==> g[0] < h[0] || (g[0] == h[0] && g[1] < h[1])
    ensures BucketIndex(g) == BucketIndex(h) <==> g[0] == h[0] && g[1] == h[1]
  {
    assert g[0] in g && g[1] in g && h[0] in h && h[1] in h;
  }

  // ----- sequences as sets -----

  function Dedup<T(==)>(s: seq<T>): seq<T> {
    if s == [] then []
    else
      var d := Dedup(s[..|s| - 1]);
      if s[|s| - 1] in d then d else d + [s[|s| - 1]]
  }

  lemma {:induction false} DedupKeepsElements<T>(s: seq<T>)
    ensures Distinct(Dedup(s))
    ensures forall x :: x in Dedup(s) <==> x in s
  {
    if s != [] {
      DedupKeepsElements(s[..|s| - 1]);
      assert s == s[..|s| - 1] + [s[|s| - 1]];
    }
  }

  /** The elements of `s` outside `excluded`, in order. */
  function Without(s: seq<string>, excluded: set<string>): seq<string> {
    if s == [] then []
    else
      var r := Without(s[..|s| - 1], excluded);
      if s[|s| - 1] in excluded then r else r + [s[|s| - 1]]
  }

  lemma {:induction false} WithoutElements(s: seq<string>, excluded: set<string>)
    ensures forall x :: x in Without(s, excluded) <==> x in s && x !in excluded
  {
    if s != [] {
      WithoutElements(s[..|s| - 1], excluded);
      assert s == s[..|s| - 1] + [s[|s| - 1]];
    }
  }

  // ----- Tier A: bucket digests -----

  /** The hashes of `s` that fall into one of the `wanted` buckets, in order. */
  function InBuckets(s: seq<string>, wanted: set<nat>): seq<string>
    requires AllWellFormed(s)
  {
    if s == [] then []
    else
      var r := InBuckets(s[..|s| - 1], wanted);
      if BucketIndex(s[|s| - 1]) in wanted then r + [s[|s| - 1]] else r
  }

  lemma {:induction false} InBucketsElements(s: seq<string>, wanted: set<nat>)
    requires AllWellFormed(s)
    ensures forall x :: x in InBuckets(s, wanted) <==> x in s && BucketIndex(x) in wanted
  {
    if s != [] {
      InBucketsElements(s[..|s| - 1], wanted);
      assert s == s[..|s| - 1] + [s[|s| - 1]];
    }
  }

  lemma {:induction false} InBucketsDistinct(s: seq<string>, wanted: set<nat>)
    requires AllWellFormed(s) && Distinct(s)
    ensures Distinct(InBuckets(s, wanted))
  {
    if s != [] {
      InBucketsDistinct(s[..|s| - 1], wanted);
      InBucketsElements(s[..|s| - 1], wanted);
    }
  }

  function Join(s: seq<string>): string {
    if s == [] then "" else s[0] + Join(s[1..])
  }

  /** The separator-less join is unambiguous because every part has 64 characters. */
  lemma {:induction false} JoinIsInjective(s: seq<string>, t: seq<string>)
    requires forall i :: 0 <= i < |s| ==> |s[i]| == HASH_CHARS
    requires forall i :: 0 <= i < |t| ==> |t[i]| == HASH_CHARS
    requires Join(s) == Join(t)
    ensures s == t
  {
    if s != [] && t != [] {
      var js, jt := Join(s), Join(t);
      assert s[0] == js[..HASH_CHARS] == jt[..HASH_CHARS] == t[0];
      assert Join(s[1..]) == js[HASH_CHARS..] == jt[HASH_CHARS..] == Join(t[1..]);
      JoinIsInjective(s[1..], t[1..]);
      assert s == [s[0]] + s[1..] && t == [t[0]] + t[1..];
    }
  }

  /** The text one bucket hashes: its distinct hashes, sorted, joined. */
  function BucketText(hashes: seq<string>, i: nat): string
    requires AllWellFormed(hashes)
  {
    DedupKeepsElements(hashes);
    Join(Sort(LexLe, InBuckets(Dedup(hashes), {i})))
  }

  function BucketVector(sha: string -> string, hashes: seq<string>): (v: seq<string>)
    requires AllWellFormed(hashes)
    ensures |v| == BUCKET_COUNT
  {
    seq(BUCKET_COUNT, i requires 0 <= i => sha(BucketText(hashes, i)))
  }

  function TableDigest(sha: string -> string, hashes: seq<string>): string
    requires AllWellFormed(hashes)
  {
    sha(Join(BucketVector(sha, hashes)))
  }

  /** What a bucket's digest covers: the hashes of that bucket, each once, ascending, run together. */
  lemma BucketTextIsSorted(hashes: seq<string>, i: nat) returns (sorted: seq<string>)
    requires AllWellFormed(hashes)
    ensures BucketText(hashes, i) == Join(sorted) && Distinct(sorted)
    ensures forall h :: h in sorted <==> h in hashes && BucketIndex(h) == i
    ensures forall j, k :: 0 <= j < k < |sorted| ==> TextBefore(sorted[j], sorted[k])
  {
    DedupKeepsElements(hashes);
    var inside := InBuckets(Dedup(hashes), {i});
    sorted := Sort(LexLe, inside);
    SortIsPermutation(LexLe, inside);
    LexIsTotalOrder();
    SortIsSorted(LexLe, inside);
    InBucketsElements(Dedup(hashes), {i});
    InBucketsDistinct(Dedup(hashes), {i});
    PermutationStaysDistinct(inside, sorted);
    forall h ensures h in sorted <==> h in hashes && BucketIndex(h) == i {
      assert h in multiset(sorted) <==> h in multiset(inside);
      assert h in Elements(Dedup(hashes)) <==> h in Elements(hashes);
    }
    forall j, k | 0 <= j < k < |sorted| ensures TextBefore(sorted[j], sorted[k]) {
      assert LexLe(sorted[j], sorted[k]);
      LexLeIsTextOrder(sorted[j], sorted[k]);
    }
  }

  ghost predicate SameBucket(s: seq<string>, t: seq<string>, i: nat)
    requires AllWellFormed(s) && AllWellFormed(t)
  {
    forall h | WellFormed(h) && BucketIndex(h) == i :: h in s <==> h in t
  }

  lemma SortedBucket(hashes: seq<string>, i: nat) returns (r: seq<string>)
    requires AllWellFormed(hashes)
    ensures BucketText(hashes, i) == Join(r)
    ensures Distinct(r) && SortedBy(LexLe, r)
    ensures forall x :: x in r <==> x in hashes && BucketIndex(x) == i
  {
    DedupKeepsElements(hashes);
    var b := InBuckets(Dedup(hashes), {i});
    InBucketsElements(Dedup(hashes), {i});
    InBucketsDistinct(Dedup(hashes), {i});
    r := Sort(LexLe, b);
    SortIsPermutation(LexLe, b);
    LexIsTotalOrder();
    SortIsSorted(LexLe, b);
    forall x ensures x in r <==> x in b {
      assert x in multiset(r) <==> x in multiset(b);
    }
    PermutationStaysDistinct(b, r);
  }

  lemma DistinctSortedSameElements(r: seq<string>, t: seq<string>)
    requires Distinct(r) && Distinct(t) && SortedBy(LexLe, r) && SortedBy(LexLe, t)
    requires forall x :: x in r <==> x in t
    ensures r == t
  {
    forall x ensures multiset(r)[x] == multiset(t)[x] {
      DistinctCountsOnce(r, x);
      DistinctCountsOnce(t, x);
      assert x in multiset(r) <==> x in r;
      assert x in multiset(t) <==> x in t;
    }
    LexIsTotalOrder();
    SortedArrangementIsUnique(LexLe, r, t);
  }

  /** A bucket's hashed text is the same exactly when the bucket holds the same hashes:
      order and repetition in the lists do not matter. */
  lemma BucketTextIsExact(s: seq<string>, t: seq<string>, i: nat)
    requires AllWellFormed(s) && AllWellFormed(t)
    ensures BucketText(s, i) == BucketText(t, i) <==> SameBucket(s, t, i)
  {
    var r := SortedBucket(s, i);
    var q := SortedBucket(t, i);
    if SameBucket(s, t, i) {
      DistinctSortedSameElements(r, q);
    }
    if Join(r) == Join(q) {
      assert forall k :: 0 <= k < |r| ==> r[k] in r;
      assert forall k :: 0 <= k < |q| ==> q[k] in q;
      JoinIsInjective(r, q);
    }
  }

  ghost predicate CollisionFree(sha: string -> string, texts: set<string>) {
    forall x, y :: x in texts && y in texts && sha(x) == sha(y) ==> x == y
  }

  /** Every text the two nodes hash to compare one Tier-A table. */
  ghost function HashedTexts(sha: string -> string, s: seq<string>, t: seq<string>): set<string>
    requires AllWellFormed(s) && AllWellFormed(t)
  {
    (set i: nat | i < BUCKET_COUNT :: BucketText(s, i))
    + (set i: nat | i < BUCKET_COUNT :: BucketText(t, i))
    + {Join(BucketVector(sha, s)), Join(BucketVector(sha, t))}
  }

  lemma BucketDigestIsExact(sha: string -> string, s: seq<string>, t: seq<string>, i: nat)
    requires AllWellFormed(s) && AllWellFormed(t) && i < BUCKET_COUNT
    requires CollisionFree(sha, HashedTexts(sha, s, t))
    ensures BucketVector(sha, s)[i] == BucketVector(sha, t)[i] <==> SameBucket(s, t, i)
  {
    BucketTextIsExact(s, t, i);
    assert BucketText(s, i) in HashedTexts(sha, s, t) && BucketText(t, i) in HashedTexts(sha, s, t);
  }

  /** Equal table digests mean equal record sets, and the converse. */
  lemma TableDigestIsExact(sha: string -> string, s: seq<string>, t: seq<string>)
    requires AllWellFormed(s) && AllWellFormed(t)
    requires forall x :: |sha(x)| == HASH_CHARS
    requires CollisionFree(sha, HashedTexts(sha, s, t))
    ensures TableDigest(sha, s) == TableDigest(sha, t) <==> Elements(s) == Elements(t)
  {
    var vs, vt := BucketVector(sha, s), BucketVector(sha, t);
    if Elements(s) == Elements(t) {
      forall i | 0 <= i < BUCKET_COUNT ensures vs[i] == vt[i] {
        assert forall h :: h in s <==> h in Elements(s);
        assert forall h :: h in t <==> h in Elements(t);
        BucketDigestIsExact(sha, s, t, i);
      }
      assert vs == vt;
    }
    if TableDigest(sha, s) == TableDigest(sha, t) {
      assert Join(vs) in HashedTexts(sha, s, t) && Join(vt) in HashedTexts(sha, s, t);
      JoinIsInjective(vs, vt);
      forall h ensures h in s <==> h in t {
        if h in s || h in t {
          BucketDigestIsExact(sha, s, t, BucketIndex(h));
        }
      }
    }
  }

  // ----- Tier A: what to pull -----

  /** `missingLocally`: the peer's hashes this node lacks, each once. */
  function MissingLocally(mine: seq<string>, peer: seq<string>): seq<string> {
    Dedup(Without(peer, Elements(mine)))
  }

  lemma MissingLocallyIsDifference(mine: seq<string>, peer: seq<string>)
    ensures Distinct(MissingLocally(mine, peer))
    ensures Elements(MissingLocally(mine, peer)) == Elements(peer) - Elements(mine)
  {
    WithoutElements(peer, Elements(mine));
    DedupKeepsElements(Without(peer, Elements(mine)));
  }

  ghost function DifferingSet(a: seq<string>, b: seq<string>): set<nat>
    requires |a| == BUCKET_COUNT
  {
    set i: nat | i < BUCKET_COUNT && (i >= |b| || a[i] != b[i])
  }

  lemma {:induction false} WithoutSkipsUnwantedBuckets(peer: seq<string>, mine: set<string>, wanted: set<nat>)
    requires AllWellFormed(peer)
    requires forall h :: h in peer && h !in mine ==> BucketIndex(h) in wanted
    ensures Without(InBuckets(peer, wanted), mine) == Without(peer, mine)
  {
    if peer != [] {
      var n := |peer| - 1;
      WithoutSkipsUnwantedBuckets(peer[..n], mine, wanted);
      var r := InBuckets(peer[..n], wanted);
      if BucketIndex(peer[n]) in wanted {
        assert InBuckets(peer, wanted) == r + [peer[n]];
        assert (r + [peer[n]])[..|r|] == r;
      }
    }
  }

  /** The bucket walk refines the full exchange: asking only for the hashes of the buckets
      whose digests differ yields the very list a full hash list would have yielded. */
  lemma BucketWalkIsExact(sha: string -> string, mine: seq<string>, peer: seq<string>)
    requires AllWellFormed(mine) && AllWellFormed(peer)
    requires CollisionFree(sha, HashedTexts(sha, mine, peer))
    ensures var wanted := DifferingSet(BucketVector(sha, mine), BucketVector(sha, peer));
      MissingLocally(mine, InBuckets(peer, wanted)) == MissingLocally(mine, peer)
  {
    var wanted := DifferingSet(BucketVector(sha, mine), BucketVector(sha, peer));
    forall h | h in peer && h !in Elements(mine) ensures BucketIndex(h) in wanted {
      BucketDigestIsExact(sha, mine, peer, BucketIndex(h));
      assert !SameBucket(mine, peer, BucketIndex(h));
    }
    WithoutSkipsUnwantedBuckets(peer, Elements(mine), wanted);
  }

  // ----- the loops that compute them -----

  /** `validatedSet`: throws exactly on a malformed hash. */
  method ValidatedSet(hashes: seq<string>) returns (r: Outcome<seq<string>>)
    ensures r.Thrown? <==> !AllWellFormed(hashes)
    ensures r.Done? ==> r.value == Dedup(hashes)
  {
    var seen: seq<string> := [];
    for n := 0 to |hashes|
      invariant seen == Dedup(hashes[..n])
      invariant AllWellFormed(hashes[..n])
    {
      assert hashes[..n + 1][..n] == hashes[..n];
      if !WellFormed(hashes[n]) {
        assert hashes[n] in hashes;
        return Thrown("malformed record hash");
      }
      if hashes[n] !in seen {
        seen := seen + [hashes[n]];
      }
    }
    assert hashes[..|hashes|] == hashes;
    r := Done(seen);
  }

  method FillBuckets(hashes: seq<string>) returns (buckets: array<seq<string>>)
    requires AllWellFormed(hashes)
    ensures fresh(buckets) && buckets.Length == BUCKET_COUNT
    ensures forall i :: 0 <= i < BUCKET_COUNT ==> buckets[i] == InBuckets(hashes, {i})
  {
    buckets := new seq<string>[BUCKET_COUNT](_ => []);
    for n := 0 to |hashes|
      invariant forall i :: 0 <= i < BUCKET_COUNT ==> buckets[i] == InBuckets(hashes[..n], {i})
    {
      assert hashes[..n + 1][..n] == hashes[..n];
      assert hashes[n] in hashes;
      var b := BucketIndex(hashes[n]);
      buckets[b] := buckets[b] + [hashes[n]];
    }
    assert hashes[..|hashes|] == hashes;
  }

  /** `bucketDigests`: one digest per bucket, an empty bucket included. */
  method BucketDigests(sha: string -> string, hashes: seq<string>) returns (r: Outcome<seq<string>>)
    ensures r.Thrown? <==> !AllWellFormed(hashes)
    ensures r.Done? ==> r.value == BucketVector(sha, hashes)
  {
    var validated := ValidatedSet(hashes);
    if validated.Thrown? {
      return Thrown(validated.reason);
    }
    DedupKeepsElements(hashes);
    var buckets := FillBuckets(validated.value);
    var digests: seq<string> := [];
    for i := 0 to BUCKET_COUNT
      invariant |digests| == i
      invariant forall k :: 0 <= k < i ==> digests[k] == BucketVector(sha, hashes)[k]
      invariant forall k :: 0 <= k < BUCKET_COUNT ==> buckets[k] == InBuckets(Dedup(hashes), {k})
    {
      assert BucketVector(sha, hashes)[i] == sha(BucketText(hashes, i));
      digests := digests + [sha(Join(Sort(LexLe, buckets[i])))];
    }
    r := Done(digests);
  }

  /** `differingBuckets`; a vector that is too short differs in its missing places. */
  method DifferingBuckets(a: seq<string>, b: seq<string>) returns (out: seq<nat>)
    requires |a| == BUCKET_COUNT
    ensures Distinct(out) && Elements(out) == DifferingSet(a, b)
  {
    out := [];
    for i := 0 to BUCKET_COUNT
      invariant Distinct(out)
      invariant forall k :: k in out <==> 0 <= k < i && (k >= |b| || a[k] != b[k])
    {
      if i >= |b| || a[i] != b[i] {
        out := out + [i];
      }
    }
  }

  // ----- Tier B: version maps -----

  type Entry = (string, string)

  predicate EntryLe(a: Entry, b: Entry) {
    LexLe(a.0, b.0)
  }

  ghost predicate Lists(entries: seq<Entry>, m: map<string, string>) {
    && Distinct(entries)
    && forall k, v :: (k, v) in entries <==> k in m && m[k] == v
  }

  /** `tierBTableDigest`: SHA-256 of the JSON text of the entries sorted by key. */
  function VersionDigest(sha: string -> string, json: seq<Entry> -> string, entries: seq<Entry>): string {
    sha(json(Sort(EntryLe, entries)))
  }

  lemma SameMapSortsAlike(s: seq<Entry>, t: seq<Entry>, m: map<string, string>)
    requires Lists(s, m) && Lists(t, m)
    ensures Sort(EntryLe, s) == Sort(EntryLe, t)
  {
    var rs, rt := Sort(EntryLe, s), Sort(EntryLe, t);
    SortIsPermutation(EntryLe, s);
    SortIsPermutation(EntryLe, t);
    forall x ensures multiset(s)[x] == multiset(t)[x] {
      DistinctCountsOnce(s, x);
      DistinctCountsOnce(t, x);
      assert x == (x.0, x.1);
      assert x in multiset(s) <==> x in multiset(t);
    }
    EntryLeIsPreorder();
    SortIsSorted(EntryLe, s);
    SortIsSorted(EntryLe, t);
    forall x, y | x in rs && y in rs && EntryLe(x, y) && EntryLe(y, x) ensures x == y {
      assert x in multiset(rs) && y in multiset(rs);
      assert (x.0, x.1) in s && (y.0, y.1) in s;
      LexAntisymmetric(x.0, y.0);
    }
    SortedArrangementIsUnique(EntryLe, rs, rt);
  }

  lemma EntryLeIsPreorder()
    ensures TotalPreorder(EntryLe)
  {
    forall x: Entry, y: Entry ensures EntryLe(x, y) || EntryLe(y, x) { LexTotal(x.0, y.0); }
    forall x, y, z | EntryLe(x, y) && EntryLe(y, z) ensures EntryLe(x, z) { LexTransitive(x.0, y.0, z.0); }
  }

  lemma SameSortIsSameMap(s: seq<Entry>, m: map<string, string>, t: seq<Entry>, n: map<string, string>)
    requires Lists(s, m) && Lists(t, n)
    requires Sort(EntryLe, s) == Sort(EntryLe, t)
    ensures m == n
  {
    SortIsPermutation(EntryLe, s);
    SortIsPermutation(EntryLe, t);
    assert multiset(s) == multiset(t);
    forall k | k in m ensures k in n && n[k] == m[k] {
      assert (k, m[k]) in multiset(s);
    }
    forall k | k in n ensures k in m && n[k] == m[k] {
      assert (k, n[k]) in multiset(t);
    }
  }

  /** Whatever order two nodes list their entries in, the digests agree exactly
      when the version maps are equal. */
  lemma VersionDigestIsExact(sha: string -> string, json: seq<Entry> -> string,
                             s: seq<Entry>, m: map<string, string>, t: seq<Entry>, n: map<string, string>)
    requires Lists(s, m) && Lists(t, n)
    requires forall x, y :: json(x) == json(y) ==> x == y
    requires CollisionFree(sha, {json(Sort(EntryLe, s)), json(Sort(EntryLe, t))})
    ensures VersionDigest(sha, json, s) == VersionDigest(sha, json, t) <==> m == n
  {
    if m == n {
      SameMapSortsAlike(s, t, m);
    }
    if VersionDigest(sha, json, s) == VersionDigest(sha, json, t) {
      assert json(Sort(EntryLe, s)) == json(Sort(EntryLe, t));
      SameSortIsSameMap(s, m, t, n);
    }
  }

  /** What is hashed: the entries, sorted by key. */
  lemma VersionDigestHashesSorted(sha: string -> string, json: seq<Entry> -> string, entries: seq<Entry>)
    returns (sorted: seq<Entry>)
    ensures VersionDigest(sha, json, entries) == sha(json(sorted)) && multiset(sorted) == multiset(entries)
    ensures forall i, j :: 0 <= i < j < |sorted| ==> !TextBefore(sorted[j].0, sorted[i].0)
  {
    sorted := Sort(EntryLe, entries);
    SortIsPermutation(EntryLe, entries);
    EntryLeIsPreorder();
    SortIsSorted(EntryLe, entries);
    forall i, j | 0 <= i < j < |sorted| ensures !TextBefore(sorted[j].0, sorted[i].0) {
      assert EntryLe(sorted[i], sorted[j]);
      TextOrderIsStrict(sorted[j].0, sorted[i].0);
    }
  }

  /** The keys a node must pull: held by the peer, and missing or different here. */
  function StaleKeys(mine: map<string, string>, peer: map<string, string>): set<string> {
    set k | k in peer && (k !in mine || mine[k] != peer[k])
  }

  /** The entries of one object have distinct keys. */
  ghost predicate KeysOnce(entries: seq<Entry>) {
    forall i, j :: 0 <= i < j < |entries| ==> entries[i].0 != entries[j].0
  }

  /** The peer's keys that are missing or different here, in its order. */
  function Stale(mine: map<string, string>, theirs: seq<Entry>): seq<string> {
    if theirs == [] then []
    else
      var n := |theirs| - 1;
      var (k, v) := theirs[n];
      var before := Stale(mine, theirs[..n]);
      if k !in mine || mine[k] != v then before + [k] else before
  }

  lemma {:induction false} StaleIsExact(mine: map<string, string>, theirs: seq<Entry>)
    requires KeysOnce(theirs)
    ensures Distinct(Stale(mine, theirs))
    ensures forall k :: k in Stale(mine, theirs) <==>
      exists i :: 0 <= i < |theirs| && theirs[i].0 == k && (k !in mine || mine[k] != theirs[i].1)
  {
    if theirs != [] {
      var n := |theirs| - 1;
      StaleIsExact(mine, theirs[..n]);
      var before := Stale(mine, theirs[..n]);
      forall k | k in before ensures k != theirs[n].0 {
        var i :| 0 <= i < n && theirs[..n][i].0 == k && (k !in mine || mine[k] != theirs[..n][i].1);
        assert theirs[i].0 != theirs[n].0;
      }
      forall k ensures k in Stale(mine, theirs) <==>
        exists i :: 0 <= i < |theirs| && theirs[i].0 == k && (k !in mine || mine[k] != theirs[i].1)
      {
        if k in before {
          var i :| 0 <= i < n && theirs[..n][i].0 == k && (k !in mine || mine[k] != theirs[..n][i].1);
          assert theirs[i].0 == k;
        }
        if i :| 0 <= i < n && theirs[i].0 == k && (k !in mine || mine[k] != theirs[i].1) {
          assert theirs[..n][i].0 == k;
        }
      }
    }
  }

  /** In the peer's order. */
  lemma {:induction false} StaleInOrder(mine: map<string, string>, s: seq<Entry>, t: seq<Entry>)
    ensures Stale(mine, s + t) == Stale(mine, s) + Stale(mine, t)
  {
    if t == [] {
      assert s + t == s;
    } else {
      var n := |t| - 1;
      StaleInOrder(mine, s, t[..n]);
      assert (s + t)[..|s + t| - 1] == s + t[..n];
    }
  }

  lemma StaleIsStaleKeys(mine: map<string, string>, theirs: seq<Entry>, peer: map<string, string>)
    requires KeysOnce(theirs) && Lists(theirs, peer)
    ensures Elements(Stale(mine, theirs)) == StaleKeys(mine, peer)
  {
    StaleIsExact(mine, theirs);
    forall k ensures k in Stale(mine, theirs) <==> k in StaleKeys(mine, peer) {
      if k in StaleKeys(mine, peer) {
        assert (k, peer[k]) in theirs;
      }
      if i :| 0 <= i < |theirs| && theirs[i].0 == k && (k !in mine || mine[k] != theirs[i].1) {
        assert theirs[i] == (k, theirs[i].1) && theirs[i] in theirs;
      }
    }
  }

  /** `versionKeysToPull`. */
  method VersionKeysToPull(mine: map<string, string>, theirs: seq<Entry>) returns (pull: seq<string>)
    ensures pull == Stale(mine, theirs)
  {
    pull := [];
    for n := 0 to |theirs|
      invariant pull == Stale(mine, theirs[..n])
    {
      assert theirs[..n + 1][..n] == theirs[..n];
      var (k, v) := theirs[n];
      if k !in mine || mine[k] != v {
        pull := pull + [k];
      }
    }
    assert theirs[..|theirs|] == theirs;
  }
}
