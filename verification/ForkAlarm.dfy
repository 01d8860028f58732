/** What one dial's rounds mean: the per-table breakdown merged over the rounds, the
    shortfall, and the fork streak kept per peer and table. */
module ForkAlarm {
  import opened Ordering
  import opened Rows
  import opened Engine

  type Key = (Tier, string)

  /** How `syncPeer` got on: it never completed a handshake, or it ran its rounds. */
  datatype Dial = Unfinished | Completed(rounds: seq<RoundResult>)

  function TableKey(u: Unconverged): Key {
    (u.tier, u.table)
  }

  // ----- merging the rounds of one dial -----

  function Planned(rounds: seq<RoundResult>): nat {
    if rounds == [] then 0 else Planned(rounds[..|rounds| - 1]) + rounds[|rounds| - 1].Planned()
  }

  function Pulled(rounds: seq<RoundResult>): nat {
    if rounds == [] then 0 else Pulled(rounds[..|rounds| - 1]) + rounds[|rounds| - 1].Pulled()
  }

  function Failures(rounds: seq<RoundResult>): seq<Failure> {
    if rounds == [] then [] else Failures(rounds[..|rounds| - 1]) + rounds[|rounds| - 1].Failures()
  }

  function Entries(rounds: seq<RoundResult>): seq<Unconverged> {
    if rounds == [] then [] else Entries(rounds[..|rounds| - 1]) + rounds[|rounds| - 1].Entries()
  }

  function Combine(prev: Unconverged, u: Unconverged): Unconverged {
    prev.(planned := prev.planned + u.planned, pulled := prev.pulled + u.pulled,
          applied := prev.applied + u.applied, divergent := prev.divergent + u.divergent,
          verdict := if prev.verdict == ContentFork || u.verdict == ContentFork then ContentFork else PeerBehind,
          keys := FirstFive(prev.keys + u.keys))
  }

  /** The reduce over (tier, table), as a map. */
  function Merged(entries: seq<Unconverged>): map<Key, Unconverged> {
    if entries == [] then map[]
    else
      var m, u := Merged(entries[..|entries| - 1]), entries[|entries| - 1];
      m[TableKey(u) := if TableKey(u) in m then Combine(m[TableKey(u)], u) else u]
  }

  /** A merged table diverges exactly when one of its rounds did, and a content fork in any
      round is never averaged into lag. */
  lemma {:induction false} MergedVerdicts(entries: seq<Unconverged>, k: Key)
    ensures k in Merged(entries) <==> exists u :: u in entries && TableKey(u) == k
    ensures k in Merged(entries) ==>
      && TableKey(Merged(entries)[k]) == k
      && (Merged(entries)[k].divergent > 0 <==> exists u :: u in entries && TableKey(u) == k && u.divergent > 0)
      && (Merged(entries)[k].verdict == ContentFork <==>
            exists u :: u in entries && TableKey(u) == k && u.verdict == ContentFork)
  {
    if entries != [] {
      var init, u := entries[..|entries| - 1], entries[|entries| - 1];
      MergedVerdicts(init, k);
      assert entries == init + [u];
      assert forall v :: v in entries <==> v in init || v == u;
    }
  }

  method MergeUnconverged(entries: seq<Unconverged>) returns (m: map<Key, Unconverged>)
    ensures m == Merged(entries)
  {
    m := map[];
    for i := 0 to |entries|
      invariant m == Merged(entries[..i])
    {
      assert entries[..i + 1][..i] == entries[..i];
      var k := TableKey(entries[i]);
      m := m[k := if k in m then Combine(m[k], entries[i]) else entries[i]];
    }
    assert entries[..|entries|] == entries;
  }

  // ----- the verdict on one dial -----

  /** A dial that proved something: rounds ran, nothing planned went unserved, no table failed. */
  predicate Conclusive(d: Dial) {
    d.Completed? && Planned(d.rounds) <= Pulled(d.rounds) && Failures(d.rounds) == []
  }

  predicate Diverged(d: Dial, k: Key) {
    d.Completed? && var m := Merged(Entries(d.rounds)); k in m && m[k].divergent > 0
  }

  // ----- a dial over all its rounds -----

  lemma OneRoundMore(s: seq<RoundResult>, r: RoundResult)
    ensures Planned(s + [r]) == Planned(s) + r.Planned() && Pulled(s + [r]) == Pulled(s) + r.Pulled()
    ensures Failures(s + [r]) == Failures(s) + r.Failures() && Entries(s + [r]) == Entries(s) + r.Entries()
  {
    assert (s + [r])[..|s|] == s;
  }

  lemma Regroup<T>(a: seq<T>, b: seq<T>, c: seq<T>)
    ensures (a + b) + c == a + (b + c)
  {
  }

  ghost predicate AddUp(s: seq<RoundResult>, t: seq<RoundResult>, both: seq<RoundResult>) {
    && Planned(both) == Planned(s) + Planned(t) && Pulled(both) == Pulled(s) + Pulled(t)
    && Failures(both) == Failures(s) + Failures(t) && Entries(both) == Entries(s) + Entries(t)
  }

  lemma AddUpOneMore(s: seq<RoundResult>, t: seq<RoundResult>, both: seq<RoundResult>, r: RoundResult)
    requires AddUp(s, t, both)
    ensures AddUp(s, t + [r], both + [r])
  {
    OneRoundMore(both, r);
    OneRoundMore(t, r);
    Regroup(Failures(s), Failures(t), r.Failures());
    Regroup(Entries(s), Entries(t), r.Entries());
  }

  /** Planned and pulled records, failures and reports of a dial are those of all its rounds. */
  lemma {:induction false} RoundsAddUp(s: seq<RoundResult>, t: seq<RoundResult>)
    ensures AddUp(s, t, s + t)
  {
    if t == [] {
      assert s + t == s;
    } else {
      var n := |t| - 1;
      RoundsAddUp(s, t[..n]);
      AddUpOneMore(s, t[..n], s + t[..n], t[n]);
      assert s + t[..n] + [t[n]] == s + t && t[..n] + [t[n]] == t;
    }
  }

  lemma OneRoundAlone(r: RoundResult)
    ensures Planned([r]) == r.a.planned + r.b.planned && Pulled([r]) == r.a.pulled + r.b.pulled
    ensures Failures([r]) == r.unreadable + r.a.failures + r.b.failures
    ensures Entries([r]) == r.a.unconverged + r.b.unconverged
  {
    assert [r][..0] == [];
    assert Planned([]) == 0 && Pulled([]) == 0 && Failures([]) == [] && Entries([]) == [];
  }

  /** A failure in any round makes the dial inconclusive, whatever came after; so does a shortfall over
      all rounds together; and nothing else does. */
  lemma {:induction false} ConclusiveExactly(rounds: seq<RoundResult>)
    ensures Conclusive(Completed(rounds)) <==>
      && Planned(rounds) <= Pulled(rounds)
      && forall i :: 0 <= i < |rounds| ==>
           rounds[i].unreadable == [] && rounds[i].a.failures == [] && rounds[i].b.failures == []
  {
    if rounds != [] {
      var n := |rounds| - 1;
      NoFailures(rounds[..n]);
      NoFailures(rounds);
    }
  }

  lemma {:induction false} NoFailures(rounds: seq<RoundResult>)
    ensures Failures(rounds) == [] <==> forall i :: 0 <= i < |rounds| ==>
      rounds[i].unreadable == [] && rounds[i].a.failures == [] && rounds[i].b.failures == []
  {
    if rounds != [] {
      NoFailures(rounds[..|rounds| - 1]);
    }
  }

  /** A dial diverges on a table exactly when one of its rounds left it divergent. */
  lemma DivergedExactly(rounds: seq<RoundResult>, k: Key)
    ensures Diverged(Completed(rounds), k) <==>
      exists u :: ReportedBy(rounds, u) && (u.tier, u.table) == k && u.divergent > 0
  {
    MergedVerdicts(Entries(rounds), k);
    forall u ensures u in Entries(rounds) <==> ReportedBy(rounds, u) {
      EntriesAre(rounds, u);
    }
  }

  /** Some round reported it. */
  ghost predicate ReportedBy(rounds: seq<RoundResult>, u: Unconverged) {
    exists i :: 0 <= i < |rounds| && u in rounds[i].a.unconverged + rounds[i].b.unconverged
  }

  lemma {:induction false} EntriesAre(rounds: seq<RoundResult>, u: Unconverged)
    ensures u in Entries(rounds) <==> ReportedBy(rounds, u)
  {
    if rounds != [] {
      var n := |rounds| - 1;
      EntriesAre(rounds[..n], u);
      ReportedByOneMore(rounds[..n], rounds[n], u);
      assert rounds == rounds[..n] + [rounds[n]];
    }
  }

  lemma ReportedByOneMore(rounds: seq<RoundResult>, r: RoundResult, u: Unconverged)
    ensures ReportedBy(rounds + [r], u) <==> ReportedBy(rounds, u) || u in r.a.unconverged + r.b.unconverged
  {
    var more := rounds + [r];
    assert more[|rounds|] == r && forall i :: 0 <= i < |rounds| ==> more[i] == rounds[i];
  }

  datatype Totals = Totals(planned: nat, pulled: nat, applied: nat, divergent: nat)

  ghost function TotalsOver(entries: seq<Unconverged>, k: Key): Totals {
    if entries == [] then Totals(0, 0, 0, 0)
    else
      var n := |entries| - 1;
      var before, u := TotalsOver(entries[..n], k), entries[n];
      if TableKey(u) != k then before
      else Totals(before.planned + u.planned, before.pulled + u.pulled, before.applied + u.applied,
                  before.divergent + u.divergent)
  }

  ghost function KeysOver(entries: seq<Unconverged>, k: Key): seq<string> {
    if entries == [] then []
    else
      var n := |entries| - 1;
      KeysOver(entries[..n], k) + if TableKey(entries[n]) == k then entries[n].keys else []
  }

  /** The merged report of a table: its counts summed over all rounds, and the first five of the keys
      they named. */
  lemma {:induction false} MergedAddsUp(entries: seq<Unconverged>, k: Key)
    requires k in Merged(entries) && forall u :: u in entries ==> |u.keys| <= 5
    ensures var u := Merged(entries)[k];
      && Totals(u.planned, u.pulled, u.applied, u.divergent) == TotalsOver(entries, k)
      && u.keys == FirstFive(KeysOver(entries, k))
  {
    var n := |entries| - 1;
    assert entries[n] in entries && forall u :: u in entries[..n] ==> u in entries;
    if k in Merged(entries[..n]) {
      MergedAddsUp(entries[..n], k);
      FirstFiveJoins(KeysOver(entries[..n], k), entries[n].keys);
    } else {
      NothingOver(entries[..n], k);
    }
  }

  lemma FirstFiveJoins(s: seq<string>, t: seq<string>)
    ensures FirstFive(FirstFive(s) + t) == FirstFive(s + t)
  {
  }

  lemma {:induction false} NothingOver(entries: seq<Unconverged>, k: Key)
    requires k !in Merged(entries)
    ensures TotalsOver(entries, k) == Totals(0, 0, 0, 0) && KeysOver(entries, k) == []
  {
    if entries != [] {
      NothingOver(entries[..|entries| - 1], k);
    }
  }

  // ----- the reference: trailing runs of conclusive dials -----

  function ConclusiveOnly(history: seq<Dial>): seq<Dial> {
    if history == [] then []
    else
      var c := ConclusiveOnly(history[..|history| - 1]);
      if Conclusive(history[|history| - 1]) then c + [history[|history| - 1]] else c
  }

  /** Exactly the last `n` of these dials diverged on `k`. */
  ghost predicate TrailingRun(dials: seq<Dial>, k: Key, n: nat) {
    && n <= |dials|
    && (forall i :: |dials| - n <= i < |dials| ==> Diverged(dials[i], k))
    && (n < |dials| ==> !Diverged(dials[|dials| - n - 1], k))
  }

  // ----- the stored streaks -----

  type Streaks = map<Key, nat>

  function StreakOf(s: Streaks, k: Key): nat {
    if k in s then s[k] else 0
  }

  ghost predicate Tracks(s: Streaks, history: seq<Dial>) {
    && (forall k :: k in s ==> s[k] > 0)
    && (forall k :: TrailingRun(ConclusiveOnly(history), k, StreakOf(s, k)))
  }

  datatype Alarm = Alarm(key: Key, consecutive: nat)

  /** What one dial does to the streaks of its peer. */
  ghost predicate Updated(before: Streaks, d: Dial, after: Streaks) {
    if !Conclusive(d) then after == before
    else
      forall k :: StreakOf(after, k) == (if Diverged(d, k) then StreakOf(before, k) + 1 else 0)
          && (k in after ==> after[k] > 0)
  }

  /** The alarms of a dial: one per table whose streak is now at least two. */
  ghost predicate Alarms(after: Streaks, d: Dial, alarms: set<Alarm>) {
    forall a :: a in alarms <==> Conclusive(d) && a.key in after && a.consecutive == after[a.key] && after[a.key] >= 2
  }

  lemma OneMoreDial(c: seq<Dial>, d: Dial, k: Key, n: nat)
    requires TrailingRun(c, k, n)
    ensures TrailingRun(c + [d], k, if Diverged(d, k) then n + 1 else 0)
  {
  }

  lemma UpdatedTracks(before: Streaks, history: seq<Dial>, d: Dial, after: Streaks)
    requires Tracks(before, history) && Updated(before, d, after)
    ensures Tracks(after, history + [d])
  {
    assert (history + [d])[..|history|] == history;
    var c := ConclusiveOnly(history);
    if Conclusive(d) {
      forall k ensures TrailingRun(c + [d], k, StreakOf(after, k)) {
        OneMoreDial(c, d, k, StreakOf(before, k));
      }
    }
  }

  /** Clears the streaks of the tables that converged and extends those of the others. */
  method Advance(before: Streaks, forkKeys: set<Key>) returns (perTable: Streaks, alarms: set<Alarm>)
    ensures forall k :: k in perTable <==> k in forkKeys
    ensures forall k :: k in forkKeys ==> perTable[k] == StreakOf(before, k) + 1
    ensures forall a :: a in alarms <==> a.key in perTable && a.consecutive == perTable[a.key] && a.consecutive >= 2
  {
    perTable := map k | k in before && k in forkKeys :: before[k];
    alarms := {};
    var todo := forkKeys;
    while todo != {}
      invariant todo <= forkKeys
      invariant forall k :: k in perTable ==> k in forkKeys
      invariant forall k :: k in todo ==> StreakOf(perTable, k) == StreakOf(before, k)
      invariant forall k :: k in forkKeys && k !in todo ==> k in perTable && perTable[k] == StreakOf(before, k) + 1
      invariant forall a :: a in alarms <==>
        a.key in forkKeys && a.key !in todo && a.consecutive == perTable[a.key] && a.consecutive >= 2
      decreases todo
    {
      var k :| k in todo;
      var streak := StreakOf(perTable, k) + 1;
      perTable := perTable[k := streak];
      if streak >= 2 {
        alarms := alarms + {Alarm(k, streak)};
      }
      todo := todo - {k};
    }
  }

  class SyncService {
    var forkStreak: map<string, Streaks>

    function Of(peer: string): Streaks
      reads this
    {
      if peer in forkStreak then forkStreak[peer] else map[]
    }

    /** The accounting half of `syncPeer`. */
    method Account(peer: string, d: Dial) returns (alarms: set<Alarm>)
      modifies this
      ensures Updated(old(Of(peer)), d, Of(peer))
      ensures Alarms(Of(peer), d, alarms)
      ensures forall p :: p != peer ==> Of(p) == old(Of(p))
    {
      alarms := {};
      if d.Unfinished? {
        return;
      }
      var unconverged := MergeUnconverged(Entries(d.rounds));
      var shortfall := Planned(d.rounds) - Pulled(d.rounds);
      if shortfall > 0 || |Failures(d.rounds)| > 0 {
        return;
      }
      var forkKeys := set k | k in unconverged && unconverged[k].divergent > 0;
      var perTable: Streaks;
      perTable, alarms := Advance(Of(peer), forkKeys);
      forkStreak := forkStreak[peer := perTable];
    }
  }

  /** A whole history of dials against one peer, run through the accounting. */
  ghost predicate Replays(history: seq<Dial>, states: seq<Streaks>) {
    && |states| == |history| + 1 && states[0] == map[]
    && forall i :: 0 <= i < |history| ==> Updated(states[i], history[i], states[i + 1])
  }

  /** For every history, each table's stored streak is the number of trailing conclusive dials
      on which it diverged; dials that proved nothing neither count nor clear. */
  lemma {:induction false} StreaksAreTrailingRuns(history: seq<Dial>, states: seq<Streaks>)
    requires Replays(history, states)
    ensures Tracks(states[|history|], history)
  {
    if history != [] {
      var n := |history| - 1;
      StreaksAreTrailingRuns(history[..n], states[..n + 1]);
      UpdatedTracks(states[n], history[..n], history[n], states[n + 1]);
      assert history[..n] + [history[n]] == history;
    }
  }

  /** The alarm fires exactly on conclusive dials that extend a divergence to two or more, and
      what any other table did in those dials is irrelevant. */
  lemma AlarmIsExact(history: seq<Dial>, states: seq<Streaks>, alarms: set<Alarm>, k: Key, n: nat)
    requires Replays(history, states) && history != []
    requires Alarms(states[|history|], history[|history| - 1], alarms)
    requires TrailingRun(ConclusiveOnly(history), k, n)
    ensures (exists a :: a in alarms && a.key == k) <==> Conclusive(history[|history| - 1]) && n >= 2
    ensures forall a :: a in alarms && a.key == k ==> a.consecutive == n
  {
    StreaksAreTrailingRuns(history, states);
    var after := states[|history|];
    TrailingRunIsUnique(ConclusiveOnly(history), k, n, StreakOf(after, k));
    if Conclusive(history[|history| - 1]) && n >= 2 {
      assert Alarm(k, n) in alarms;
    }
  }

  lemma TrailingRunIsUnique(dials: seq<Dial>, k: Key, m: nat, n: nat)
    requires TrailingRun(dials, k, m) && TrailingRun(dials, k, n)
    ensures m == n
  {
  }

  /** A table that diverges on every dial, all of them conclusive, alarms from the second on. */
  lemma PersistentForkAlarms(history: seq<Dial>, states: seq<Streaks>, alarms: set<Alarm>, k: Key)
    requires Replays(history, states) && history != []
    requires Alarms(states[|history|], history[|history| - 1], alarms)
    requires forall i :: 0 <= i < |history| ==> Conclusive(history[i]) && Diverged(history[i], k)
    ensures (exists a :: a in alarms && a.key == k) <==> |history| >= 2
    ensures forall a :: a in alarms && a.key == k ==> a.consecutive == |history|
  {
    AllConclusive(history);
    AlarmIsExact(history, states, alarms, k, |history|);
  }

  lemma {:induction false} AllConclusive(history: seq<Dial>)
    requires forall i :: 0 <= i < |history| ==> Conclusive(history[i])
    ensures ConclusiveOnly(history) == history
  {
    if history != [] {
      AllConclusive(history[..|history| - 1]);
    }
  }

  /** A table that never diverges never alarms. */
  lemma NoForkNoAlarm(history: seq<Dial>, states: seq<Streaks>, alarms: set<Alarm>, k: Key)
    requires Replays(history, states) && history != []
    requires Alarms(states[|history|], history[|history| - 1], alarms)
    requires forall i :: 0 <= i < |history| ==> !Diverged(history[i], k)
    ensures forall a :: a in alarms ==> a.key != k
  {
    NoneDiverges(history, k);
    AlarmIsExact(history, states, alarms, k, 0);
  }

  lemma {:induction false} NoneDiverges(history: seq<Dial>, k: Key)
    requires forall i :: 0 <= i < |history| ==> !Diverged(history[i], k)
    ensures var c := ConclusiveOnly(history); forall i :: 0 <= i < |c| ==> !Diverged(c[i], k)
  {
    if history != [] {
      var n := |history| - 1;
      NoneDiverges(history[..n], k);
      assert !Diverged(history[n], k);
      var c := ConclusiveOnly(history);
      forall i | 0 <= i < |c| ensures !Diverged(c[i], k) {
        if i < |ConclusiveOnly(history[..n])| {
          assert c[i] == ConclusiveOnly(history[..n])[i] && !Diverged(ConclusiveOnly(history[..n])[i], k);
        } else {
          assert c[i] == history[n];
        }
      }
    }
  }

  lemma TwoForkedDialsAlarm(c: Dial, d: Dial, streaks: seq<Streaks>, alarms: set<Alarm>, k: Key)
    requires Conclusive(c) && Diverged(c, k) && Conclusive(d) && Diverged(d, k)
    requires Replays([c, d], streaks) && Alarms(streaks[2], d, alarms)
    ensures exists a :: a in alarms && a.key == k && a.consecutive == 2
  {
    PersistentForkAlarms([c, d], streaks, alarms, k);
  }

  /** A dial of one round diverges on exactly the tables that round left divergent. */
  lemma OneRoundDial(r: RoundResult, k: Key)
    ensures var d := Completed([r]);
      && (Diverged(d, k) <==> exists u :: u in r.Entries() && TableKey(u) == k && u.divergent > 0)
      && (Conclusive(d) <==> r.Planned() <= r.Pulled() && r.Failures() == [])
  {
    assert [r][..0] == [];
    assert Planned([]) == 0 && Pulled([]) == 0 && Failures([]) == [] && Entries([]) == [];
    MergedVerdicts(Entries([r]), k);
  }
}
