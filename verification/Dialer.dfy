/** A dial after its handshake: rounds, each against a fresh advertisement; and what the fork alarm
    makes of the dials of settled nodes and of a database that refuses its own inserts. */
module Dialer {
  import opened Ordering
  import opened Reconciliation
  import opened Merges
  import opened Rows
  import opened Store
  import opened Channel
  import opened Engine
  import opened RoundProperties
  import opened SteadyState
  import opened NodeRound
  import opened ForkAlarm
  import ND = NodeDirectory

  /** The node itself, what goes wrong on it and what its peer answers, round after round. */
  datatype Setting = Setting(schema: Schema, faults: nat -> Faults, scripts: nat -> Script)

  /** Round `n` ran to its end, against the advertisement of that round. */
  ghost predicate Ran(s: Setting, n: nat, e: Env, m: Tables, r: RoundResult, after: Tables) {
    && e.schema == s.schema && e.faults == s.faults(n) && e.script == s.scripts(n) && e.script.state == Got(e.state)
    && !Dies(e, m) && r == Result(e, m) && AllSettled(RoundsB(e, m), after)
  }

  /** The rounds of a dial: each ran to its end, from the rows the one before it left. */
  ghost predicate Trace(s: Setting, before: nat, envs: seq<Env>, states: seq<Tables>, results: seq<RoundResult>) {
    && |states| == |envs| + 1 && |results| == |envs|
    && forall i: nat {:trigger Step(i)} :: Step(i) && i < |envs| ==>
         Ran(s, before + i + 1, envs[i], states[i], results[i], states[i + 1])
  }

  ghost predicate Step(i: nat) { true }

  lemma TraceOneMore(s: Setting, before: nat, envs: seq<Env>, states: seq<Tables>, results: seq<RoundResult>,
                     e: Env, r: RoundResult, m: Tables)
    requires Trace(s, before, envs, states, results) && Ran(s, before + |envs| + 1, e, states[|envs|], r, m)
    ensures Trace(s, before, envs + [e], states + [m], results + [r])
  {
    var es, ss, rs := envs + [e], states + [m], results + [r];
    forall i: nat | Step(i) && i < |es| ensures Ran(s, before + i + 1, es[i], ss[i], rs[i], ss[i + 1]) {
      if i < |envs| {
        assert Ran(s, before + i + 1, envs[i], states[i], results[i], states[i + 1]);
      }
    }
  }

  /** One round against a fresh advertisement; `weather` is what goes wrong locally meanwhile. */
  method RunOne(remote: RemoteStoreView, digestB: map<string, string> -> string, weather: Faults, ghost s: Setting)
    returns (r: Outcome<RoundResult>, ghost e: Env)
    requires Registry(s.schema) && Shaped(s.scripts(remote.round + 1)) && weather == s.faults(remote.round + 1)
    requires s.schema == remote.local.schema && s.scripts == remote.scripts
    modifies remote, remote.local
    ensures remote.round == old(remote.round) + 1
    ensures r.Done? ==> Ran(s, remote.round, e, old(remote.local.tables), r.value, remote.local.tables)
  {
    remote.local.faults := weather;
    var ok := remote.Refresh();
    e := Env(remote.sha, digestB, remote.local.schema, remote.local.faults, remote.Peer(), remote.state);
    if !ok {
      return Thrown("no advertisement"), e;
    }
    assert Describes(e, remote);
    r := RunRound(remote, digestB, e);
  }

  /** The loop of `runAeDialer`: every round runs against the advertisement it has just asked for,
      on the rows the last one left; a round that cannot be finished ends the dial. */
  method RunRounds(remote: RemoteStoreView, digestB: map<string, string> -> string, weather: nat -> Faults, count: nat,
                   ghost s: Setting)
    returns (d: Dial, ghost envs: seq<Env>, ghost states: seq<Tables>)
    requires Registry(s.schema) && forall n: nat {:trigger Shaped(s.scripts(n))} :: Shaped(s.scripts(n))
    requires s == Setting(remote.local.schema, weather, remote.scripts)
    modifies remote, remote.local
    ensures d.Completed? ==> Trace(s, old(remote.round), envs, states, d.rounds) && |envs| == count
    ensures d.Completed? ==> states[0] == old(remote.local.tables) && states[count] == remote.local.tables
  {
    ghost var before := remote.round;
    envs, states := [], [remote.local.tables];
    var rounds: seq<RoundResult> := [];
    for i := 0 to count
      invariant |envs| == i && remote.round == before + i
      invariant Trace(s, before, envs, states, rounds)
      invariant states[0] == old(remote.local.tables) && states[i] == remote.local.tables
    {
      assert Shaped(s.scripts(remote.round + 1));
      ghost var e;
      var r: Outcome<RoundResult>;
      r, e := RunOne(remote, digestB, weather(remote.round + 1), s);
      if r.Thrown? {
        return Unfinished, envs, states;
      }
      TraceOneMore(s, before, envs, states, rounds, e, r.value, remote.local.tables);
      envs, states := envs + [e], states + [remote.local.tables];
      rounds := rounds + [r.value];
    }
    d := Completed(rounds);
  }

  // ----- settled nodes -----

  /** The tables settled nodes still disagree on: those with unsettled append-only rows, and the
      shared table on a status disagreement. */
  ghost predicate Forked(e: Env, m: Tables, pm: Tables, t: string, x: ND.Directory, y: ND.Directory, k: Key)
    requires x.Keys == y.Keys
  {
    if k.0 == A then
      k.1 in e.schema.tierA && Unsettled(SpecIn(e.schema, m, k.1), TableOf(m, k.1).a, TableOf(pm, k.1).a) != {}
    else k.1 == t && ND.StatusForks(x, y) != {}
  }

  ghost predicate Left(e: Env, m: Tables, k: Key) {
    if k.0 == A then k.1 in e.schema.tierA && RoundA(e, m, k.1).1.divergent > 0
    else k.1 in e.schema.tierB && RoundB(e, m, k.1).1.divergent > 0
  }

  lemma UnplannedHasNoVerdict(e: Env, m: Tables, t: string)
    requires RoundB(e, m, t).1.planned == 0
    ensures RoundB(e, m, t).1.divergent == 0
  {
  }

  lemma SteadyLeftA(w: ND.Wiring, hashOf: Body -> RecordHash, e: Env, m: Tables, pm: Tables, u: string -> set<Body>,
                    t: string, x: ND.Directory, y: ND.Directory, s: string)
    requires Steady(w, hashOf, e, m, pm, u, t, x, y) && s in e.schema.tierA
    ensures RoundA(e, m, s).1.divergent == |Unsettled(SpecIn(e.schema, m, s), TableOf(m, s).a, TableOf(pm, s).a)|
  {
    SteadyTables(e, m, pm, u, s);
  }

  lemma SteadyLeftB(w: ND.Wiring, hashOf: Body -> RecordHash, e: Env, m: Tables, pm: Tables, u: string -> set<Body>,
                    t: string, x: ND.Directory, y: ND.Directory, s: string)
    requires Steady(w, hashOf, e, m, pm, u, t, x, y) && s in e.schema.tierB
    ensures RoundB(e, m, s).1.divergent == if s == t then |ND.StatusForks(x, y)| else 0
  {
    if s == t {
      SteadyTables(e, m, pm, u, t);
      SettledNodesAreQuiet(w, hashOf, e, m, t, u(t), TableOf(pm, t), x, y);
    } else {
      EqualTablesAreQuiet(e, m, s, TableOf(pm, s).b);
      UnplannedHasNoVerdict(e, m, s);
    }
  }

  lemma SteadyTotals(w: ND.Wiring, hashOf: Body -> RecordHash, e: Env, m: Tables, pm: Tables, u: string -> set<Body>,
                     t: string, x: ND.Directory, y: ND.Directory)
    requires Steady(w, hashOf, e, m, pm, u, t, x, y)
    ensures Result(e, m).Planned() == Result(e, m).Pulled() && Result(e, m).Failures() == [] && t in e.schema.tierB
  {
    SteadyRound(w, hashOf, e, m, pm, u, t, x, y);
  }

  lemma SteadyLeft(w: ND.Wiring, hashOf: Body -> RecordHash, e: Env, m: Tables, pm: Tables, u: string -> set<Body>,
                   t: string, x: ND.Directory, y: ND.Directory, k: Key)
    requires Steady(w, hashOf, e, m, pm, u, t, x, y)
    ensures Left(e, m, k) <==> Forked(e, m, pm, t, x, y, k)
    ensures Result(e, m).Planned() == Result(e, m).Pulled() && Result(e, m).Failures() == []
  {
    SteadyTotals(w, hashOf, e, m, pm, u, t, x, y);
    if k.0 == A && k.1 in e.schema.tierA {
      SteadyLeftA(w, hashOf, e, m, pm, u, t, x, y, k.1);
    }
    if k.0 == B && k.1 in e.schema.tierB {
      SteadyLeftB(w, hashOf, e, m, pm, u, t, x, y, k.1);
    }
    LeftIsForked(e, m, pm, t, x, y, k);
  }

  lemma LeftIsForked(e: Env, m: Tables, pm: Tables, t: string, x: ND.Directory, y: ND.Directory, k: Key)
    requires x.Keys == y.Keys && t in e.schema.tierB
    requires k.0 == A && k.1 in e.schema.tierA ==>
      RoundA(e, m, k.1).1.divergent == |Unsettled(SpecIn(e.schema, m, k.1), TableOf(m, k.1).a, TableOf(pm, k.1).a)|
    requires k.0 == B && k.1 in e.schema.tierB ==>
      RoundB(e, m, k.1).1.divergent == if k.1 == t then |ND.StatusForks(x, y)| else 0
    ensures Left(e, m, k) <==> Forked(e, m, pm, t, x, y, k)
  {
  }

  lemma TallyEntries(tier: Tier, tables: seq<string>, round: string -> (Table, Counts), t: string)
    ensures (exists u :: u in TallyOf(tier, tables, round).unconverged && TableKey(u) == (tier, t) && u.divergent > 0)
      <==> t in tables && round(t).1.divergent > 0
    ensures forall u :: u in TallyOf(tier, tables, round).unconverged ==> u.tier == tier
  {
    TallyIsExact(tier, tables, round);
    if t in tables && round(t).1.divergent > 0 {
      assert Reports(tier, tables, round, Reported(tier, t, round(t).1));
    }
  }

  /** A result's entries under a key are there exactly when the table was left divergent. */
  lemma EntriesOf(e: Env, m: Tables, k: Key)
    ensures (exists u :: u in Result(e, m).Entries() && TableKey(u) == k && u.divergent > 0) <==> Left(e, m, k)
  {
    TallyEntries(A, e.schema.tierA, RoundsA(e, m), k.1);
    TallyEntries(B, e.schema.tierB, RoundsB(e, m), k.1);
    assert RoundsA(e, m)(k.1) == RoundA(e, m, k.1) && RoundsB(e, m)(k.1) == RoundB(e, m, k.1);
    EntriesSplit(Result(e, m), k);
    assert k == (k.0, k.1);
  }

  lemma EntriesSplit(r: RoundResult, k: Key)
    ensures (exists u :: u in r.Entries() && TableKey(u) == k && u.divergent > 0)
      <==> (exists u :: u in r.a.unconverged && TableKey(u) == k && u.divergent > 0)
           || (exists u :: u in r.b.unconverged && TableKey(u) == k && u.divergent > 0)
  {
  }

  /** What one dial of settled nodes is to the alarm: conclusive, and divergent exactly there. */
  lemma SteadyDial(w: ND.Wiring, hashOf: Body -> RecordHash, e: Env, m: Tables, pm: Tables, u: string -> set<Body>,
                   t: string, x: ND.Directory, y: ND.Directory, k: Key)
    requires Steady(w, hashOf, e, m, pm, u, t, x, y)
    ensures Conclusive(Completed([Result(e, m)]))
    ensures Diverged(Completed([Result(e, m)]), k) <==> Forked(e, m, pm, t, x, y, k)
  {
    SteadyLeft(w, hashOf, e, m, pm, u, t, x, y, k);
    OneRoundDial(Result(e, m), k);
    EntriesOf(e, m, k);
  }

  /** A dial between the two settled nodes, over whatever script the peer honestly answers. */
  ghost predicate SteadyDialIs(w: ND.Wiring, hashOf: Body -> RecordHash, e: Env, schema: Schema, m: Tables, pm: Tables,
                               u: string -> set<Body>, t: string, x: ND.Directory, y: ND.Directory, d: Dial)
  {
    e.schema == schema && Steady(w, hashOf, e, m, pm, u, t, x, y) && d == Completed([Result(e, m)])
  }

  ghost predicate Judged(d: Dial, k: Key, forked: bool) {
    Conclusive(d) && (Diverged(d, k) <==> forked)
  }

  lemma JudgedHistory(history: seq<Dial>, streaks: seq<Streaks>, alarms: set<Alarm>, k: Key, forked: bool)
    requires history != [] && forall i :: 0 <= i < |history| ==> Judged(history[i], k, forked)
    requires Replays(history, streaks) && Alarms(streaks[|history|], history[|history| - 1], alarms)
    ensures (exists a :: a in alarms && a.key == k) <==> |history| >= 2 && forked
    ensures forall a :: a in alarms && a.key == k ==> a.consecutive == |history|
  {
    forall i | 0 <= i < |history| ensures Conclusive(history[i]) && (Diverged(history[i], k) <==> forked) {
      assert Judged(history[i], k, forked);
    }
    if forked {
      PersistentForkAlarms(history, streaks, alarms, k);
    } else {
      NoForkNoAlarm(history, streaks, alarms, k);
    }
  }

  /** A persisting conflict alarms on every dial from the second on, with the number of dials so
      far; a table without one never does. */
  lemma ConflictsAlarmForever(w: ND.Wiring, hashOf: Body -> RecordHash, envs: seq<Env>, e: Env, m: Tables, pm: Tables,
                              u: string -> set<Body>, t: string, x: ND.Directory, y: ND.Directory,
                              history: seq<Dial>, streaks: seq<Streaks>, alarms: set<Alarm>, k: Key)
    requires |history| == |envs| && history != [] && x.Keys == y.Keys
    requires forall i :: 0 <= i < |envs| ==>
      SteadyDialIs(w, hashOf, envs[i], e.schema, m, pm, u, t, x, y, history[i])
    requires Replays(history, streaks) && Alarms(streaks[|history|], history[|history| - 1], alarms)
    ensures (exists a :: a in alarms && a.key == k) <==> |history| >= 2 && Forked(e, m, pm, t, x, y, k)
    ensures forall a :: a in alarms && a.key == k ==> a.consecutive == |history|
  {
    forall i | 0 <= i < |history| ensures Judged(history[i], k, Forked(e, m, pm, t, x, y, k)) {
      SteadyDialJudged(w, hashOf, envs[i], e, m, pm, u, t, x, y, history[i], k);
    }
    JudgedHistory(history, streaks, alarms, k, Forked(e, m, pm, t, x, y, k));
  }

  lemma SteadyDialJudged(w: ND.Wiring, hashOf: Body -> RecordHash, f: Env, e: Env, m: Tables, pm: Tables,
                         u: string -> set<Body>, t: string, x: ND.Directory, y: ND.Directory, d: Dial, k: Key)
    requires SteadyDialIs(w, hashOf, f, e.schema, m, pm, u, t, x, y, d) && x.Keys == y.Keys
    ensures Judged(d, k, Forked(e, m, pm, t, x, y, k))
  {
    SteadyDial(w, hashOf, f, m, pm, u, t, x, y, k);
    assert Forked(f, m, pm, t, x, y, k) == Forked(e, m, pm, t, x, y, k);
  }

  // ----- a database that refuses its own inserts -----

  /** A round whose pulled records a failing local database did not take, everything else going well. */
  ghost predicate LosesInserts(e: Env, m: Tables, t: string) {
    && t in e.schema.tierA && WantedA(e, m, t) != [] && ServedA(e.script, t, WantedA(e, m, t)).Got?
    && FreshBatch(SpecAt(e, m, t), TableOf(m, t).a, ServedA(e.script, t, WantedA(e, m, t)).value)
    && RefusedCount(Refused(e.faults.refusedA, t), |ServedA(e.script, t, WantedA(e, m, t)).value|) > 0
    && Result(e, m).Planned() == Result(e, m).Pulled() && Result(e, m).Failures() == []
  }

  /** Two such dials in a row raise the fork alarm on the table, though no content disagrees. */
  lemma RefusedInsertsAlarm(e: Env, m: Tables, f: Env, m': Tables, t: string, c: Dial, d: Dial,
                            streaks: seq<Streaks>, alarms: set<Alarm>)
    requires LosesInserts(e, m, t) && c == Completed([Result(e, m)])
    requires LosesInserts(f, m', t) && d == Completed([Result(f, m')])
    requires Replays([c, d], streaks) && Alarms(streaks[2], d, alarms)
    ensures exists a :: a in alarms && a.key == (A, t) && a.consecutive == 2
  {
    LossDiverges(e, m, t);
    LossDiverges(f, m', t);
    TwoForkedDialsAlarm(c, d, streaks, alarms, (A, t));
  }

  lemma LossDiverges(e: Env, m: Tables, t: string)
    requires LosesInserts(e, m, t)
    ensures Conclusive(Completed([Result(e, m)])) && Diverged(Completed([Result(e, m)]), (A, t))
  {
    RefusedInsertsLookLikeAFork(e, m, t, ServedA(e.script, t, WantedA(e, m, t)).value);
    OneRoundDial(Result(e, m), (A, t));
    EntriesOf(e, m, (A, t));
  }
}
