/** The kill-switch write path. `applyRevocationFlag` runs up to two statements, each atomic
    in the database but not together, so concurrent calls interleave statement by statement. */
module KillSwitch {

  datatype Mode = Pause | Clear | Burn
  datatype Call = Call(mode: Mode, account: string, origin: string)
  datatype Reply = Applied | BurnedImmutable

  /** The `agent_suspensions` row of one agent. */
  datatype Row = Row(paused: bool, burned: bool, account: string, seqNo: nat, origin: string)
  datatype Cell = Absent | Present(row: Row)

  predicate Burned(c: Cell) {
    c.Present? && c.row.burned
  }

  // ----- the statements -----

  /** INSERT ... ON CONFLICT DO UPDATE, for pause and burn. */
  function Upsert(c: Cell, call: Call): Cell {
    var burn := call.mode == Burn;
    match c
    case Absent => Present(Row(true, burn, call.account, 1, call.origin))
    case Present(r) => Present(Row(true, r.burned || burn, call.account, r.seqNo + 1, call.origin))
  }

  /** The rows UPDATE ... WHERE burned = false would match. */
  predicate Matches(c: Cell) {
    c.Present? && !c.row.burned
  }

  function ClearRow(c: Cell, call: Call): Cell
    requires Matches(c)
  {
    Present(c.row.(paused := false, seqNo := c.row.seqNo + 1, origin := call.origin))
  }

  // ----- the sequential meaning of a whole call -----

  function Effect(c: Cell, call: Call): Cell {
    if call.mode != Clear then Upsert(c, call)
    else if Matches(c) then ClearRow(c, call)
    else c
  }

  function Answer(c: Cell, call: Call): Reply {
    if call.mode == Clear && Burned(c) then BurnedImmutable else Applied
  }

  /** What a pause or a burn leaves: the agent paused, burned from then on if this is a burn, under
      the caller's account and node, one write later. */
  predicate Suspends(before: Cell, call: Call, after: Row) {
    && after.paused && (after.burned <==> call.mode == Burn || (before.Present? && before.row.burned))
    && after.account == call.account && after.origin == call.origin
    && after.seqNo == 1 + if before.Present? then before.row.seqNo else 0
  }

  /** What a clear that matched leaves: not paused, the account kept, one write later. */
  predicate Resumes(before: Row, call: Call, after: Row) {
    && !after.paused && !after.burned && after.account == before.account && after.origin == call.origin
    && after.seqNo == before.seqNo + 1
  }

  class Suspensions {
    var rows: map<string, Row>

    function At(agent: string): Cell
      reads this
    {
      if agent in rows then Present(rows[agent]) else Absent
    }

    /** The statements of one call, run without interference. */
    method ApplyRevocationFlag(agent: string, call: Call) returns (reply: Reply)
      modifies this
      ensures At(agent) == Effect(old(At(agent)), call)
      ensures reply == Answer(old(At(agent)), call)
      ensures forall a :: a != agent ==> At(a) == old(At(a))
      ensures call.mode != Clear ==> reply == Applied && agent in rows && Suspends(old(At(agent)), call, rows[agent])
      ensures call.mode == Clear && agent in old(rows) && !old(rows)[agent].burned ==>
        reply == Applied && agent in rows && Resumes(old(rows)[agent], call, rows[agent])
      ensures call.mode == Clear && (agent !in old(rows) || old(rows)[agent].burned) ==>
        rows == old(rows) && (reply == BurnedImmutable <==> agent in rows)
    {
      if call.mode == Clear {
        var matched := agent in rows && !rows[agent].burned;
        if matched {
          var r := rows[agent];
          rows := rows[agent := r.(paused := false, seqNo := r.seqNo + 1, origin := call.origin)];
        } else {
          if agent in rows && rows[agent].burned {
            return BurnedImmutable;
          }
        }
        return Applied;
      }
      var burn := call.mode == Burn;
      if agent in rows {
        var r := rows[agent];
        rows := rows[agent := Row(true, r.burned || burn, call.account, r.seqNo + 1, call.origin)];
      } else {
        rows := rows[agent := Row(true, burn, call.account, 1, call.origin)];
      }
      return Applied;
    }
  }

  // ----- interleaved calls -----

  /** Where a call stands. `Missed` has run its UPDATE at event `at`, matched nothing, and
      still owes its SELECT. */
  datatype Progress = Invoked(call: Call) | Missed(call: Call, at: nat) | Returned(call: Call, reply: Reply)
  datatype Event = Invoke(id: nat, call: Call) | Statement(id: nat)
  datatype System = System(cell: Cell, calls: map<nat, Progress>)

  predicate Enabled(s: System, e: Event) {
    match e
    case Invoke(id, _) => id !in s.calls
    case Statement(id) => id in s.calls && !s.calls[id].Returned?
  }

  /** The system after event number `now`. */
  function Step(s: System, e: Event, now: nat): System
    requires Enabled(s, e)
  {
    match e
    case Invoke(id, call) => s.(calls := s.calls[id := Invoked(call)])
    case Statement(id) =>
      match s.calls[id]
      case Invoked(call) =>
        if call.mode != Clear then System(Upsert(s.cell, call), s.calls[id := Returned(call, Applied)])
        else if Matches(s.cell) then System(ClearRow(s.cell, call), s.calls[id := Returned(call, Applied)])
        else s.(calls := s.calls[id := Missed(call, now)])
      case Missed(call, _) =>
        s.(calls := s.calls[id := Returned(call, if Burned(s.cell) then BurnedImmutable else Applied)])
  }

  ghost predicate Legal(init: Cell, events: seq<Event>) {
    events == [] ||
    (var n := |events| - 1; Legal(init, events[..n]) && Enabled(Exec(init, events[..n]), events[n]))
  }

  ghost function Exec(init: Cell, events: seq<Event>): System {
    if events == [] then System(init, map[])
    else
      var n := |events| - 1;
      var s := Exec(init, events[..n]);
      if Enabled(s, events[n]) then Step(s, events[n], n) else s
  }

  // ----- the sequential history -----

  datatype Slot = Slot(id: nat, call: Call)
  type History = map<nat, Slot>

  /** The cell after the history's calls placed before time `n` ran one after another. */
  ghost function Replay(init: Cell, h: History, n: nat): Cell {
    if n == 0 then init
    else
      var c := Replay(init, h, n - 1);
      if n - 1 in h then Effect(c, h[n - 1].call) else c
  }

  /** Where each completed call takes effect: at its own statement, except that a clear that
      found no row is placed at its UPDATE once its SELECT has told it so. */
  ghost function Linearize(init: Cell, events: seq<Event>): History {
    if events == [] then map[]
    else
      var n := |events| - 1;
      var h := Linearize(init, events[..n]);
      var s := Exec(init, events[..n]);
      if events[n].Invoke? || !Enabled(s, events[n]) then h
      else
        var id := events[n].id;
        match s.calls[id]
        case Invoked(call) => if call.mode == Clear && !Matches(s.cell) then h else h[n := Slot(id, call)]
        case Missed(call, at) => if Burned(s.cell) then h[n := Slot(id, call)] else h[at := Slot(id, call)]
        case Returned(_, _) => h
  }

  /** `h` explains the run: every completed call sits once, at one of its own statements, and
      running the history in order gives every reply and the final row. */
  ghost predicate Explains(init: Cell, events: seq<Event>, s: System, h: History) {
    && Replay(init, h, |events|) == s.cell
    && (forall t :: t in h ==> Placed(init, events, s, h, t))
    && (forall t, u :: t in h && u in h && h[t].id == h[u].id ==> t == u)
    && (forall id :: id in s.calls && s.calls[id].Returned? ==> exists t :: t in h && h[t].id == id)
  }

  ghost predicate Placed(init: Cell, events: seq<Event>, s: System, h: History, t: nat)
    requires t in h
  {
    && t < |events| && events[t] == Statement(h[t].id)
    && h[t].id in s.calls
    && s.calls[h[t].id] == Returned(h[t].call, Answer(Replay(init, h, t), h[t].call))
  }

  /** A clear still owing its SELECT saw a state it could not change, at its UPDATE. */
  ghost predicate PendingClears(init: Cell, events: seq<Event>, s: System, h: History) {
    forall id :: id in s.calls && s.calls[id].Missed? ==>
      var at := s.calls[id].at;
      && s.calls[id].call.mode == Clear
      && at < |events| && at !in h && events[at] == Statement(id)
      && !Matches(Replay(init, h, at))
  }

  lemma {:induction false} ReplayLater(init: Cell, h: History, t: nat, slot: Slot, n: nat)
    requires n <= t
    ensures Replay(init, h[t := slot], n) == Replay(init, h, n)
  {
    if n > 0 {
      ReplayLater(init, h, t, slot, n - 1);
    }
  }

  /** Placing a call where it changes nothing changes nothing anywhere. */
  lemma {:induction false} ReplayNoop(init: Cell, h: History, t: nat, slot: Slot, n: nat)
    requires t !in h && Effect(Replay(init, h, t), slot.call) == Replay(init, h, t)
    ensures Replay(init, h[t := slot], n) == Replay(init, h, n)
  {
    if n > 0 {
      ReplayNoop(init, h, t, slot, n - 1);
    }
  }

  lemma {:induction false} BurnsPersist(init: Cell, h: History, m: nat, n: nat)
    requires m <= n && Burned(Replay(init, h, m))
    ensures Burned(Replay(init, h, n))
  {
    if m < n {
      BurnsPersist(init, h, m, n - 1);
    }
  }

  ghost predicate Explained(init: Cell, events: seq<Event>, s: System, h: History) {
    Explains(init, events, s, h) && PendingClears(init, events, s, h)
  }

  /** An event after which its call has not completed. */
  lemma ExtendPending(init: Cell, events: seq<Event>, s: System, h: History, e: Event, p: Progress)
    requires Explained(init, events, s, h) && Enabled(s, e) && !p.Returned?
    requires p.Missed? ==> p.call.mode == Clear && p.at == |events| && e.Statement? && !Matches(s.cell)
    ensures Explained(init, events + [e], s.(calls := s.calls[e.id := p]), h)
  {
    var more, s' := events + [e], s.(calls := s.calls[e.id := p]);
    forall t | t in h ensures Placed(init, more, s', h, t) {
      assert Placed(init, events, s, h, t);
    }
    forall id | id in s'.calls && s'.calls[id].Returned? ensures exists t :: t in h && h[t].id == id {
      assert id in s.calls && s.calls[id].Returned?;
    }
  }

  /** A statement that completes its call and takes effect where it stands. */
  lemma ExtendNow(init: Cell, events: seq<Event>, s: System, h: History, id: nat, call: Call)
    requires Explained(init, events, s, h) && Enabled(s, Statement(id))
    ensures Explained(init, events + [Statement(id)],
                      System(Effect(s.cell, call), s.calls[id := Returned(call, Answer(s.cell, call))]),
                      h[|events| := Slot(id, call)])
  {
    var n := |events|;
    var more := events + [Statement(id)];
    var s' := System(Effect(s.cell, call), s.calls[id := Returned(call, Answer(s.cell, call))]);
    var h' := h[n := Slot(id, call)];
    forall t: nat | t <= n ensures Replay(init, h', t) == Replay(init, h, t) {
      ReplayLater(init, h, n, Slot(id, call), t);
    }
    forall t | t in h' ensures Placed(init, more, s', h', t) {
      if t != n { assert Placed(init, events, s, h, t); }
    }
    forall t, u | t in h' && u in h' && h'[t].id == h'[u].id ensures t == u {
      if t != n { assert Placed(init, events, s, h, t); }
      if u != n { assert Placed(init, events, s, h, u); }
    }
    forall i | i in s'.calls && s'.calls[i].Returned? ensures exists t :: t in h' && h'[t].id == i {
      if i == id {
        assert h'[n].id == id;
      } else {
        var t :| t in h && h[t].id == i;
        assert Placed(init, events, s, h, t);
        assert h'[t].id == i;
      }
    }
  }

  /** A clear that found no row and now finds none burned: it took effect at its UPDATE. */
  lemma ExtendBack(init: Cell, events: seq<Event>, s: System, h: History, id: nat)
    requires Explained(init, events, s, h)
    requires id in s.calls && s.calls[id].Missed? && !Burned(s.cell)
    ensures var call, at := s.calls[id].call, s.calls[id].at;
      Explained(init, events + [Statement(id)], s.(calls := s.calls[id := Returned(call, Applied)]),
                h[at := Slot(id, call)])
  {
    var call, at := s.calls[id].call, s.calls[id].at;
    var n := |events|;
    var more := events + [Statement(id)];
    var s' := s.(calls := s.calls[id := Returned(call, Applied)]);
    var h' := h[at := Slot(id, call)];
    if Burned(Replay(init, h, at)) {
      BurnsPersist(init, h, at, n);
    }
    assert Replay(init, h, at) == Absent;
    assert n in h ==> Placed(init, events, s, h, n);
    forall t: nat ensures Replay(init, h', t) == Replay(init, h, t) {
      ReplayNoop(init, h, at, Slot(id, call), t);
    }
    forall t | t in h' ensures Placed(init, more, s', h', t) {
      if t != at { assert Placed(init, events, s, h, t); }
    }
    forall t, u | t in h' && u in h' && h'[t].id == h'[u].id ensures t == u {
      if t != at { assert Placed(init, events, s, h, t); }
      if u != at { assert Placed(init, events, s, h, u); }
    }
    forall i | i in s'.calls && s'.calls[i].Returned? ensures exists t :: t in h' && h'[t].id == i {
      if i == id {
        assert h'[at].id == id;
      } else {
        var t :| t in h && h[t].id == i;
        assert h'[t].id == i;
      }
    }
  }

  /** Kill-switch writes are linearizable: every interleaving of the statements of concurrent
      calls is explained by a sequential history with the same replies and the same row. */
  lemma {:induction false} WritesAreLinearizable(init: Cell, events: seq<Event>)
    requires Legal(init, events)
    ensures Explained(init, events, Exec(init, events), Linearize(init, events))
  {
    if events != [] {
      var n := |events| - 1;
      var before, e := events[..n], events[n];
      WritesAreLinearizable(init, before);
      assert before + [e] == events;
      var s, h := Exec(init, before), Linearize(init, before);
      match e
      case Invoke(id, call) => ExtendPending(init, before, s, h, e, Invoked(call));
      case Statement(id) =>
        match s.calls[id]
        case Invoked(call) =>
          if call.mode == Clear && !Matches(s.cell) {
            ExtendPending(init, before, s, h, e, Missed(call, n));
          } else {
            ExtendNow(init, before, s, h, id, call);
          }
        case Missed(call, at) =>
          if Burned(s.cell) {
            ExtendNow(init, before, s, h, id, call);
          } else {
            ExtendBack(init, before, s, h, id);
          }
    }
  }

  // ----- the history respects real time -----

  lemma {:induction false} ProgressOnlyAdvances(init: Cell, events: seq<Event>, m: nat, id: nat)
    requires Legal(init, events) && m <= |events|
    ensures Legal(init, events[..m])
    ensures var p, q := Exec(init, events[..m]).calls, Exec(init, events).calls;
      && (id in p ==> id in q)
      && (id in p && p[id].Returned? ==> q[id] == p[id])
  {
    if m < |events| {
      var n := |events| - 1;
      ProgressOnlyAdvances(init, events[..n], m, id);
      assert events[..n][..m] == events[..m];
    } else {
      assert events[..m] == events;
    }
  }

  /** A statement of a call runs after its invocation and not after its return. */
  lemma StatementsLieInsideTheCall(init: Cell, events: seq<Event>, t: nat, m: nat)
    requires Legal(init, events) && t < |events| && events[t].Statement? && m <= |events|
    ensures var p := Exec(init, events[..m]).calls;
      && (events[t].id !in p ==> m <= t)
      && (events[t].id in p && p[events[t].id].Returned? ==> t < m)
  {
    var id := events[t].id;
    ProgressOnlyAdvances(init, events, t + 1, id);
    assert events[..t + 1][..t] == events[..t];
    assert Enabled(Exec(init, events[..t]), events[t]);
    if m <= t {
      ProgressOnlyAdvances(init, events, t, id);
      ProgressOnlyAdvances(init, events[..t], m, id);
      assert events[..t][..m] == events[..m];
    } else {
      ProgressOnlyAdvances(init, events, m, id);
      ProgressOnlyAdvances(init, events[..m], t, id);
      assert events[..m][..t] == events[..t];
    }
  }

  /** If one call had returned before another was invoked, it comes first in the history. */
  lemma HistoryRespectsRealTime(init: Cell, events: seq<Event>, m: nat, t: nat, u: nat)
    requires Legal(init, events) && m <= |events|
    requires var h := Linearize(init, events); t in h && u in h
    requires var h, p := Linearize(init, events), Exec(init, events[..m]).calls;
      h[t].id in p && p[h[t].id].Returned? && h[u].id !in p
    ensures t < m <= u
  {
    WritesAreLinearizable(init, events);
    var h := Linearize(init, events);
    assert Placed(init, events, Exec(init, events), h, t) && Placed(init, events, Exec(init, events), h, u);
    StatementsLieInsideTheCall(init, events, t, m);
    StatementsLieInsideTheCall(init, events, u, m);
  }

  // ----- what each statement does -----

  /** Every statement of every run: a pause or burn suspends and returns at once; a clear resumes an
      agent that is not burned and otherwise changes nothing; the SELECT of such a clear changes
      nothing and tells burned from absent. */
  lemma StatementsDo(init: Cell, events: seq<Event>, n: nat)
    requires Legal(init, events) && n < |events| && events[n].Statement?
    requires Enabled(Exec(init, events[..n]), events[n])
    ensures var s, s', id := Exec(init, events[..n]), Exec(init, events[..n + 1]), events[n].id;
      match s.calls[id]
      case Invoked(call) =>
        if call.mode != Clear then
          s'.cell.Present? && Suspends(s.cell, call, s'.cell.row) && s'.calls == s.calls[id := Returned(call, Applied)]
        else if s.cell.Present? && !s.cell.row.burned then
          s'.cell.Present? && Resumes(s.cell.row, call, s'.cell.row)
              && s'.calls == s.calls[id := Returned(call, Applied)]
        else s'.cell == s.cell && s'.calls == s.calls[id := Missed(call, n)]
      case Missed(call, _) =>
        && s'.cell == s.cell
        && s'.calls == s.calls[id := Returned(call, if s.cell.Present? && s.cell.row.burned then BurnedImmutable
                                                    else Applied)]
      case Returned(_, _) => false
  {
    assert events[..n + 1][..n] == events[..n];
  }

  predicate Paused(c: Cell) {
    c.Present? && c.row.paused
  }

  /** A pause holds until a clear: while every statement run belongs to a pause or a burn, a paused
      agent stays paused; and a burned one stays paused whatever runs. */
  lemma {:induction false} OnlyAClearResumes(init: Cell, events: seq<Event>, m: nat)
    requires Legal(init, events) && m <= |events| && Paused(Exec(init, events[..m]).cell)
    requires Burned(Exec(init, events[..m]).cell) || forall n :: m <= n < |events| ==> !Clears(init, events, n)
    ensures Paused(Exec(init, events).cell)
    ensures Burned(Exec(init, events[..m]).cell) ==> Burned(Exec(init, events).cell)
  {
    if m == |events| {
      assert events[..m] == events;
    } else {
      var n := |events| - 1;
      assert events[..n][..m] == events[..m];
      forall k | m <= k < n && !Clears(init, events, k) ensures !Clears(init, events[..n], k) {
        assert events[..n][..k] == events[..k];
      }
      OnlyAClearResumes(init, events[..n], m);
      assert !Clears(init, events, n) || Burned(Exec(init, events[..n]).cell);
    }
  }

  /** Event `n` is the UPDATE of a clear. */
  ghost predicate Clears(init: Cell, events: seq<Event>, n: nat)
    requires n < |events|
  {
    var s := Exec(init, events[..n]);
    events[n].Statement? && events[n].id in s.calls && s.calls[events[n].id].Invoked?
      && s.calls[events[n].id].call.mode == Clear
  }

  // ----- what every reachable state keeps -----

  predicate Writes(s: System, e: Event)
    requires Enabled(s, e)
  {
    e.Statement? && s.calls[e.id].Invoked? && (s.calls[e.id].call.mode != Clear || Matches(s.cell))
  }

  /** The writes of a run that matched or created the row. */
  ghost function WriteCount(init: Cell, events: seq<Event>): nat
    requires Legal(init, events)
  {
    if events == [] then 0
    else
      var n := |events| - 1;
      WriteCount(init, events[..n]) + if Writes(Exec(init, events[..n]), events[n]) then 1 else 0
  }

  function SeqNo(c: Cell): nat {
    if c.Present? then c.row.seqNo else 0
  }

  /** In every reachable state a burned agent is paused, a burn is never undone, and the
      sequence number counts exactly the writes that matched or created the row. */
  lemma {:induction false} ReachableStates(init: Cell, events: seq<Event>, m: nat)
    requires Legal(init, events) && m <= |events|
    requires Burned(init) ==> init.row.paused
    ensures var c := Exec(init, events).cell;
      && (Burned(c) ==> c.row.paused)
      && SeqNo(c) == SeqNo(init) + WriteCount(init, events)
      && (Burned(Exec(init, events[..m]).cell) ==> Burned(c))
  {
    if events == [] || m == |events| {
      assert events[..m] == events;
    }
    if events != [] {
      var n := |events| - 1;
      ReachableStates(init, events[..n], if m < n then m else n);
      if m <= n {
        assert events[..n][..m] == events[..m];
      }
    }
  }
}
