/** Wave selection: who is admitted when an operator opens a wave of the waitlist. */
module Waves {
  import opened Ordering
  import opened Reconciliation

  datatype User = User(id: string, waiting: bool, verified: bool, premium: bool, points: nat, created: int)

  // ----- validation of the request -----

  datatype Request = Request(capacity: int, priorityPct: int, zeroPct: int, openedBy: string)

  /** The checks of `validate`, in order; `openedBy` is already stripped. */
  function Validate(r: Request): (v: Outcome<()>)
    ensures v.Done? <==> r.capacity > 0 && 0 <= r.priorityPct && 0 <= r.zeroPct
                         && r.priorityPct + r.zeroPct <= 100 && r.openedBy != ""
  {
    if r.capacity <= 0 then Thrown("invalid_capacity")
    else if !(0 <= r.priorityPct <= 100) then Thrown("invalid_priority_pct")
    else if !(0 <= r.zeroPct <= 100) then Thrown("invalid_zero_pct")
    else if r.priorityPct + r.zeroPct > 100 then Thrown("split_exceeds_capacity")
    else if r.openedBy == "" then Thrown("missing_opened_by")
    else Done(())
  }

  /** Which fault is named: the first, in this order. */
  lemma ValidateNamesTheFirst(r: Request)
    ensures var soundPct := 0 <= r.priorityPct <= 100 && 0 <= r.zeroPct <= 100;
      && (Validate(r) == Thrown("invalid_capacity") <==> r.capacity <= 0)
      && (Validate(r) == Thrown("invalid_priority_pct") <==> r.capacity > 0 && !(0 <= r.priorityPct <= 100))
      && (Validate(r) == Thrown("invalid_zero_pct") <==>
            r.capacity > 0 && 0 <= r.priorityPct <= 100 && !(0 <= r.zeroPct <= 100))
      && (Validate(r) == Thrown("split_exceeds_capacity") <==>
            r.capacity > 0 && soundPct && r.priorityPct + r.zeroPct > 100)
      && (Validate(r) == Thrown("missing_opened_by") <==>
            r.capacity > 0 && soundPct && r.priorityPct + r.zeroPct <= 100 && r.openedBy == "")
  {
  }

  // ----- queries -----

  type Filter = User -> bool
  type Rank = (User, User) -> bool

  predicate ByCreated(u: User, v: User) {
    u.created <= v.created
  }

  predicate ByPoints(u: User, v: User) {
    u.points > v.points || (u.points == v.points && u.created <= v.created)
  }

  ghost function Matching(table: set<User>, keep: Filter): set<User> {
    set u | u in table && keep(u)
  }

  /** What SELECT ... WHERE keep ORDER BY rank LIMIT limit may return; rows that tie on the
      order may come in either order and either may be cut. */
  ghost predicate Selects(table: set<User>, keep: Filter, rank: Rank, limit: nat, r: seq<User>) {
    && Distinct(r) && SortedBy(rank, r)
    && Elements(r) <= Matching(table, keep)
    && |r| <= limit
    && (|r| < limit ==> Elements(r) == Matching(table, keep))
    && (forall u, v :: u in r && v in table && keep(v) && v !in r ==> rank(u, v))
  }

  function Min(a: nat, b: nat): nat {
    if a <= b then a else b
  }

  lemma SelectsCount(table: set<User>, keep: Filter, rank: Rank, limit: nat, r: seq<User>)
    requires Selects(table, keep, rank, limit, r)
    ensures |r| == Min(limit, |Matching(table, keep)|)
  {
    DistinctLength(r);
    SubsetSize(Elements(r), Matching(table, keep));
  }

  method Select(table: set<User>, keep: Filter, rank: Rank, limit: nat) returns (r: seq<User>)
    requires TotalPreorder(rank)
    ensures Selects(table, keep, rank, limit, r)
  {
    var rows: seq<User>, todo := [], table;
    while todo != {}
      invariant todo <= table && Distinct(rows)
      invariant forall u :: u in rows <==> u in table && u !in todo && keep(u)
      decreases todo
    {
      var u :| u in todo;
      if keep(u) {
        rows := rows + [u];
      }
      todo := todo - {u};
    }
    assert Elements(rows) == Matching(table, keep);
    r := TakeTop(rows, rank, limit);
  }

  method TakeTop(rows: seq<User>, rank: Rank, limit: nat) returns (r: seq<User>)
    requires TotalPreorder(rank) && Distinct(rows)
    ensures Distinct(r) && SortedBy(rank, r) && Elements(r) <= Elements(rows) && |r| <= limit
    ensures |r| < limit ==> Elements(r) == Elements(rows)
    ensures forall u, v :: u in r && v in rows && v !in r ==> rank(u, v)
  {
    var sorted := Sort(rank, rows);
    SortIsPermutation(rank, rows);
    SortIsSorted(rank, rows);
    PermutationStaysDistinct(rows, sorted);
    forall u ensures u in sorted <==> u in rows {
      assert u in multiset(sorted) <==> u in multiset(rows);
    }
    r := sorted[..Min(limit, |sorted|)];
    forall u, v | u in r && v in rows && v !in r ensures rank(u, v) {
      var i :| 0 <= i < |r| && r[i] == u;
      var j :| 0 <= j < |sorted| && sorted[j] == v;
      assert sorted[i] == u;
    }
    assert |r| < limit ==> r == sorted;
  }

  // ----- the cohort -----

  datatype Class = Premium | Points | Zero

  function ClassOf(u: User): Class {
    if u.premium then Premium else if u.points > 0 then Points else Zero
  }

  /** `u` goes before `v` in their common class: the earlier of two premium users or of two without
      points; of two with points the one with more, or as many and earlier. */
  predicate Outranks(u: User, v: User) {
    if u.premium || v.premium then u.premium && v.premium && u.created < v.created
    else if u.points == 0 || v.points == 0 then u.points == v.points && u.created < v.created
    else u.points > v.points || (u.points == v.points && u.created < v.created)
  }

  predicate Eligible(holders: set<string>, u: User) {
    u.waiting && u.verified && u.id !in holders
  }

  /** The waiting, verified users without a live token, by the columns that make the class. */
  ghost function Pool(table: set<User>, holders: set<string>, c: Class): set<User> {
    match c
    case Premium => set u | u in table && u.waiting && u.verified && u.id !in holders && u.premium
    case Points => set u | u in table && u.waiting && u.verified && u.id !in holders && !u.premium && u.points > 0
    case Zero => set u | u in table && u.waiting && u.verified && u.id !in holders && !u.premium && u.points == 0
  }

  function CountClass(s: seq<User>, c: Class): nat {
    if s == [] then 0 else CountClass(s[..|s| - 1], c) + if ClassOf(s[|s| - 1]) == c then 1 else 0
  }

  lemma {:induction false} CountClassSum(s: seq<User>, t: seq<User>, c: Class)
    ensures CountClass(s + t, c) == CountClass(s, c) + CountClass(t, c)
  {
    if t == [] {
      assert s + t == s;
    } else {
      var n := |t| - 1;
      CountClassSum(s, t[..n], c);
      assert (s + t)[..|s + t| - 1] == s + t[..n];
    }
  }

  lemma {:induction false} CountClassAll(s: seq<User>, c: Class, d: Class)
    requires forall u :: u in s ==> ClassOf(u) == c
    ensures CountClass(s, d) == if c == d then |s| else 0
  {
    if s != [] {
      CountClassAll(s[..|s| - 1], c, d);
      assert s[|s| - 1] in s;
    }
  }

  lemma {:induction false} CountsSplitLength(s: seq<User>)
    requires forall u :: u in s ==> ClassOf(u) != Premium
    ensures CountClass(s, Premium) == 0
    ensures CountClass(s, Points) + CountClass(s, Zero) == |s|
  {
    if s != [] {
      CountsSplitLength(s[..|s| - 1]);
      assert s[|s| - 1] in s;
    }
  }

  /** The two floors never claim more than what is left. */
  lemma FloorsFit(remaining: nat, p: nat, z: nat)
    requires p + z <= 100
    ensures remaining * p / 100 + remaining * z / 100 <= remaining
  {
    var a, b := remaining * p, remaining * z;
    assert a + b == remaining * (p + z) <= remaining * 100;
  }

  lemma RanksArePreorders()
    ensures TotalPreorder(ByCreated) && TotalPreorder(ByPoints)
  {
  }

  /** The four selections of one wave. */
  datatype Picks = Picks(premium: seq<User>, priority: seq<User>, zero: seq<User>, backfill: seq<User>)

  function Cohort(p: Picks): seq<User> {
    p.premium + p.priority + p.zero + p.backfill
  }

  function NotIn(taken: seq<User>, keep: Filter): Filter {
    u => keep(u) && u !in taken
  }

  function InClass(holders: set<string>, c: Class): Filter {
    u => Eligible(holders, u) && ClassOf(u) == c
  }

  /** The backfill's filter does not mention `premium_referred`. */
  function Backfillable(holders: set<string>, allowZero: bool): Filter {
    u => Eligible(holders, u) && (allowZero || u.points > 0)
  }

  /** Exactly what the four queries of `select_cohort` may return together. */
  ghost predicate Picked(table: set<User>, holders: set<string>, capacity: nat, priorityPct: nat, zeroPct: nat,
                         p: Picks) {
    && Selects(table, InClass(holders, Premium), ByCreated, capacity, p.premium)
    && var remaining := capacity - |p.premium|;
    if remaining == 0 then p.priority == [] && p.zero == [] && p.backfill == []
    else
      && Selects(table, NotIn(p.premium, InClass(holders, Points)), ByPoints, remaining * priorityPct / 100, p.priority)
      && Selects(table, NotIn(p.premium + p.priority, InClass(holders, Zero)), ByCreated, remaining * zeroPct / 100,
                 p.zero)
      && var taken := p.premium + p.priority + p.zero;
      if |taken| < capacity
      then Selects(table, NotIn(taken, Backfillable(holders, zeroPct > 0)), ByPoints, capacity - |taken|, p.backfill)
      else p.backfill == []
  }

  /** What each selection contains. */
  lemma PicksByClass(table: set<User>, holders: set<string>, capacity: nat, priorityPct: nat, zeroPct: nat, p: Picks)
    requires Picked(table, holders, capacity, priorityPct, zeroPct, p)
    ensures forall u :: u in p.premium ==> u in Pool(table, holders, Premium)
    ensures forall u :: u in p.priority ==> u in Pool(table, holders, Points)
    ensures forall u :: u in p.zero ==> u in Pool(table, holders, Zero)
    ensures forall u :: u in p.backfill ==> u in table && Eligible(holders, u) && u !in p.premium + p.priority + p.zero
  {
    forall u | u in p.premium ensures u in Pool(table, holders, Premium) { assert u in Elements(p.premium); }
    forall u | u in p.priority ensures u in Pool(table, holders, Points) { assert u in Elements(p.priority); }
    forall u | u in p.zero ensures u in Pool(table, holders, Zero) { assert u in Elements(p.zero); }
    forall u | u in p.backfill
      ensures u in table && Eligible(holders, u) && u !in p.premium + p.priority + p.zero
    {
      assert u in Elements(p.backfill);
    }
  }

  /** Whenever seats remain after the premium selection, nobody premium is left to backfill. */
  lemma BackfillIsNeverPremium(table: set<User>, holders: set<string>, capacity: nat, priorityPct: nat, zeroPct: nat,
                               p: Picks)
    requires Picked(table, holders, capacity, priorityPct, zeroPct, p)
    ensures forall u :: u in p.backfill ==> ClassOf(u) != Premium
  {
    PicksByClass(table, holders, capacity, priorityPct, zeroPct, p);
    if p.backfill != [] {
      forall u | u in p.backfill ensures ClassOf(u) != Premium {
        assert ClassOf(u) == Premium ==> u in Matching(table, InClass(holders, Premium));
        assert u in p.premium <==> u in Elements(p.premium);
      }
    }
  }

  lemma DistinctParts<T>(s: seq<T>, t: seq<T>)
    requires Distinct(s) && Distinct(t) && forall x :: x in t ==> x !in s
    ensures Distinct(s + t)
  {
    forall i, j | 0 <= i < j < |s + t| ensures (s + t)[i] != (s + t)[j] {
      if i < |s| <= j { assert t[j - |s|] in t; }
    }
  }

  /** `waitlist_id` is the table's primary key. */
  ghost predicate UniqueIds(table: set<User>) {
    forall u, v :: u in table && v in table && u.id == v.id ==> u == v
  }

  ghost predicate DistinctIds(cohort: seq<User>) {
    forall i, j :: 0 <= i < j < |cohort| ==> cohort[i].id != cohort[j].id
  }

  /** Nobody twice, only eligible users, and never more than the capacity. */
  lemma CohortIsSound(table: set<User>, holders: set<string>, capacity: nat, priorityPct: nat, zeroPct: nat, p: Picks)
    requires Picked(table, holders, capacity, priorityPct, zeroPct, p) && UniqueIds(table)
    requires priorityPct + zeroPct <= 100
    ensures DistinctIds(Cohort(p)) && |Cohort(p)| <= capacity
    ensures forall u :: u in Cohort(p) ==> u in table && u.waiting && u.verified && u.id !in holders
  {
    CohortOnce(table, holders, capacity, priorityPct, zeroPct, p);
    var c := Cohort(p);
    forall i, j | 0 <= i < j < |c| ensures c[i].id != c[j].id {
      assert c[i] in c && c[j] in c && c[i] != c[j];
    }
  }

  lemma CohortOnce(table: set<User>, holders: set<string>, capacity: nat, priorityPct: nat, zeroPct: nat, p: Picks)
    requires Picked(table, holders, capacity, priorityPct, zeroPct, p)
    requires priorityPct + zeroPct <= 100
    ensures Distinct(Cohort(p)) && |Cohort(p)| <= capacity
    ensures forall u :: u in Cohort(p) ==> u in table && Eligible(holders, u)
  {
    PicksByClass(table, holders, capacity, priorityPct, zeroPct, p);
    FloorsFit(capacity - |p.premium|, priorityPct, zeroPct);
    DistinctParts(p.premium, p.priority);
    DistinctParts(p.premium + p.priority, p.zero);
    DistinctParts(p.premium + p.priority + p.zero, p.backfill);
  }

  /** A cohort below capacity leaves nobody eligible behind, except zero-point users when the
      operator asked for none. */
  lemma ShortCohortTakesEveryone(table: set<User>, holders: set<string>, capacity: nat, priorityPct: nat,
                                 zeroPct: nat, p: Picks, u: User)
    requires Picked(table, holders, capacity, priorityPct, zeroPct, p)
    requires |Cohort(p)| < capacity && u in table && u.waiting && u.verified && u.id !in holders
    ensures u in Cohort(p) || (!u.premium && u.points == 0 && zeroPct == 0)
  {
    var taken := p.premium + p.priority + p.zero;
    if ClassOf(u) == Premium {
      assert u in Matching(table, InClass(holders, Premium));
      assert u in Elements(p.premium);
    } else if u !in taken && (zeroPct > 0 || u.points > 0) {
      assert u in Matching(table, NotIn(taken, Backfillable(holders, zeroPct > 0)));
      assert u in Elements(p.backfill);
    }
  }

  /** No admitted user is strictly outranked by a left-out user of the same class. */
  lemma NobodyIsPassedOver(table: set<User>, holders: set<string>, capacity: nat, priorityPct: nat, zeroPct: nat,
                           p: Picks, u: User, v: User)
    requires Picked(table, holders, capacity, priorityPct, zeroPct, p)
    requires u in Cohort(p) && v in table && v !in Cohort(p) && v.waiting && v.verified && v.id !in holders
    ensures !Outranks(v, u)
  {
    PicksByClass(table, holders, capacity, priorityPct, zeroPct, p);
    BackfillIsNeverPremium(table, holders, capacity, priorityPct, zeroPct, p);
    var taken := p.premium + p.priority + p.zero;
    if ClassOf(u) == ClassOf(v) {
      if u in p.premium {
        assert InClass(holders, Premium)(v);
      } else if u in p.priority {
        assert NotIn(p.premium, InClass(holders, Points))(v);
      } else if u in p.zero {
        assert NotIn(p.premium + p.priority, InClass(holders, Zero))(v);
      } else {
        var keep := NotIn(taken, Backfillable(holders, zeroPct > 0));
        assert u in Elements(p.backfill);
        assert keep(u) && keep(v);
        assert ByPoints(u, v);
      }
    }
  }

  /** Between the classes: as long as a premium user is left out only premium users are admitted, and
      as long as one with points is left out those without fill no more than their share. */
  lemma ClassesInOrder(table: set<User>, holders: set<string>, capacity: nat, priorityPct: nat, zeroPct: nat,
                       p: Picks, v: User)
    requires Picked(table, holders, capacity, priorityPct, zeroPct, p)
    requires v in table && v !in Cohort(p) && v.waiting && v.verified && v.id !in holders
    ensures v.premium ==> forall u :: u in Cohort(p) ==> u.premium
    ensures !v.premium && v.points > 0 ==> CountClass(Cohort(p), Zero) <= (capacity - |p.premium|) * zeroPct / 100
  {
    PicksByClass(table, holders, capacity, priorityPct, zeroPct, p);
    BackfillIsNeverPremium(table, holders, capacity, priorityPct, zeroPct, p);
    if v.premium {
      assert v in Matching(table, InClass(holders, Premium));
      assert |p.premium| < capacity ==> v in Elements(p.premium);
    } else if v.points > 0 {
      var keep := NotIn(p.premium + p.priority + p.zero, Backfillable(holders, zeroPct > 0));
      forall u | u in p.backfill ensures ClassOf(u) == Points {
        assert u in Elements(p.backfill) && keep(v);
        assert ByPoints(u, v);
      }
      CountClassAll(p.backfill, Points, Zero);
      CohortCounts(p, Zero);
    }
  }

  /** A share of zero for users without points is an instruction: none is admitted, not even to fill
      the wave. */
  lemma ZeroShareIsObeyed(table: set<User>, holders: set<string>, capacity: nat, priorityPct: nat, p: Picks)
    requires Picked(table, holders, capacity, priorityPct, 0, p)
    ensures forall u :: u in Cohort(p) ==> u.premium || u.points > 0
  {
    PicksByClass(table, holders, capacity, priorityPct, 0, p);
    assert p.zero == [];
    forall u | u in p.backfill ensures u.points > 0 {
      assert u in Elements(p.backfill);
    }
  }

  /** The reported breakdown: premium, points (with backfill), zero (with backfill). */
  function Breakdown(p: Picks): (nat, nat, nat) {
    var backfillZero := CountClass(p.backfill, Zero);
    (|p.premium|, |p.priority| + CountClass(p.backfill, Points), |p.zero| + backfillZero)
  }

  /** The three counts are the classes of the admitted users, and sum to the cohort. */
  lemma BreakdownIsExact(table: set<User>, holders: set<string>, capacity: nat, priorityPct: nat, zeroPct: nat,
                         p: Picks)
    requires Picked(table, holders, capacity, priorityPct, zeroPct, p)
    ensures Breakdown(p) == (CountClass(Cohort(p), Premium), CountClass(Cohort(p), Points), CountClass(Cohort(p), Zero))
    ensures Breakdown(p).0 + Breakdown(p).1 + Breakdown(p).2 == |Cohort(p)|
  {
    PicksByClass(table, holders, capacity, priorityPct, zeroPct, p);
    BackfillIsNeverPremium(table, holders, capacity, priorityPct, zeroPct, p);
    CountsSplitLength(p.backfill);
    CohortCounts(p, Premium);
    CohortCounts(p, Points);
    CohortCounts(p, Zero);
  }

  lemma CohortCounts(p: Picks, c: Class)
    requires forall u :: u in p.premium ==> ClassOf(u) == Premium
    requires forall u :: u in p.priority ==> ClassOf(u) == Points
    requires forall u :: u in p.zero ==> ClassOf(u) == Zero
    ensures CountClass(Cohort(p), c) == CountClass(p.backfill, c)
      + (match c case Premium => |p.premium| case Points => |p.priority| case Zero => |p.zero|)
  {
    CountClassSum(p.premium + p.priority + p.zero, p.backfill, c);
    CountClassSum(p.premium + p.priority, p.zero, c);
    CountClassSum(p.premium, p.priority, c);
    CountClassAll(p.premium, Premium, c);
    CountClassAll(p.priority, Points, c);
    CountClassAll(p.zero, Zero, c);
  }

  /** Premium users first; then each share of the remainder, as far as its class reaches. */
  ghost predicate Honours(table: set<User>, holders: set<string>, capacity: nat, priorityPct: nat, zeroPct: nat,
                          n: (nat, nat, nat)) {
    && n.0 == Min(capacity, |Pool(table, holders, Premium)|)
    && n.1 >= Min((capacity - n.0) * priorityPct / 100, |Pool(table, holders, Points)|)
    && n.2 >= Min((capacity - n.0) * zeroPct / 100, |Pool(table, holders, Zero)|)
  }

  /** The promised shares: premium first, then each class at least its floor, as far as the
      pools reach. */
  lemma SharesAreHonoured(table: set<User>, holders: set<string>, capacity: nat, priorityPct: nat, zeroPct: nat,
                          p: Picks)
    requires Picked(table, holders, capacity, priorityPct, zeroPct, p)
    ensures Honours(table, holders, capacity, priorityPct, zeroPct, Breakdown(p))
  {
    PicksByClass(table, holders, capacity, priorityPct, zeroPct, p);
    SelectsCount(table, InClass(holders, Premium), ByCreated, capacity, p.premium);
    assert Matching(table, InClass(holders, Premium)) == Pool(table, holders, Premium);
    var remaining := capacity - |p.premium|;
    if remaining > 0 {
      SelectsCount(table, NotIn(p.premium, InClass(holders, Points)), ByPoints, remaining * priorityPct / 100,
                   p.priority);
      assert Matching(table, NotIn(p.premium, InClass(holders, Points))) == Pool(table, holders, Points);
      SelectsCount(table, NotIn(p.premium + p.priority, InClass(holders, Zero)), ByCreated,
                   remaining * zeroPct / 100, p.zero);
      assert Matching(table, NotIn(p.premium + p.priority, InClass(holders, Zero))) == Pool(table, holders, Zero);
    }
  }

  lemma BackfillSplits(table: set<User>, holders: set<string>, capacity: nat, priorityPct: nat, zeroPct: nat, p: Picks)
    requires Picked(table, holders, capacity, priorityPct, zeroPct, p)
    ensures CountClass(p.backfill, Points) == |p.backfill| - CountClass(p.backfill, Zero)
  {
    BackfillIsNeverPremium(table, holders, capacity, priorityPct, zeroPct, p);
    CountsSplitLength(p.backfill);
  }

  /** The selections after the premium one, while seats remain. */
  method SelectRest(table: set<User>, holders: set<string>, capacity: nat, priorityPct: nat, zeroPct: nat,
                    premium: seq<User>)
    returns (priority: seq<User>, zero: seq<User>, backfill: seq<User>)
    requires priorityPct + zeroPct <= 100
    requires Selects(table, InClass(holders, Premium), ByCreated, capacity, premium) && |premium| < capacity
    ensures Picked(table, holders, capacity, priorityPct, zeroPct, Picks(premium, priority, zero, backfill))
  {
    RanksArePreorders();
    var remaining := capacity - |premium|;
    var prioritySlots := remaining * priorityPct / 100;
    var zeroSlots := remaining * zeroPct / 100;
    priority := Select(table, NotIn(premium, InClass(holders, Points)), ByPoints, prioritySlots);
    zero := Select(table, NotIn(premium + priority, InClass(holders, Zero)), ByCreated, zeroSlots);
    var selected := premium + priority + zero;
    backfill := [];
    if |selected| < capacity {
      backfill := Select(table, NotIn(selected, Backfillable(holders, zeroPct > 0)), ByPoints, capacity - |selected|);
    }
  }

  /** The four queries of `select_cohort`, after its reaping statement, and the counts it returns. */
  method RunQueries(table: set<User>, holders: set<string>, capacity: nat, priorityPct: nat, zeroPct: nat)
    returns (cohort: seq<User>, nPremium: nat, nPriority: nat, nZero: nat, ghost picks: Picks)
    requires priorityPct + zeroPct <= 100
    ensures Picked(table, holders, capacity, priorityPct, zeroPct, picks)
    ensures cohort == Cohort(picks) && (nPremium, nPriority, nZero) == Breakdown(picks)
  {
    RanksArePreorders();
    var premium := Select(table, InClass(holders, Premium), ByCreated, capacity);
    if capacity - |premium| <= 0 {
      picks := Picks(premium, [], [], []);
      assert Cohort(picks) == premium;
      return premium, |premium|, 0, 0, picks;
    }
    var priority, zero, backfill := SelectRest(table, holders, capacity, priorityPct, zeroPct, premium);
    picks := Picks(premium, priority, zero, backfill);
    BackfillSplits(table, holders, capacity, priorityPct, zeroPct, picks);
    var backfillZero := CountClass(backfill, Zero);
    cohort := premium + priority + zero + backfill;
    nPremium, nPriority, nZero := |premium|, |priority| + (|backfill| - backfillZero), |zero| + backfillZero;
  }

  /** A user who could have been admitted and was not. */
  ghost predicate LeftOut(table: set<User>, holders: set<string>, cohort: seq<User>, v: User) {
    v in table && v !in cohort && v.waiting && v.verified && v.id !in holders
  }

  /** The admitted users of a class, by the columns that make it. */
  ghost function Admitted(cohort: seq<User>, c: Class): set<User> {
    match c
    case Premium => set u | u in cohort && u.premium
    case Points => set u | u in cohort && !u.premium && u.points > 0
    case Zero => set u | u in cohort && !u.premium && u.points == 0
  }

  /** What the wave promises of its cohort, said over the columns alone: nobody twice, only those who
      wait, verified and without a live token; within the capacity; nobody passed over in a class;
      the classes in order; and everyone, when there is room, unless zero-point users are unwanted. */
  ghost predicate Fair(table: set<User>, holders: set<string>, capacity: nat, zeroPct: nat, cohort: seq<User>) {
    && DistinctIds(cohort) && |cohort| <= capacity
    && (forall u :: u in cohort ==> u in table && u.waiting && u.verified && u.id !in holders)
    && (forall u, v :: u in cohort && LeftOut(table, holders, cohort, v) ==> !Outranks(v, u))
    && (forall v :: LeftOut(table, holders, cohort, v) ==> YieldsTo(capacity, zeroPct, cohort, v))
    && (zeroPct == 0 ==> forall u :: u in cohort ==> u.premium || u.points > 0)
  }

  /** Why a left-out user is: the cohort is full, of premium users if this is one, and without more
      zero-point users than their share if this one has points; or nobody asked for zero points. */
  ghost predicate YieldsTo(capacity: nat, zeroPct: nat, cohort: seq<User>, v: User) {
    && (|cohort| < capacity ==> !v.premium && v.points == 0 && zeroPct == 0)
    && (v.premium ==> forall u :: u in cohort ==> u.premium)
    && (!v.premium && v.points > 0 ==>
          |Admitted(cohort, Zero)| <= (capacity - |Admitted(cohort, Premium)|) * zeroPct / 100)
  }

  ghost function OfClass(s: seq<User>, c: Class): set<User> {
    set u | u in s && ClassOf(u) == c
  }

  lemma OfClassOneMore(s: seq<User>, x: User, c: Class)
    requires x !in s
    ensures |OfClass(s + [x], c)| == |OfClass(s, c)| + if ClassOf(x) == c then 1 else 0
  {
    if ClassOf(x) == c {
      assert OfClass(s + [x], c) == OfClass(s, c) + {x};
    } else {
      assert OfClass(s + [x], c) == OfClass(s, c);
    }
  }

  lemma {:induction false} CountIsSize(s: seq<User>, c: Class)
    requires Distinct(s)
    ensures CountClass(s, c) == |OfClass(s, c)| && OfClass(s, c) == Admitted(s, c)
  {
    if s != [] {
      var n := |s| - 1;
      CountIsSize(s[..n], c);
      assert s == s[..n] + [s[n]] && s[n] !in s[..n];
      OfClassOneMore(s[..n], s[n], c);
    }
    AdmittedByClass(s, c);
  }

  lemma AdmittedByClass(s: seq<User>, c: Class)
    ensures OfClass(s, c) == Admitted(s, c)
  {
  }

  lemma LeftOutYields(table: set<User>, holders: set<string>, capacity: nat, priorityPct: nat, zeroPct: nat, p: Picks,
                      v: User)
    requires Picked(table, holders, capacity, priorityPct, zeroPct, p) && priorityPct + zeroPct <= 100
    requires LeftOut(table, holders, Cohort(p), v)
    ensures YieldsTo(capacity, zeroPct, Cohort(p), v)
  {
    ClassesInOrder(table, holders, capacity, priorityPct, zeroPct, p, v);
    if |Cohort(p)| < capacity {
      ShortCohortTakesEveryone(table, holders, capacity, priorityPct, zeroPct, p, v);
    }
    CohortOnce(table, holders, capacity, priorityPct, zeroPct, p);
    BreakdownIsExact(table, holders, capacity, priorityPct, zeroPct, p);
    CountIsSize(Cohort(p), Zero);
    CountIsSize(Cohort(p), Premium);
  }

  lemma PickedIsFair(table: set<User>, holders: set<string>, capacity: nat, priorityPct: nat, zeroPct: nat, p: Picks)
    requires Picked(table, holders, capacity, priorityPct, zeroPct, p) && priorityPct + zeroPct <= 100
      && UniqueIds(table)
    ensures Fair(table, holders, capacity, zeroPct, Cohort(p))
  {
    var cohort := Cohort(p);
    CohortIsSound(table, holders, capacity, priorityPct, zeroPct, p);
    forall u, v | u in cohort && LeftOut(table, holders, cohort, v) ensures !Outranks(v, u) {
      NobodyIsPassedOver(table, holders, capacity, priorityPct, zeroPct, p, u, v);
    }
    if zeroPct == 0 {
      ZeroShareIsObeyed(table, holders, capacity, priorityPct, p);
    }
    forall v | LeftOut(table, holders, cohort, v) ensures YieldsTo(capacity, zeroPct, cohort, v) {
      LeftOutYields(table, holders, capacity, priorityPct, zeroPct, p, v);
    }
  }

  /** `select_cohort`: a fair cohort, and the true number of each class in it. */
  method SelectCohort(table: set<User>, holders: set<string>, capacity: nat, priorityPct: nat, zeroPct: nat)
    returns (cohort: seq<User>, nPremium: nat, nPriority: nat, nZero: nat)
    requires priorityPct + zeroPct <= 100 && UniqueIds(table)
    ensures Fair(table, holders, capacity, zeroPct, cohort)
    ensures (nPremium, nPriority, nZero)
      == (|Admitted(cohort, Premium)|, |Admitted(cohort, Points)|, |Admitted(cohort, Zero)|)
    ensures nPremium + nPriority + nZero == |cohort|
    ensures Honours(table, holders, capacity, priorityPct, zeroPct, (nPremium, nPriority, nZero))
  {
    ghost var p;
    cohort, nPremium, nPriority, nZero, p := RunQueries(table, holders, capacity, priorityPct, zeroPct);
    PickedIsFair(table, holders, capacity, priorityPct, zeroPct, p);
    BreakdownIsExact(table, holders, capacity, priorityPct, zeroPct, p);
    SharesAreHonoured(table, holders, capacity, priorityPct, zeroPct, p);
    CohortOnce(table, holders, capacity, priorityPct, zeroPct, p);
    CountIsSize(cohort, Premium);
    CountIsSize(cohort, Points);
    CountIsSize(cohort, Zero);
  }
}
