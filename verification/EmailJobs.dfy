/** The waitlist mail queue: signup and resend enqueue, the dispatcher claims in one
    transaction, sends outside any, and records the outcome in another. Workers may die at any
    point; a job left `sending` is reclaimed after a window. Mailboxes are suppressed one way. */
module EmailJobs {

  /** Times are seconds. */
  const DAY := 24 * 60 * 60

  datatype Config = Config(maxAttempts: nat, reclaimAfter: nat, linkLimit: nat, linkWindow: nat)

  datatype Template = Confirm | MagicLink | BaseList
  datatype Status = Pending | Sending | Sent | Skipped | Failed
  datatype Job = Job(user: string, template: Template, status: Status, attempts: nat, sentAt: int, dueAt: int)

  datatype Mailbox = Active | Unsubscribed | Bounced | Complained
  datatype User = User(verified: bool, mailbox: Mailbox)

  /** What a worker carries from its claim: the row as it was read then. */
  datatype Claim = Claim(job: nat, user: string, template: Template, attempts: nat, mailbox: Mailbox, verified: bool,
                         at: int)

  /** `minted` names, per user, the claim that minted the one confirm token not yet burned. */
  datatype Queue = Queue(now: int, users: map<string, User>, jobs: map<nat, Job>, requests: seq<(string, int)>,
                         claims: map<nat, Claim>, minted: map<string, nat>)

  predicate Claimable(cfg: Config, j: Job) {
    j.status in {Pending, Sending} && j.attempts < cfg.maxAttempts
  }

  // ----- decisions -----

  datatype Decision = Send | Skip(terminal: bool)

  /** `should_send`, over what the claim read. */
  function ShouldSend(c: Claim): Decision {
    if c.mailbox != Active then Skip(c.mailbox != Unsubscribed)
    else if c.template == BaseList && !c.verified then Skip(false)
    else Send
  }

  /** The row after the drain loop has dealt with one claimed job. */
  function Outcome(cfg: Config, c: Claim, delivered: bool, j: Job): Job {
    match ShouldSend(c)
    case Skip(terminal) =>
      if terminal then j.(status := Skipped) else j.(status := Pending, attempts := 0)
    case Send =>
      if delivered then j.(status := Sent)
      else j.(status := if c.attempts >= cfg.maxAttempts then Failed else Pending)
  }

  // ----- enqueueing -----

  function Recent(cfg: Config, now: int, requests: seq<(string, int)>, user: string): nat {
    if requests == [] then 0
    else
      var (u, t) := requests[|requests| - 1];
      Recent(cfg, now, requests[..|requests| - 1], user) + if u == user && t > now - cfg.linkWindow then 1 else 0
  }

  datatype Reply = SentConfirm | SentSignin | Suppressed | Throttled

  predicate AlreadyComing(cfg: Config, q: Queue, user: string, template: Template) {
    exists i :: i in q.jobs && q.jobs[i].user == user && q.jobs[i].template == template && Claimable(cfg, q.jobs[i])
  }

  function NewJob(user: string, template: Template, due: int): Job {
    Job(user, template, Pending, 0, due, due)
  }

  /** `resend_link`, in one transaction under the user's row lock. */
  function Resend(cfg: Config, q: Queue, user: string, id: nat): (Queue, Reply) {
    if user !in q.users then (q, Suppressed)
    else
      var template := if q.users[user].verified then MagicLink else Confirm;
      var kind := if q.users[user].verified then SentSignin else SentConfirm;
      if q.users[user].mailbox != Active then (q, Suppressed)
      else if AlreadyComing(cfg, q, user, template) then (q, kind)
      else if Recent(cfg, q.now, q.requests, user) >= cfg.linkLimit then (q, Throttled)
      else (q.(requests := q.requests + [(user, q.now)], jobs := q.jobs[id := NewJob(user, template, q.now)]), kind)
  }

  // ----- the door and the drain loop, said over the rows -----

  /** Which of the user's requests came after this moment. */
  ghost function After(requests: seq<(string, int)>, user: string, since: int): set<nat> {
    set i: nat | i < |requests| && requests[i].0 == user && requests[i].1 > since
  }

  lemma AfterOneMore(requests: seq<(string, int)>, r: (string, int), user: string, since: int)
    ensures |After(requests + [r], user, since)|
      == |After(requests, user, since)| + if r.0 == user && r.1 > since then 1 else 0
  {
    var n, a, b := |requests|, After(requests, user, since), After(requests + [r], user, since);
    assert (requests + [r])[n] == r && forall i: nat :: i < n ==> (requests + [r])[i] == requests[i];
    if r.0 == user && r.1 > since {
      assert b == a + {n} && n !in a;
    } else {
      assert b == a;
    }
  }

  lemma {:induction false} RecentCounts(cfg: Config, now: int, requests: seq<(string, int)>, user: string)
    ensures Recent(cfg, now, requests, user) == |After(requests, user, now - cfg.linkWindow)|
  {
    if requests == [] {
      assert After(requests, user, now - cfg.linkWindow) == {};
    } else {
      var n := |requests| - 1;
      RecentCounts(cfg, now, requests[..n], user);
      AfterOneMore(requests[..n], requests[n], user, now - cfg.linkWindow);
      assert requests == requests[..n] + [requests[n]];
    }
  }

  /** Such a job may still be taken. */
  ghost predicate MayStillGo(cfg: Config, q: Queue, user: string, template: Template) {
    exists i :: i in q.jobs && q.jobs[i].user == user && q.jobs[i].template == template
      && (q.jobs[i].status == Pending || q.jobs[i].status == Sending) && q.jobs[i].attempts < cfg.maxAttempts
  }

  /** The door, case by case: silence for a stranger or a suppressed mailbox; the same answer as a new
      mail would get while one may still go; no more than the limit inside the window; and otherwise
      one request noted and one job queued, due at once: a login link for a verified user, a
      confirmation for another. */
  lemma ResendAnswers(cfg: Config, q: Queue, user: string, id: nat)
    ensures var (r, reply) := Resend(cfg, q, user, id);
      && (reply == Suppressed <==> user !in q.users || q.users[user].mailbox != Active)
      && (user in q.users && q.users[user].mailbox == Active ==>
            var verified := q.users[user].verified;
            var template := if verified then MagicLink else Confirm;
            && (reply == Throttled <==>
                  !MayStillGo(cfg, q, user, template)
                      && |After(q.requests, user, q.now - cfg.linkWindow)| >= cfg.linkLimit)
            && (reply in {SentConfirm, SentSignin} ==> (reply == SentSignin <==> verified))
            && (r != q ==> reply in {SentConfirm, SentSignin})
            && (reply in {SentConfirm, SentSignin} && !MayStillGo(cfg, q, user, template) ==>
                  r == q.(requests := q.requests + [(user, q.now)],
                          jobs := q.jobs[id := Job(user, template, Pending, 0, q.now, q.now)]))
            && (MayStillGo(cfg, q, user, template) ==> r == q))
  {
    RecentCounts(cfg, q.now, q.requests, user);
    if user in q.users {
      var template := if q.users[user].verified then MagicLink else Confirm;
      assert AlreadyComing(cfg, q, user, template) <==> MayStillGo(cfg, q, user, template);
    }
  }

  /** What becomes of a claimed job, by what the claim read: an unsubscribed user's waits with its
      attempts restored, a bounced or complaining one's is skipped for good, a list mail waits for
      its user to confirm; a mail that went out is sent, one that did not waits until its last
      attempt has failed. */
  lemma OutcomeIs(cfg: Config, c: Claim, delivered: bool, j: Job)
    ensures var o := Outcome(cfg, c, delivered, j);
      && o == j.(status := o.status, attempts := o.attempts)
      && (c.mailbox == Unsubscribed ==> o.status == Pending && o.attempts == 0)
      && (c.mailbox in {Bounced, Complained} ==> o.status == Skipped && o.attempts == j.attempts)
      && (c.mailbox == Active && c.template == BaseList && !c.verified ==> o.status == Pending && o.attempts == 0)
      && (c.mailbox == Active && (c.template != BaseList || c.verified) ==>
            && o.attempts == j.attempts
            && (delivered ==> o.status == Sent)
            && (!delivered ==> o.status == if c.attempts >= cfg.maxAttempts then Failed else Pending))
  {
  }

  class Desk {
    const cfg: Config
    var q: Queue

    constructor (cfg: Config, q: Queue)
      ensures this.cfg == cfg && this.q == q
    {
      this.cfg, this.q := cfg, q;
    }

    /** SELECT 1 ... WHERE the job is claimable. */
    method FindComing(user: string, template: Template) returns (found: bool)
      ensures found == AlreadyComing(cfg, q, user, template)
    {
      found := false;
      var todo := q.jobs.Keys;
      while todo != {}
        invariant todo <= q.jobs.Keys
        invariant found <==> exists i :: i in q.jobs && i !in todo && q.jobs[i].user == user
                                         && q.jobs[i].template == template && Claimable(cfg, q.jobs[i])
        decreases todo
      {
        var i :| i in todo;
        if q.jobs[i].user == user && q.jobs[i].template == template && Claimable(cfg, q.jobs[i]) {
          found := true;
        }
        todo := todo - {i};
      }
    }

    method ResendLink(user: string, id: nat) returns (reply: Reply)
      modifies this
      ensures (q, reply) == Resend(cfg, old(q), user, id)
    {
      if user !in q.users {
        return Suppressed;
      }
      var locked := q.users[user];
      var kind := if locked.verified then SentSignin else SentConfirm;
      var template := if locked.verified then MagicLink else Confirm;
      if locked.mailbox != Active {
        return Suppressed;
      }
      var coming := FindComing(user, template);
      if coming {
        return kind;
      }
      if Recent(cfg, q.now, q.requests, user) >= cfg.linkLimit {
        return Throttled;
      }
      q := q.(requests := q.requests + [(user, q.now)]);
      q := q.(jobs := q.jobs[id := NewJob(user, template, q.now)]);
      return kind;
    }

    /** One turn of the drain loop: decide, send, and record the outcome. */
    method Drain(claim: nat, delivered: bool)
      requires claim in q.claims && q.claims[claim].job in q.jobs
      modifies this
      ensures var c := old(q).claims[claim];
        q == old(q).(jobs := old(q).jobs[c.job := Outcome(cfg, c, delivered, old(q).jobs[c.job])],
                     claims := old(q).claims - {claim})
    {
      var c := q.claims[claim];
      var row := q.jobs[c.job];
      var decision := ShouldSend(c);
      if decision.Skip? {
        row := row.(status := if decision.terminal then Skipped else Pending);
        if !decision.terminal {
          row := row.(attempts := 0);
        }
      } else if delivered {
        row := row.(status := Sent);
      } else {
        var terminal := c.attempts >= cfg.maxAttempts;
        row := row.(status := if terminal then Failed else Pending);
      }
      q := q.(jobs := q.jobs[c.job := row], claims := q.claims - {claim});
    }
  }

  // ----- runs -----

  datatype Action =
    | Tick(to: int)
    | Signup(user: string, confirm: nat, survey: nat, update: nat)
    | Ask(user: string, id: nat)
    | Take(id: nat, claim: nat)
    | Settle(claim: nat, delivered: bool)
    | Crash(claim: nat)
    | Suppress(user: string, mailbox: Mailbox)
    | Verify(user: string)

  predicate Live(cfg: Config, q: Queue, c: Claim) {
    q.now <= c.at + cfg.reclaimAfter
  }

  predicate Due(cfg: Config, q: Queue, j: Job) {
    && (j.status == Pending || (j.status == Sending && j.sentAt < q.now - cfg.reclaimAfter))
    && j.dueAt <= q.now && j.attempts < cfg.maxAttempts
  }

  predicate Enabled(cfg: Config, q: Queue, a: Action) {
    match a
    case Tick(to) => q.now <= to
    case Signup(user, c, s, u) =>
      user !in q.users && c !in q.jobs && s !in q.jobs && u !in q.jobs && c != s && s != u && c != u
    case Ask(_, id) => id !in q.jobs
    case Take(id, claim) => id in q.jobs && Due(cfg, q, q.jobs[id]) && claim !in q.claims && q.jobs[id].user in q.users
    case Settle(claim, _) => claim in q.claims && q.claims[claim].job in q.jobs
    case Crash(claim) => claim in q.claims
    case Suppress(user, mailbox) => user in q.users && q.users[user].mailbox == Active && mailbox != Active
    case Verify(user) => user in q.users
  }

  /** No worker outlives the reclaim window: an outcome is recorded while its claim is live. */
  predicate OnTime(cfg: Config, q: Queue, a: Action) {
    a.Settle? && a.claim in q.claims ==> Live(cfg, q, q.claims[a.claim])
  }

  function TakeClaim(q: Queue, id: nat): Claim
    requires id in q.jobs && q.jobs[id].user in q.users
  {
    var j := q.jobs[id];
    Claim(id, j.user, j.template, j.attempts + 1, q.users[j.user].mailbox, q.users[j.user].verified, q.now)
  }

  function Step(cfg: Config, q: Queue, a: Action): Queue
    requires Enabled(cfg, q, a)
  {
    match a
    case Tick(to) => q.(now := to)
    case Signup(user, c, s, u) =>
      q.(users := q.users[user := User(false, Active)],
         jobs := q.jobs[c := NewJob(user, Confirm, q.now)][s := NewJob(user, BaseList, q.now + DAY)]
                       [u := NewJob(user, BaseList, q.now + 14 * DAY)])
    case Ask(user, id) => Resend(cfg, q, user, id).0
    case Take(id, claim) =>
      var j := q.jobs[id];
      q.(jobs := q.jobs[id := j.(status := Sending, attempts := j.attempts + 1, sentAt := q.now)],
         claims := q.claims[claim := TakeClaim(q, id)],
         minted := if j.template == Confirm then q.minted[j.user := claim] else q.minted)
    case Settle(claim, delivered) =>
      var c := q.claims[claim];
      q.(jobs := q.jobs[c.job := Outcome(cfg, c, delivered, q.jobs[c.job])], claims := q.claims - {claim})
    case Crash(claim) => q.(claims := q.claims - {claim})
    case Suppress(user, mailbox) => q.(users := q.users[user := q.users[user].(mailbox := mailbox)])
    case Verify(user) => q.(users := q.users[user := q.users[user].(verified := true)])
  }

  /** What may be taken, and what taking does: a pending job, or one whose worker has outlived the
      window, that is due and has attempts left; it goes `sending`, one attempt further, and the claim
      carries what the user's row says now; a confirmation's new token replaces the last. */
  lemma TakingIs(cfg: Config, q: Queue, id: nat, claim: nat)
    ensures Enabled(cfg, q, Take(id, claim)) <==>
      && id in q.jobs && claim !in q.claims && q.jobs[id].user in q.users
      && q.jobs[id].dueAt <= q.now && q.jobs[id].attempts < cfg.maxAttempts
      && (q.jobs[id].status == Pending
          || (q.jobs[id].status == Sending && q.jobs[id].sentAt + cfg.reclaimAfter < q.now))
    ensures Enabled(cfg, q, Take(id, claim)) ==>
      var j, u, r := q.jobs[id], q.users[q.jobs[id].user], Step(cfg, q, Take(id, claim));
      && r.jobs == q.jobs[id := Job(j.user, j.template, Sending, j.attempts + 1, q.now, j.dueAt)]
      && r.claims == q.claims[claim := Claim(id, j.user, j.template, j.attempts + 1, u.mailbox, u.verified, q.now)]
      && r.minted == (if j.template == Confirm then q.minted[j.user := claim] else q.minted)
      && (r.now, r.users, r.requests) == (q.now, q.users, q.requests)
  {
  }

  /** A signup brings the user, unverified and reachable, and three mails: the confirmation due at once,
      one list mail a day later and one after two weeks. */
  lemma SignupIs(cfg: Config, q: Queue, user: string, c: nat, s: nat, u: nat)
    requires Enabled(cfg, q, Signup(user, c, s, u))
    ensures var r := Step(cfg, q, Signup(user, c, s, u));
      && r.users == q.users[user := User(false, Active)] && r.jobs.Keys == q.jobs.Keys + {c, s, u}
      && r.jobs[c] == Job(user, Confirm, Pending, 0, q.now, q.now)
      && r.jobs[s] == Job(user, BaseList, Pending, 0, q.now + 86_400, q.now + 86_400)
      && r.jobs[u] == Job(user, BaseList, Pending, 0, q.now + 1_209_600, q.now + 1_209_600)
      && forall i :: i in q.jobs ==> r.jobs[i] == q.jobs[i]
  {
  }

  // ----- what every run keeps -----

  /** A live claim still owns its row: nobody can have touched it since. */
  ghost predicate Owns(cfg: Config, q: Queue, i: nat)
    requires i in q.claims
  {
    var c := q.claims[i];
    && c.job in q.jobs
    && var j := q.jobs[c.job];
    && j.status == Sending && j.attempts == c.attempts && j.sentAt == c.at
    && (j.user, j.template) == (c.user, c.template)
    && c.user in q.users
    && (c.mailbox != Active ==> q.users[c.user].mailbox != Active)
  }

  /** The confirm jobs that may yet be claimed: claimable now, or about to be put back by a
      worker that read a suppressed mailbox. */
  ghost predicate MayYetGo(cfg: Config, q: Queue, id: nat) {
    && id in q.jobs && q.jobs[id].template == Confirm
    && (Claimable(cfg, q.jobs[id])
        || exists i :: i in q.claims && q.claims[i].job == id && Live(cfg, q, q.claims[i])
              && q.claims[i].mailbox != Active)
  }

  ghost predicate Acting(cfg: Config, q: Queue, i: nat) {
    i in q.claims && Live(cfg, q, q.claims[i])
  }

  ghost predicate Rooted(q: Queue) {
    forall i :: i in q.jobs ==> q.jobs[i].user in q.users
  }

  ghost predicate OwnersAreSound(cfg: Config, q: Queue) {
    forall i {:trigger Acting(cfg, q, i)} :: Acting(cfg, q, i) ==> Owns(cfg, q, i)
  }

  ghost predicate OneOwnerEach(cfg: Config, q: Queue) {
    forall i, k :: Acting(cfg, q, i) && Acting(cfg, q, k) && q.claims[i].job == q.claims[k].job ==> i == k
  }

  /** The promise: per user at most one confirm mail is on its way. */
  ghost predicate OneConfirmEach(cfg: Config, q: Queue) {
    forall i, k :: MayYetGo(cfg, q, i) && MayYetGo(cfg, q, k) && q.jobs[i].user == q.jobs[k].user ==> i == k
  }

  /** The confirm token a worker is about to mail has not been burned by another claim,
      unless the worker is on its last attempt. */
  ghost predicate TokensAreFresh(cfg: Config, q: Queue) {
    forall i {:trigger Acting(cfg, q, i)} ::
      Acting(cfg, q, i) && q.claims[i].template == Confirm && q.claims[i].attempts < cfg.maxAttempts ==>
        q.claims[i].user in q.minted && q.minted[q.claims[i].user] == i
  }

  ghost predicate Inv(cfg: Config, q: Queue) {
    Rooted(q) && OwnersAreSound(cfg, q) && OneOwnerEach(cfg, q) && OneConfirmEach(cfg, q) && TokensAreFresh(cfg, q)
  }

  /** If nothing new may go and no claim starts acting, uniqueness carries over. */
  lemma FewerMayGo(cfg: Config, q: Queue, q': Queue)
    requires OneConfirmEach(cfg, q) && OneOwnerEach(cfg, q)
    requires forall i :: MayYetGo(cfg, q', i) ==> MayYetGo(cfg, q, i) && q'.jobs[i].user == q.jobs[i].user
    requires forall i :: Acting(cfg, q', i) ==> Acting(cfg, q, i) && q'.claims[i].job == q.claims[i].job
    ensures OneConfirmEach(cfg, q') && OneOwnerEach(cfg, q')
  {
  }

  lemma TickKeepsInv(cfg: Config, q: Queue, to: int)
    requires Inv(cfg, q) && q.now <= to
    ensures Inv(cfg, q.(now := to))
  {
    var q' := q.(now := to);
    forall i | Acting(cfg, q', i) ensures Acting(cfg, q, i) {}
    forall i | MayYetGo(cfg, q', i) ensures MayYetGo(cfg, q, i) {
      if !Claimable(cfg, q'.jobs[i]) {
        var k :| k in q'.claims && q'.claims[k].job == i && Live(cfg, q', q'.claims[k])
            && q'.claims[k].mailbox != Active;
        assert Live(cfg, q, q.claims[k]);
      }
    }
    FewerMayGo(cfg, q, q');
    forall i | Acting(cfg, q', i) ensures Owns(cfg, q', i) { assert Owns(cfg, q, i); }
  }

  lemma CrashKeepsInv(cfg: Config, q: Queue, claim: nat)
    requires Inv(cfg, q)
    ensures Inv(cfg, q.(claims := q.claims - {claim}))
  {
    var q' := q.(claims := q.claims - {claim});
    forall i | Acting(cfg, q', i) ensures Acting(cfg, q, i) && q'.claims[i] == q.claims[i] {}
    forall i | MayYetGo(cfg, q', i) ensures MayYetGo(cfg, q, i) {
      if !Claimable(cfg, q'.jobs[i]) {
        var k :| k in q'.claims && q'.claims[k].job == i && Live(cfg, q', q'.claims[k])
            && q'.claims[k].mailbox != Active;
        assert Live(cfg, q, q.claims[k]);
      }
    }
    FewerMayGo(cfg, q, q');
    forall i | Acting(cfg, q', i) ensures Owns(cfg, q', i) { assert Owns(cfg, q, i); }
  }

  lemma UserKeepsInv(cfg: Config, q: Queue, user: string, row: User)
    requires Inv(cfg, q) && user in q.users
    requires row.mailbox == Active ==> q.users[user].mailbox == Active
    ensures Inv(cfg, q.(users := q.users[user := row]))
  {
    var q' := q.(users := q.users[user := row]);
    forall i ensures Acting(cfg, q', i) <==> Acting(cfg, q, i) {}
    forall i ensures MayYetGo(cfg, q', i) ==> MayYetGo(cfg, q, i) {
      if MayYetGo(cfg, q', i) && !Claimable(cfg, q'.jobs[i]) {
        var k :| k in q'.claims && q'.claims[k].job == i && Live(cfg, q', q'.claims[k])
            && q'.claims[k].mailbox != Active;
        assert Live(cfg, q, q.claims[k]);
      }
    }
    FewerMayGo(cfg, q, q');
    forall i | Acting(cfg, q', i) ensures Owns(cfg, q', i) { assert Acting(cfg, q, i); assert Owns(cfg, q, i); }
  }

  /** A new job beside the others: the claims see no difference. */
  lemma NewJobKeepsInv(cfg: Config, q: Queue, id: nat, user: string, template: Template, due: int)
    requires Inv(cfg, q) && id !in q.jobs && user in q.users
    requires template == Confirm ==> forall i :: MayYetGo(cfg, q, i) ==> q.jobs[i].user != user
    ensures Inv(cfg, q.(jobs := q.jobs[id := NewJob(user, template, due)]))
  {
    var q' := q.(jobs := q.jobs[id := NewJob(user, template, due)]);
    forall i ensures Acting(cfg, q', i) <==> Acting(cfg, q, i) {}
    forall i | Acting(cfg, q', i) ensures Owns(cfg, q', i) { assert Acting(cfg, q, i); assert Owns(cfg, q, i); }
    forall i | MayYetGo(cfg, q', i) && i != id ensures MayYetGo(cfg, q, i) {
      if !Claimable(cfg, q'.jobs[i]) {
        var k :| k in q'.claims && q'.claims[k].job == i && Live(cfg, q', q'.claims[k])
            && q'.claims[k].mailbox != Active;
        assert Live(cfg, q, q.claims[k]);
      }
    }
  }

  lemma NewUserKeepsInv(cfg: Config, q: Queue, user: string)
    requires Inv(cfg, q) && user !in q.users
    ensures Inv(cfg, q.(users := q.users[user := User(false, Active)]))
    ensures forall i :: i in q.jobs ==> q.jobs[i].user != user
  {
    var q1 := q.(users := q.users[user := User(false, Active)]);
    forall i ensures Acting(cfg, q1, i) <==> Acting(cfg, q, i) {}
    forall i ensures MayYetGo(cfg, q1, i) <==> MayYetGo(cfg, q, i) {
      SameMayGo(cfg, q, q1, i);
    }
    forall i | Acting(cfg, q1, i) ensures Owns(cfg, q1, i) { assert Acting(cfg, q, i); assert Owns(cfg, q, i); }
  }

  lemma ListMailKeepsInv(cfg: Config, q: Queue, id: nat, user: string, due: int)
    requires Inv(cfg, q) && id !in q.jobs && user in q.users
    ensures Inv(cfg, q.(jobs := q.jobs[id := NewJob(user, BaseList, due)]))
  {
    NewJobKeepsInv(cfg, q, id, user, BaseList, due);
  }

  lemma ConfirmKeepsInv(cfg: Config, q: Queue, id: nat, user: string)
    requires Inv(cfg, q) && id !in q.jobs && user !in q.users
    ensures Inv(cfg, WithConfirm(q, user, id))
  {
    NewUserKeepsInv(cfg, q, user);
    NewJobKeepsInv(cfg, q.(users := q.users[user := User(false, Active)]), id, user, Confirm, q.now);
  }

  lemma ListMailsKeepInv(cfg: Config, q: Queue, s: nat, u: nat, user: string, d: int, e: int)
    requires Inv(cfg, q) && s !in q.jobs && u !in q.jobs && s != u && user in q.users
    ensures Inv(cfg, q.(jobs := q.jobs[s := NewJob(user, BaseList, d)][u := NewJob(user, BaseList, e)]))
  {
    ListMailKeepsInv(cfg, q, s, user, d);
    ListMailKeepsInv(cfg, q.(jobs := q.jobs[s := NewJob(user, BaseList, d)]), u, user, e);
  }

  lemma SignupKeepsInv(cfg: Config, q: Queue, user: string, c: nat, s: nat, u: nat)
    requires Inv(cfg, q) && Enabled(cfg, q, Signup(user, c, s, u))
    ensures Inv(cfg, Step(cfg, q, Signup(user, c, s, u)))
  {
    ConfirmKeepsInv(cfg, q, c, user);
    ListMailsKeepInv(cfg, WithConfirm(q, user, c), s, u, user, q.now + DAY, q.now + 14 * DAY);
    SignupInSteps(cfg, q, user, c, s, u);
  }

  function WithConfirm(q: Queue, user: string, c: nat): Queue {
    q.(users := q.users[user := User(false, Active)], jobs := q.jobs[c := NewJob(user, Confirm, q.now)])
  }

  lemma SignupInSteps(cfg: Config, q: Queue, user: string, c: nat, s: nat, u: nat)
    requires Enabled(cfg, q, Signup(user, c, s, u))
    ensures var r := WithConfirm(q, user, c);
      Step(cfg, q, Signup(user, c, s, u)) ==
        r.(jobs := r.jobs[s := NewJob(user, BaseList, q.now + DAY)][u := NewJob(user, BaseList, q.now + 14 * DAY)])
  {
  }

  lemma SameMayGo(cfg: Config, q: Queue, q': Queue, i: nat)
    requires (q.now, q.jobs, q.claims) == (q'.now, q'.jobs, q'.claims)
    ensures MayYetGo(cfg, q', i) <==> MayYetGo(cfg, q, i)
  {
    if i in q.jobs && !Claimable(cfg, q.jobs[i]) {
      if MayYetGo(cfg, q, i) {
        var k :| k in q.claims && q.claims[k].job == i && Live(cfg, q, q.claims[k]) && q.claims[k].mailbox != Active;
        assert Live(cfg, q', q'.claims[k]);
      }
      if MayYetGo(cfg, q', i) {
        var k :| k in q'.claims && q'.claims[k].job == i && Live(cfg, q', q'.claims[k])
            && q'.claims[k].mailbox != Active;
        assert Live(cfg, q, q.claims[k]);
      }
    }
  }

  lemma AskKeepsInv(cfg: Config, q: Queue, user: string, id: nat)
    requires Inv(cfg, q) && id !in q.jobs
    ensures Inv(cfg, Resend(cfg, q, user, id).0)
  {
    var q' := Resend(cfg, q, user, id).0;
    if q' != q {
      var template := if q.users[user].verified then MagicLink else Confirm;
      forall i | template == Confirm && MayYetGo(cfg, q, i) ensures q.jobs[i].user != user {
        if q.jobs[i].user == user && !Claimable(cfg, q.jobs[i]) {
          var k :| k in q.claims && q.claims[k].job == i && Live(cfg, q, q.claims[k]) && q.claims[k].mailbox != Active;
          assert Acting(cfg, q, k);
        }
      }
      NewJobKeepsInv(cfg, q, id, user, template, q.now);
      var q1 := q.(jobs := q.jobs[id := NewJob(user, template, q.now)]);
      RequestsAreIrrelevant(cfg, q1, q');
    }
  }

  lemma RequestsAreIrrelevant(cfg: Config, q: Queue, q': Queue)
    requires Inv(cfg, q) && q' == q.(requests := q'.requests)
    ensures Inv(cfg, q')
  {
    forall i ensures Acting(cfg, q', i) <==> Acting(cfg, q, i) {}
    forall i ensures MayYetGo(cfg, q', i) <==> MayYetGo(cfg, q, i) { SameMayGo(cfg, q, q', i); }
    forall i | Acting(cfg, q', i) ensures Owns(cfg, q', i) { assert Acting(cfg, q, i); assert Owns(cfg, q, i); }
  }

  /** A due job has no acting owner. */
  lemma DueIsUnowned(cfg: Config, q: Queue, id: nat, k: nat)
    requires Inv(cfg, q) && id in q.jobs && Due(cfg, q, q.jobs[id]) && Acting(cfg, q, k)
    ensures q.claims[k].job != id
  {
    assert Owns(cfg, q, k);
  }

  lemma TakeKeepsInv(cfg: Config, q: Queue, id: nat, claim: nat)
    requires Inv(cfg, q) && Enabled(cfg, q, Take(id, claim))
    ensures Inv(cfg, Step(cfg, q, Take(id, claim)))
  {
    var q' := Step(cfg, q, Take(id, claim));
    var j := q.jobs[id];
    forall i | Acting(cfg, q', i) && i != claim
      ensures Acting(cfg, q, i) && q'.claims[i] == q.claims[i] && q.claims[i].job != id && Owns(cfg, q, i)
    {
      assert i in q.claims && q'.claims[i] == q.claims[i];
      assert Acting(cfg, q, i);
      assert Owns(cfg, q, i);
      DueIsUnowned(cfg, q, id, i);
    }
    forall i | Acting(cfg, q', i) ensures Owns(cfg, q', i) {
      if i != claim {
        assert Owns(cfg, q, i) && q'.jobs[q.claims[i].job] == q.jobs[q.claims[i].job];
      }
    }
    assert OneOwnerEach(cfg, q');
    assert j.template == Confirm ==> MayYetGo(cfg, q, id);
    forall i | MayYetGo(cfg, q', i) ensures MayYetGo(cfg, q, i) && q'.jobs[i].user == q.jobs[i].user {
      if i != id && !Claimable(cfg, q'.jobs[i]) {
        var k :| k in q'.claims && q'.claims[k].job == i && Live(cfg, q', q'.claims[k])
            && q'.claims[k].mailbox != Active;
        assert Live(cfg, q, q.claims[k]);
      }
    }
    forall i | Acting(cfg, q', i) && q'.claims[i].template == Confirm && q'.claims[i].attempts < cfg.maxAttempts
      ensures q'.claims[i].user in q'.minted && q'.minted[q'.claims[i].user] == i
    {
      if i != claim {
        assert Owns(cfg, q, i);
        assert MayYetGo(cfg, q, q.claims[i].job);
        assert j.template == Confirm ==> q.claims[i].user != j.user;
      }
    }
  }

  lemma SettleKeepsInv(cfg: Config, q: Queue, claim: nat, delivered: bool)
    requires Inv(cfg, q) && Enabled(cfg, q, Settle(claim, delivered)) && Live(cfg, q, q.claims[claim])
    ensures Inv(cfg, Step(cfg, q, Settle(claim, delivered)))
  {
    var q' := Step(cfg, q, Settle(claim, delivered));
    var c := q.claims[claim];
    assert Acting(cfg, q, claim);
    assert Owns(cfg, q, claim);
    forall i | Acting(cfg, q', i)
      ensures Acting(cfg, q, i) && q'.claims[i] == q.claims[i] && q.claims[i].job != c.job && Owns(cfg, q', i)
    {
      assert Acting(cfg, q, i);
      assert Owns(cfg, q, i);
    }
    forall i | MayYetGo(cfg, q', i) ensures MayYetGo(cfg, q, i) && q'.jobs[i].user == q.jobs[i].user {
      if i == c.job {
        assert forall k :: k in q'.claims && q'.claims[k].job == i ==> !Live(cfg, q', q'.claims[k]) by {
          forall k | k in q'.claims && q'.claims[k].job == i ensures !Live(cfg, q', q'.claims[k]) {
            assert Live(cfg, q', q'.claims[k]) ==> Acting(cfg, q', k);
          }
        }
        assert Claimable(cfg, q'.jobs[i]);
        assert c.mailbox != Active ==> Live(cfg, q, c);
      } else if !Claimable(cfg, q'.jobs[i]) {
        var k :| k in q'.claims && q'.claims[k].job == i && Live(cfg, q', q'.claims[k])
            && q'.claims[k].mailbox != Active;
        assert Live(cfg, q, q.claims[k]);
      }
    }
    FewerMayGo(cfg, q, q');
  }

  lemma StepKeepsInv(cfg: Config, q: Queue, a: Action)
    requires Inv(cfg, q) && Enabled(cfg, q, a) && OnTime(cfg, q, a)
    ensures Inv(cfg, Step(cfg, q, a))
  {
    match a
    case Tick(to) => TickKeepsInv(cfg, q, to);
    case Signup(user, c, s, u) => SignupKeepsInv(cfg, q, user, c, s, u);
    case Ask(user, id) => AskKeepsInv(cfg, q, user, id);
    case Take(id, claim) => TakeKeepsInv(cfg, q, id, claim);
    case Settle(claim, delivered) => SettleKeepsInv(cfg, q, claim, delivered);
    case Crash(claim) => CrashKeepsInv(cfg, q, claim);
    case Suppress(user, mailbox) => UserKeepsInv(cfg, q, user, q.users[user].(mailbox := mailbox));
    case Verify(user) => UserKeepsInv(cfg, q, user, q.users[user].(verified := true));
  }

  const EMPTY := Queue(0, map[], map[], [], map[], map[])

  ghost function Run(cfg: Config, actions: seq<Action>): Queue {
    if actions == [] then EMPTY
    else
      var q := Run(cfg, actions[..|actions| - 1]);
      if Enabled(cfg, q, actions[|actions| - 1]) then Step(cfg, q, actions[|actions| - 1]) else q
  }

  ghost predicate OneClaimableConfirm(cfg: Config, q: Queue) {
    forall i, k | i in q.jobs && k in q.jobs && q.jobs[i].user == q.jobs[k].user ::
      (q.jobs[i].template == q.jobs[k].template == Confirm && Claimable(cfg, q.jobs[i]) && Claimable(cfg, q.jobs[k])
       ==> i == k)
  }

  /** Every outcome of the run is on time. */
  ghost predicate Punctual(cfg: Config, actions: seq<Action>) {
    actions == [] ||
    (var n := |actions| - 1; Punctual(cfg, actions[..n]) && OnTime(cfg, Run(cfg, actions[..n]), actions[n]))
  }

  /** In every interleaving of signups, resends, claims, outcomes, crashes and reclaims in which no
      worker outlives the reclaim window, a user has at most one claimable confirm job, and no
      token is burned under a worker that still has attempts left. */
  lemma {:induction false} EveryInterleaving(cfg: Config, actions: seq<Action>)
    requires Punctual(cfg, actions)
    ensures Inv(cfg, Run(cfg, actions)) && OneClaimableConfirm(cfg, Run(cfg, actions))
  {
    var q := Run(cfg, actions);
    if actions != [] {
      var n := |actions| - 1;
      EveryInterleaving(cfg, actions[..n]);
      if Enabled(cfg, Run(cfg, actions[..n]), actions[n]) {
        StepKeepsInv(cfg, Run(cfg, actions[..n]), actions[n]);
      }
    }
    forall i, k | i in q.jobs && k in q.jobs && q.jobs[i].user == q.jobs[k].user
      && q.jobs[i].template == q.jobs[k].template == Confirm && Claimable(cfg, q.jobs[i]) && Claimable(cfg, q.jobs[k])
      ensures i == k
    {
      assert MayYetGo(cfg, q, i) && MayYetGo(cfg, q, k);
    }
  }

  lemma RunOneMore(cfg: Config, actions: seq<Action>, a: Action)
    requires Enabled(cfg, Run(cfg, actions), a)
    ensures Run(cfg, actions + [a]) == Step(cfg, Run(cfg, actions), a)
    ensures Punctual(cfg, actions) && OnTime(cfg, Run(cfg, actions), a) ==> Punctual(cfg, actions + [a])
  {
    assert (actions + [a])[..|actions|] == actions;
  }

  // ----- users and crashes -----

  /** What befalls users and workers: a suppression and a confirmation change that column of that user
      alone, a crash loses the claim and leaves the job as it was. */
  lemma EventsAre(cfg: Config, q: Queue, user: string, mailbox: Mailbox, claim: nat)
    ensures Enabled(cfg, q, Suppress(user, mailbox)) ==>
      Step(cfg, q, Suppress(user, mailbox)) == q.(users := q.users[user := User(q.users[user].verified, mailbox)])
    ensures Enabled(cfg, q, Verify(user)) ==>
      Step(cfg, q, Verify(user)) == q.(users := q.users[user := User(true, q.users[user].mailbox)])
    ensures Enabled(cfg, q, Crash(claim)) ==>
      Step(cfg, q, Crash(claim)) == q.(claims := map c | c in q.claims && c != claim :: q.claims[c])
  {
  }

  /** On every run a user, once there, stays, confirmed for good, and suppressed for good. */
  lemma {:induction false} UsersOnlyAdvance(cfg: Config, actions: seq<Action>, m: nat, user: string)
    requires m <= |actions| && user in Run(cfg, actions[..m]).users
    ensures user in Run(cfg, actions).users
    ensures var was, now := Run(cfg, actions[..m]).users[user], Run(cfg, actions).users[user];
      && (was.verified ==> now.verified) && (was.mailbox != Active ==> now.mailbox == was.mailbox)
  {
    if m == |actions| {
      assert actions[..m] == actions;
    } else {
      var n := |actions| - 1;
      assert actions[..n][..m] == actions[..m];
      UsersOnlyAdvance(cfg, actions[..n], m, user);
    }
  }

  // ----- why the provisos are there -----

  /** One user, unverified and reachable, whose only confirm job is job 0, in this state; no
      link was asked for yet. */
  ghost predicate Solo(q: Queue, user: string, job: Job) {
    && user in q.users && q.users[user] == User(false, Active) && q.requests == []
    && q.jobs.Keys == {0, 1, 2} && q.jobs[0] == job && job.user == user && job.template == Confirm
    && q.jobs[1].template == BaseList && q.jobs[2].template == BaseList
  }

  lemma SignupSolo(cfg: Config, user: string)
    ensures var a := Signup(user, 0, 1, 2);
      Enabled(cfg, EMPTY, a) && Solo(Step(cfg, EMPTY, a), user, NewJob(user, Confirm, 0))
          && Step(cfg, EMPTY, a).claims == map[]
      && Step(cfg, EMPTY, a).now == 0 && OnTime(cfg, EMPTY, a)
  {
  }

  lemma TakeSolo(cfg: Config, q: Queue, user: string, job: Job, claim: nat)
    requires Solo(q, user, job) && Due(cfg, q, job) && claim !in q.claims
    ensures var a := Take(0, claim);
      && Enabled(cfg, q, a) && OnTime(cfg, q, a)
      && Solo(Step(cfg, q, a), user, job.(status := Sending, attempts := job.attempts + 1, sentAt := q.now))
      && Step(cfg, q, a).claims == q.claims[claim := Claim(0, user, Confirm, job.attempts + 1, Active, false, q.now)]
      && Step(cfg, q, a).now == q.now && Step(cfg, q, a).minted == q.minted[user := claim]
  {
  }

  lemma SettleSolo(cfg: Config, q: Queue, user: string, job: Job, claim: nat, delivered: bool)
    requires Solo(q, user, job) && claim in q.claims && q.claims[claim].job == 0
    ensures var a := Settle(claim, delivered);
      && Enabled(cfg, q, a) && Solo(Step(cfg, q, a), user, Outcome(cfg, q.claims[claim], delivered, job))
      && Step(cfg, q, a).claims == q.claims - {claim} && Step(cfg, q, a).now == q.now
  {
  }

  lemma AskSolo(cfg: Config, q: Queue, user: string, job: Job)
    requires Solo(q, user, job) && !Claimable(cfg, job) && cfg.linkLimit >= 1
    ensures var a := Ask(user, 3);
      && Enabled(cfg, q, a) && OnTime(cfg, q, a)
      && Step(cfg, q, a) == q.(requests := [(user, q.now)], jobs := q.jobs[3 := NewJob(user, Confirm, q.now)])
  {
    assert !AlreadyComing(cfg, q, user, Confirm);
    assert Recent(cfg, q.now, [], user) == 0;
  }

  /** A confirm mail can fail any number of times below the maximum. */
  lemma {:induction false} ManyTries(cfg: Config, user: string, n: nat) returns (actions: seq<Action>)
    requires n < cfg.maxAttempts
    ensures Punctual(cfg, actions) && Solo(Run(cfg, actions), user, NewJob(user, Confirm, 0).(attempts := n))
    ensures Run(cfg, actions).claims == map[] && Run(cfg, actions).now == 0
  {
    if n == 0 {
      SignupSolo(cfg, user);
      RunOneMore(cfg, [], Signup(user, 0, 1, 2));
      actions := [] + [Signup(user, 0, 1, 2)];
    } else {
      var before := ManyTries(cfg, user, n - 1);
      var q, job := Run(cfg, before), NewJob(user, Confirm, 0).(attempts := n - 1);
      TakeSolo(cfg, q, user, job, 0);
      RunOneMore(cfg, before, Take(0, 0));
      var mid := before + [Take(0, 0)];
      SettleSolo(cfg, Run(cfg, mid), user, job.(status := Sending, attempts := n, sentAt := 0), 0, false);
      RunOneMore(cfg, mid, Settle(0, false));
      actions := mid + [Settle(0, false)];
    }
  }

  /** Below the maximum cannot be dropped, whatever the configuration: on its last attempt a job is
      no longer claimable, so a resend queues another, whose claim burns the token in flight. The
      run keeps to the reclaim window throughout. */
  lemma LastAttemptMayMailADeadLink(cfg: Config, user: string) returns (actions: seq<Action>)
    requires cfg.maxAttempts >= 1 && cfg.linkLimit >= 1
    ensures Punctual(cfg, actions)
    ensures var q := Run(cfg, actions);
      && Acting(cfg, q, 0) && q.claims[0].template == Confirm && q.claims[0].attempts == cfg.maxAttempts
      && q.claims[0].user == user && user in q.minted && q.minted[user] != 0
  {
    var n := cfg.maxAttempts - 1;
    var before := ManyTries(cfg, user, n);
    var q, job := Run(cfg, before), NewJob(user, Confirm, 0).(attempts := n);
    TakeSolo(cfg, q, user, job, 0);
    RunOneMore(cfg, before, Take(0, 0));
    var s1 := before + [Take(0, 0)];
    AskSolo(cfg, Run(cfg, s1), user, job.(status := Sending, attempts := n + 1, sentAt := 0));
    RunOneMore(cfg, s1, Ask(user, 3));
    var s2 := s1 + [Ask(user, 3)];
    RunOneMore(cfg, s2, Take(3, 1));
    actions := s2 + [Take(3, 1)];
  }

  /** The reclaim window cannot be dropped either: a worker that outlives it and then records a
      failure puts back a mail that another worker has long delivered, beside the one the user has
      asked for since. */
  lemma LateOutcomeMayDoubleAMail(cfg: Config, user: string) returns (actions: seq<Action>)
    requires cfg.maxAttempts >= 3 && cfg.linkLimit >= 1
    ensures !OneClaimableConfirm(cfg, Run(cfg, actions))
  {
    var s := Overtaken(cfg, user);
    var late := cfg.reclaimAfter + 1;
    var j1 := NewJob(user, Confirm, 0).(status := Sending, attempts := 1, sentAt := 0);
    TakeSolo(cfg, Run(cfg, s), user, j1, 1);
    RunOneMore(cfg, s, Take(0, 1));
    var s1 := s + [Take(0, 1)];
    var j2 := j1.(attempts := 2, sentAt := late);
    SettleSolo(cfg, Run(cfg, s1), user, j2, 1, true);
    RunOneMore(cfg, s1, Settle(1, true));
    actions := LateFailure(cfg, user, s1 + [Settle(1, true)], j2.(status := Sent));
  }

  /** A first worker takes the mail and the window passes. */
  lemma Overtaken(cfg: Config, user: string) returns (s: seq<Action>)
    requires cfg.maxAttempts >= 3
    ensures var q, late := Run(cfg, s), cfg.reclaimAfter + 1;
      && Solo(q, user, NewJob(user, Confirm, 0).(status := Sending, attempts := 1, sentAt := 0)) && q.now == late
      && q.claims == map[0 := Claim(0, user, Confirm, 1, Active, false, 0)]
  {
    var late := cfg.reclaimAfter + 1;
    SignupSolo(cfg, user);
    RunOneMore(cfg, [], Signup(user, 0, 1, 2));
    var s1 := [] + [Signup(user, 0, 1, 2)];
    TakeSolo(cfg, Run(cfg, s1), user, NewJob(user, Confirm, 0), 0);
    RunOneMore(cfg, s1, Take(0, 0));
    var s2 := s1 + [Take(0, 0)];
    RunOneMore(cfg, s2, Tick(late));
    s := s2 + [Tick(late)];
  }

  lemma LateFailure(cfg: Config, user: string, s: seq<Action>, job: Job) returns (actions: seq<Action>)
    requires Solo(Run(cfg, s), user, job) && job.status == Sent && job.attempts < cfg.maxAttempts && cfg.linkLimit >= 1
    requires 0 in Run(cfg, s).claims && Run(cfg, s).claims[0] == Claim(0, user, Confirm, 1, Active, false, 0)
    requires cfg.maxAttempts >= 2
    ensures !OneClaimableConfirm(cfg, Run(cfg, actions))
  {
    AskSolo(cfg, Run(cfg, s), user, job);
    RunOneMore(cfg, s, Ask(user, 3));
    var s1 := s + [Ask(user, 3)];
    RunOneMore(cfg, s1, Settle(0, false));
    actions := s1 + [Settle(0, false)];
    var q := Run(cfg, actions);
    assert Claimable(cfg, q.jobs[0]) && Claimable(cfg, q.jobs[3]) && q.jobs[0].user == q.jobs[3].user == user;
    assert q.jobs[0].template == q.jobs[3].template == Confirm;
  }

  /** When recording an outcome makes the job claimable again: the user had unsubscribed by the
      claim, or has yet to confirm for a mail that waits for it, which also resets the attempts; or
      an active user's mail failed with attempts to spare, both as the claim counted them and as
      the row does now. */
  predicate Requeues(cfg: Config, c: Claim, delivered: bool, j: Job) {
    if c.mailbox == Unsubscribed || (c.mailbox == Active && c.template == BaseList && !c.verified)
    then cfg.maxAttempts > 0
    else c.mailbox == Active && !delivered && c.attempts < cfg.maxAttempts && j.attempts < cfg.maxAttempts
  }

  /** Exactly which outcomes do harm, late or not: one that requeues a confirm job while the user
      has another claimable one. */
  lemma OutcomeIsSafeExactly(cfg: Config, q: Queue, claim: nat, delivered: bool)
    requires OneClaimableConfirm(cfg, q) && Enabled(cfg, q, Settle(claim, delivered))
    ensures OneClaimableConfirm(cfg, Step(cfg, q, Settle(claim, delivered))) <==>
      !(exists k :: DoublesWith(cfg, q, q.claims[claim], delivered, k))
  {
    var c, q' := q.claims[claim], Step(cfg, q, Settle(claim, delivered));
    assert Claimable(cfg, q'.jobs[c.job]) <==> Requeues(cfg, c, delivered, q.jobs[c.job]);
    if k :| DoublesWith(cfg, q, c, delivered, k) {
      assert q'.jobs[k] == q.jobs[k] && q'.jobs[c.job].user == q'.jobs[k].user;
    } else {
      forall i, k | i in q'.jobs && k in q'.jobs && q'.jobs[i].user == q'.jobs[k].user
        && q'.jobs[i].template == q'.jobs[k].template == Confirm
        && Claimable(cfg, q'.jobs[i]) && Claimable(cfg, q'.jobs[k])
        ensures i == k
      {
        assert !DoublesWith(cfg, q, c, delivered, i) && !DoublesWith(cfg, q, c, delivered, k);
      }
    }
  }

  /** The outcome puts a confirm mail back beside the claimable one `k`. */
  ghost predicate DoublesWith(cfg: Config, q: Queue, c: Claim, delivered: bool, k: nat)
    requires c.job in q.jobs
  {
    && k in q.jobs && k != c.job && q.jobs[k].user == q.jobs[c.job].user
    && q.jobs[k].template == q.jobs[c.job].template == Confirm
    && Claimable(cfg, q.jobs[k]) && Requeues(cfg, c, delivered, q.jobs[c.job])
  }

  // ----- a whole batch -----

  /** The jobs of one claim, taken in order under consecutive claim numbers. */
  ghost function TakeAll(cfg: Config, q: Queue, ids: seq<nat>, first: nat): Queue {
    if ids == [] then q
    else
      var n := |ids| - 1;
      var before := TakeAll(cfg, q, ids[..n], first);
      if Enabled(cfg, before, Take(ids[n], first + n)) then Step(cfg, before, Take(ids[n], first + n)) else before
  }

  predicate DueAt(cfg: Config, q: Queue, id: nat) {
    id in q.jobs && Due(cfg, q, q.jobs[id]) && q.jobs[id].user in q.users
  }

  /** The batch the claiming query may return: due jobs, each once, under fresh claim numbers. */
  ghost predicate DueBatch(cfg: Config, q: Queue, ids: seq<nat>, first: nat) {
    && (forall n :: 0 <= n < |ids| ==> DueAt(cfg, q, ids[n]))
    && (forall n, k :: 0 <= n < k < |ids| ==> ids[n] != ids[k])
    && (forall c :: c in q.claims ==> c < first)
  }

  /** The login link a job is to carry is still there. */
  predicate Supplied(q: Queue, links: set<string>, id: nat)
    requires id in q.jobs
  {
    q.jobs[id].template == MagicLink ==> q.jobs[id].user in links
  }

  ghost predicate AllSupplied(q: Queue, links: set<string>, ids: seq<nat>) {
    forall n :: 0 <= n < |ids| ==> ids[n] in q.jobs && Supplied(q, links, ids[n])
  }

  /** Whatever is taken, the jobs still to be taken are as they were. */
  ghost predicate Untaken(q: Queue, r: Queue, ids: seq<nat>, claims: nat) {
    && r.now == q.now && r.users == q.users && r.jobs.Keys == q.jobs.Keys
    && (forall i :: i in q.jobs && i !in ids ==> r.jobs[i] == q.jobs[i])
    && (forall c :: c in r.claims ==> c < claims)
  }

  lemma {:induction false} TakeAllShape(cfg: Config, q: Queue, ids: seq<nat>, first: nat)
    requires DueBatch(cfg, q, ids, first)
    ensures Untaken(q, TakeAll(cfg, q, ids, first), ids, first + |ids|)
  {
    if ids != [] {
      var n := |ids| - 1;
      TakeAllShape(cfg, q, ids[..n], first);
      assert ids == ids[..n] + [ids[n]];
    }
  }

  lemma TakeOneMore(cfg: Config, q: Queue, ids: seq<nat>, first: nat, n: nat)
    requires DueBatch(cfg, q, ids, first) && n < |ids|
    ensures var before := TakeAll(cfg, q, ids[..n], first); var a := Take(ids[n], first + n);
      Enabled(cfg, before, a) && TakeAll(cfg, q, ids[..n + 1], first) == Step(cfg, before, a)
  {
    PrefixIsDue(cfg, q, ids, first, n);
    TakeAllShape(cfg, q, ids[..n], first);
    StillDue(cfg, q, TakeAll(cfg, q, ids[..n], first), ids[..n], first + n, ids[n]);
    assert ids[..n + 1][..n] == ids[..n];
  }

  lemma PrefixIsDue(cfg: Config, q: Queue, ids: seq<nat>, first: nat, n: nat)
    requires DueBatch(cfg, q, ids, first) && n < |ids|
    ensures DueBatch(cfg, q, ids[..n], first) && DueAt(cfg, q, ids[n]) && ids[n] !in ids[..n]
  {
    forall k | 0 <= k < n ensures DueAt(cfg, q, ids[..n][k]) { assert DueAt(cfg, q, ids[k]); }
  }

  lemma StillDue(cfg: Config, q: Queue, r: Queue, taken: seq<nat>, claim: nat, id: nat)
    requires Untaken(q, r, taken, claim) && DueAt(cfg, q, id) && id !in taken
    ensures Enabled(cfg, r, Take(id, claim))
  {
  }

  /** `claim_jobs`, selection aside: it takes the whole batch, or, when one of its login mails has
      lost its link, none of it. */
  method ClaimBatch(cfg: Config, q: Queue, links: set<string>, ids: seq<nat>, first: nat)
    returns (r: Queue, ok: bool)
    requires DueBatch(cfg, q, ids, first)
    ensures ok <==> AllSupplied(q, links, ids)
    ensures r == if ok then TakeAll(cfg, q, ids, first) else q
  {
    r := q;
    for n := 0 to |ids|
      invariant r == TakeAll(cfg, q, ids[..n], first)
      invariant AllSupplied(q, links, ids[..n])
    {
      assert DueAt(cfg, q, ids[n]);
      if q.jobs[ids[n]].template == MagicLink && q.jobs[ids[n]].user !in links {
        return q, false;
      }
      TakeOneMore(cfg, q, ids, first, n);
      r := Step(cfg, r, Take(ids[n], first + n));
    }
    assert ids[..|ids|] == ids;
    ok := true;
  }

  /** One invocation of the dispatcher: when it runs, the jobs queued since the last one, the login
      links there are, and the batch its query returns. */
  datatype Invocation = Invocation(at: int, queued: map<nat, Job>, links: set<string>, ids: seq<nat>, first: nat)

  /** The queue an invocation finds. */
  function Meanwhile(q: Queue, c: Invocation): Queue {
    q.(now := if q.now <= c.at then c.at else q.now, jobs := c.queued + q.jobs)
  }

  /** Invocations one after another, each claiming as `ClaimBatch` does. */
  ghost function Dispatch(cfg: Config, q: Queue, calls: seq<Invocation>): Queue {
    if calls == [] then q
    else
      var n := |calls| - 1;
      var found := Meanwhile(Dispatch(cfg, q, calls[..n]), calls[n]);
      if AllSupplied(found, calls[n].links, calls[n].ids) then TakeAll(cfg, found, calls[n].ids, calls[n].first)
      else found
  }

  /** `ORDER BY attempts, scheduled_at`. */
  predicate Sooner(j: Job, k: Job) {
    j.attempts < k.attempts || (j.attempts == k.attempts && j.dueAt < k.dueAt)
  }

  /** What the claiming query may return: due jobs, none of them passed over for a later one, and as
      many as the limit allows. */
  ghost predicate Queried(cfg: Config, q: Queue, c: Invocation, limit: nat) {
    && DueBatch(cfg, q, c.ids, c.first)
    && (forall i, n :: DueAt(cfg, q, i) && i !in c.ids && 0 <= n < |c.ids| && c.ids[n] in q.jobs ==>
          !Sooner(q.jobs[i], q.jobs[c.ids[n]]))
    && forall i :: DueAt(cfg, q, i) && i !in c.ids ==> |c.ids| == limit
  }

  /** A login mail at the head of the queue. */
  ghost predicate Heads(cfg: Config, q: Queue, id: nat) {
    && DueAt(cfg, q, id) && q.jobs[id].template == MagicLink
    && forall i :: i in q.jobs && i != id ==> Sooner(q.jobs[id], q.jobs[i])
  }

  lemma HeadIsTaken(cfg: Config, q: Queue, c: Invocation, limit: nat, id: nat)
    requires Heads(cfg, q, id) && Queried(cfg, q, c, limit) && limit > 0
    ensures id in c.ids
  {
    assert |c.ids| > 0 ==> DueAt(cfg, q, c.ids[0]) && (c.ids[0] == id || Sooner(q.jobs[id], q.jobs[c.ids[0]]));
  }

  /** Every invocation runs the query, finds the link of job `id` gone, and what was queued in between
      comes after that job. */
  ghost predicate Starved(cfg: Config, q: Queue, calls: seq<Invocation>, limit: nat, id: nat)
    requires id in q.jobs
  {
    calls == [] ||
    (var n := |calls| - 1;
     && Starved(cfg, q, calls[..n], limit, id)
     && Queried(cfg, Meanwhile(Dispatch(cfg, q, calls[..n]), calls[n]), calls[n], limit)
     && q.jobs[id].user !in calls[n].links
     && forall i :: i in calls[n].queued ==> Sooner(q.jobs[id], calls[n].queued[i]))
  }

  /** A login mail without its link at the head of the queue fails every later claim whole: until the
      link is back no job is claimed, queued before or since, however many invocations run. */
  lemma {:induction false} FailedBatchStaysStuck(cfg: Config, q: Queue, calls: seq<Invocation>, limit: nat, id: nat)
    requires Heads(cfg, q, id) && Starved(cfg, q, calls, limit, id) && limit > 0
    ensures var r := Dispatch(cfg, q, calls);
      && r == q.(now := r.now, jobs := r.jobs) && Heads(cfg, r, id)
      && (forall i :: i in q.jobs ==> i in r.jobs && r.jobs[i] == q.jobs[i])
      && (calls != [] ==> !AllSupplied(r, calls[|calls| - 1].links, calls[|calls| - 1].ids))
  {
    if calls != [] {
      var n := |calls| - 1;
      FailedBatchStaysStuck(cfg, q, calls[..n], limit, id);
      var found := Meanwhile(Dispatch(cfg, q, calls[..n]), calls[n]);
      HeadIsTaken(cfg, found, calls[n], limit, id);
      var k :| 0 <= k < |calls[n].ids| && calls[n].ids[k] == id;
      assert !Supplied(found, calls[n].links, calls[n].ids[k]);
    }
  }
}
