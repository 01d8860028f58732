/** The admission gate: wave tokens are minted by wave assembly, retired when they lapse, and
    redeemed once each for a linked Telegram account. */
module Gate {
  import opened Ordering
  import opened Reconciliation
  import opened Merges
  import Waves

  const TOKEN_LIFE := 14 * 24 * 60 * 60

  datatype Token = Token(user: string, expiresAt: int, used: bool, retired: bool)
  datatype Account = Account(user: Option<string>, byToken: bool)

  /** The shared tables, and the clock. */
  datatype Db = Db(now: int, users: map<string, Waves.User>, tokens: map<string, Token>,
                   accounts: map<string, Account>, links: map<string, string>)

  predicate Outstanding(t: Token) {
    !t.used && !t.retired
  }

  // ----- redeeming -----

  datatype Verdict = Allowed(reason: string) | Refused(code: string)

  /** What `check` decided from its first read, before its writes. `at` is the time it started:
      throughout a transaction `now()` is its start. */
  datatype Attempt =
    | Known(pubkey: string, account: Account)
    | Unknown(telegram: string, pubkey: string, token: string, at: int)

  /** `link_agent`: a key already bound to somebody else refuses. */
  function LinkAgent(links: map<string, string>, pubkey: string, user: string): Outcome<map<string, string>> {
    if pubkey !in links then Done(links[pubkey := user])
    else if links[pubkey] == user then Done(links)
    else Thrown("agent_pubkey_bound_to_another_account")
  }

  /** The refusal when the burning UPDATE matched nothing. */
  function WhyNotBurned(db: Db, token: string): string {
    if token !in db.tokens then "token_not_found"
    else if db.tokens[token].used then "token_already_used"
    else "token_expired"
  }

  /** The burning UPDATE asks for an unused token that had not expired when the transaction
      started; whether it has been retired since is not asked. */
  predicate Redeemable(db: Db, token: string, at: int) {
    token in db.tokens && !db.tokens[token].used && db.tokens[token].expiresAt > at
  }

  /** The writing half of `check`: all of it commits, or none of it. */
  function Finish(isUuid: string -> bool, db: Db, a: Attempt): (Db, Verdict) {
    match a
    case Known(pubkey, account) =>
      if pubkey == "" || account.user.None? then (db, Allowed("already_linked"))
      else
        (match LinkAgent(db.links, pubkey, account.user.value)
         case Thrown(code) => (db, Refused(code))
         case Done(links) => (db.(links := links), Allowed("already_linked")))
    case Unknown(telegram, pubkey, token, at) =>
      if token == "" then (db, Refused("token_required"))
      else if !isUuid(token) then (db, Refused("token_malformed"))
      else if !Redeemable(db, token, at) then (db, Refused(WhyNotBurned(db, token)))
      else if telegram in db.accounts then (db, Refused("telegram_account_already_linked"))
      else
        var user := db.tokens[token].user;
        var burned := db.(tokens := db.tokens[token := db.tokens[token].(used := true)],
                          accounts := db.accounts[telegram := Account(Some(user), true)]);
        if pubkey == "" then (burned, Allowed("token_burned"))
        else
          match LinkAgent(db.links, pubkey, user)
          case Thrown(code) => (db, Refused(code))
          case Done(links) => (burned.(links := links), Allowed("token_burned"))
  }

  class Portal {
    var now: int
    var users: map<string, Waves.User>
    var tokens: map<string, Token>
    var accounts: map<string, Account>
    var links: map<string, string>

    function State(): Db
      reads this
    {
      Db(now, users, tokens, accounts, links)
    }

    /** `link_agent`, raising without having written when the key is somebody else's. */
    method WriteLink(pubkey: string, user: string) returns (refusal: Option<string>)
      modifies this`links
      ensures match LinkAgent(old(links), pubkey, user)
              case Done(l) => refusal.None? && links == l
              case Thrown(code) => refusal == Some(code) && links == old(links)
      ensures refusal.None? <==> pubkey !in old(links) || old(links)[pubkey] == user
      ensures refusal.None? ==> links == old(links)[pubkey := user]
      ensures refusal.Some? ==> refusal.value == "agent_pubkey_bound_to_another_account" && links == old(links)
    {
      if pubkey !in links {
        links := links[pubkey := user];
        return None;
      }
      if links[pubkey] == user {
        return None;
      }
      return Some("agent_pubkey_bound_to_another_account");
    }

    /** `burn`: statement after statement in one transaction, rolled back on any refusal. */
    method Burn(isUuid: string -> bool, telegram: string, pubkey: string, token: string, at: int) returns (v: Verdict)
      requires token != ""
      modifies this
      ensures (State(), v) == Finish(isUuid, old(State()), Unknown(telegram, pubkey, token, at))
      ensures v.Allowed? ==>
        && token in old(tokens) && tokens == old(tokens)[token := old(tokens)[token].(used := true)]
        && links == if pubkey == "" then old(links) else old(links)[pubkey := old(tokens)[token].user]
      ensures v.Refused? ==> State() == old(State())
    {
      if !isUuid(token) {
        return Refused("token_malformed");
      }
      if !(token in tokens && !tokens[token].used && tokens[token].expiresAt > at) {
        if token !in tokens {
          return Refused("token_not_found");
        }
        if tokens[token].used {
          return Refused("token_already_used");
        }
        return Refused("token_expired");
      }
      var savedTokens, savedAccounts := tokens, accounts;
      var user := tokens[token].user;
      tokens := tokens[token := tokens[token].(used := true)];
      if telegram in accounts {
        tokens := savedTokens;
        return Refused("telegram_account_already_linked");
      }
      accounts := accounts[telegram := Account(Some(user), true)];
      if pubkey != "" {
        var refusal := WriteLink(pubkey, user);
        if refusal.Some? {
          tokens, accounts := savedTokens, savedAccounts;
          return Refused(refusal.value);
        }
      }
      return Allowed("token_burned");
    }

    /** Retires every token that lapsed unused. */
    method Reap()
      modifies this`tokens
      ensures tokens == Reaped(now, old(tokens))
    {
      var todo := tokens.Keys;
      while todo != {}
        invariant todo <= old(tokens).Keys && tokens.Keys == old(tokens).Keys
        invariant forall t :: t in tokens ==>
          tokens[t] == if t in todo then old(tokens)[t] else ReapOne(now, old(tokens)[t])
        decreases todo
      {
        var t :| t in todo;
        if Outstanding(tokens[t]) && tokens[t].expiresAt <= now {
          tokens := tokens[t := tokens[t].(retired := true)];
        }
        todo := todo - {t};
      }
    }
  }

  // ----- opening a wave -----

  function ReapOne(now: int, t: Token): Token {
    if Outstanding(t) && t.expiresAt <= now then t.(retired := true) else t
  }

  function Reaped(now: int, tokens: map<string, Token>): map<string, Token> {
    map t | t in tokens :: ReapOne(now, tokens[t])
  }

  function Holders(tokens: map<string, Token>): set<string> {
    set t | t in tokens && Outstanding(tokens[t]) :: tokens[t].user
  }

  /** One fresh token per admitted user. */
  ghost predicate Mints(db: Db, cohort: seq<Waves.User>, mint: map<string, string>) {
    && mint.Keys !! db.tokens.Keys
    && mint.Values == (set u | u in cohort :: u.id)
    && (forall s, t :: s in mint && t in mint && mint[s] == mint[t] ==> s == t)
  }

  ghost predicate OpensWave(db: Db, r: Waves.Request, picks: Waves.Picks, mint: map<string, string>) {
    && Waves.Validate(r).Done?
    && Waves.Picked(db.users.Values, Holders(Reaped(db.now, db.tokens)), r.capacity, r.priorityPct, r.zeroPct, picks)
    && Mints(db, Waves.Cohort(picks), mint)
  }

  /** `assemble`: an empty cohort rolls everything back, the reaping included. */
  function Assemble(db: Db, cohort: seq<Waves.User>, mint: map<string, string>): Db {
    if cohort == [] then db
    else
      var admitted := set u | u in cohort :: u.id;
      db.(users := map id | id in db.users :: if id in admitted then db.users[id].(waiting := false) else db.users[id],
          tokens := Reaped(db.now, db.tokens) + Minted(db.now, mint))
  }

  // ----- runs -----

  datatype Action =
    | Tick(to: int)
    | EditUser(row: Waves.User)
    | AddStaff(telegram: string, user: Option<string>)
    | Arrive(id: nat, telegram: string, pubkey: string, token: string)
    | Settle(id: nat)
    | Open(request: Waves.Request, picks: Waves.Picks, mint: map<string, string>)

  datatype World = World(db: Db, attempts: map<nat, Attempt>)

  ghost predicate Enabled(w: World, a: Action) {
    match a
    case Tick(to) => w.db.now <= to
    case EditUser(_) => true
    case AddStaff(telegram, _) => telegram !in w.db.accounts
    case Arrive(id, telegram, _, _) => id !in w.attempts && telegram != ""
    case Settle(id) => id in w.attempts
    case Open(r, picks, mint) => OpensWave(w.db, r, picks, mint)
  }

  function Step(isUuid: string -> bool, w: World, a: Action): World {
    match a
    case Tick(to) => w.(db := w.db.(now := to))
    case EditUser(u) => w.(db := w.db.(users := w.db.users[u.id := u]))
    case AddStaff(telegram, user) => w.(db := w.db.(accounts := w.db.accounts[telegram := Account(user, false)]))
    case Arrive(id, telegram, pubkey, token) =>
      w.(attempts := w.attempts[id := if telegram in w.db.accounts
                                      then Known(pubkey, w.db.accounts[telegram])
                                      else Unknown(telegram, pubkey, token, w.db.now)])
    case Settle(id) =>
      if id in w.attempts then World(Finish(isUuid, w.db, w.attempts[id]).0, w.attempts - {id}) else w
    case Open(_, picks, mint) => w.(db := Assemble(w.db, Waves.Cohort(picks), mint))
  }

  function Start(now: int, users: map<string, Waves.User>): World {
    World(Db(now, users, map[], map[], map[]), map[])
  }

  ghost function Run(isUuid: string -> bool, w: World, actions: seq<Action>): World {
    if actions == [] then w else Step(isUuid, Run(isUuid, w, actions[..|actions| - 1]), actions[|actions| - 1])
  }

  ghost predicate Legal(isUuid: string -> bool, w: World, actions: seq<Action>) {
    actions == [] ||
    (var n := |actions| - 1; Legal(isUuid, w, actions[..n]) && Enabled(Run(isUuid, w, actions[..n]), actions[n]))
  }

  // ----- what every run keeps -----

  ghost function UsedTokens(tokens: map<string, Token>): set<string> {
    set t | t in tokens && tokens[t].used
  }

  ghost function LinkedByToken(accounts: map<string, Account>): set<string> {
    set a | a in accounts && accounts[a].byToken
  }

  ghost predicate OneGrantEach(tokens: map<string, Token>) {
    forall s, t | s in tokens && t in tokens && tokens[s].user == tokens[t].user ::
      Outstanding(tokens[s]) && Outstanding(tokens[t]) ==> s == t
  }

  ghost predicate RetiredAreLapsed(now: int, tokens: map<string, Token>) {
    forall t :: t in tokens && tokens[t].retired ==> tokens[t].expiresAt <= now
  }

  ghost predicate Inv(db: Db) {
    && OneGrantEach(db.tokens)
    && RetiredAreLapsed(db.now, db.tokens)
    && |UsedTokens(db.tokens)| == |LinkedByToken(db.accounts)|
    && (forall id :: id in db.users ==> db.users[id].id == id)
  }

  predicate Burns(isUuid: string -> bool, db: Db, a: Attempt) {
    Finish(isUuid, db, a).1 == Allowed("token_burned")
  }

  /** One redemption: a refusal changes nothing; an admission by token spends exactly the
      token presented and links exactly one account; no binding is ever changed. */
  lemma FinishIsAllOrNothing(isUuid: string -> bool, db: Db, a: Attempt)
    ensures var (db', v) := Finish(isUuid, db, a);
      && (v.Refused? ==> db' == db)
      && (db'.now, db'.users) == (db.now, db.users)
      && (Burns(isUuid, db, a) ==>
           && a.Unknown? && Redeemable(db, a.token, a.at) && a.telegram !in db.accounts
           && db'.tokens == db.tokens[a.token := db.tokens[a.token].(used := true)]
           && db'.accounts == db.accounts[a.telegram := Account(Some(db.tokens[a.token].user), true)])
      && (!Burns(isUuid, db, a) ==> db'.tokens == db.tokens && db'.accounts == db.accounts)
      && (forall k :: k in db.links ==> k in db'.links && db'.links[k] == db.links[k])
  {
  }

  /** The key presented belongs to nobody else. */
  predicate KeyIsFree(db: Db, pubkey: string, user: string) {
    pubkey == "" || pubkey !in db.links || db.links[pubkey] == user
  }

  /** What an admission binds: the key presented, to the token's user or to the known account's, and
      no other binding; without a key, or for an account without a user, nothing. */
  lemma AdmissionBindsTheKey(isUuid: string -> bool, db: Db, a: Attempt)
    requires Finish(isUuid, db, a).1.Allowed?
    ensures var db' := Finish(isUuid, db, a).0;
      match a
      case Known(pubkey, account) =>
        db'.links == if pubkey == "" || account.user.None? then db.links else db.links[pubkey := account.user.value]
      case Unknown(_, pubkey, token, _) =>
        && token in db.tokens
        && db'.links == if pubkey == "" then db.links else db.links[pubkey := db.tokens[token].user]
  {
  }

  /** Every answer to a redemption by token, by what was presented and what the tables hold: the
      first failing check names itself, in this order, and otherwise the token is burned. */
  lemma RedemptionIsJudged(isUuid: string -> bool, db: Db, telegram: string, pubkey: string, token: string, at: int)
    ensures var v := Finish(isUuid, db, Unknown(telegram, pubkey, token, at)).1;
      var live := token != "" && isUuid(token) && token in db.tokens && !db.tokens[token].used
                  && at < db.tokens[token].expiresAt;
      && (v == Refused("token_required") <==> token == "")
      && (v == Refused("token_malformed") <==> token != "" && !isUuid(token))
      && (v == Refused("token_not_found") <==> token != "" && isUuid(token) && token !in db.tokens)
      && (v == Refused("token_already_used") <==>
            token != "" && isUuid(token) && token in db.tokens && db.tokens[token].used)
      && (v == Refused("token_expired") <==>
            token != "" && isUuid(token) && token in db.tokens
            && !db.tokens[token].used && db.tokens[token].expiresAt <= at)
      && (v == Refused("telegram_account_already_linked") <==> live && telegram in db.accounts)
      && (v == Refused("agent_pubkey_bound_to_another_account") <==>
            live && telegram !in db.accounts && pubkey != "" && pubkey in db.links
            && db.links[pubkey] != db.tokens[token].user)
      && (v == Allowed("token_burned") <==>
            live && telegram !in db.accounts
            && (pubkey == "" || pubkey !in db.links || db.links[pubkey] == db.tokens[token].user))
      && (v.Allowed? ==> v == Allowed("token_burned"))
  {
  }

  /** A known account is admitted unless it presents somebody else's key. */
  lemma KnownIsJudged(isUuid: string -> bool, db: Db, pubkey: string, account: Account)
    ensures var v := Finish(isUuid, db, Known(pubkey, account)).1;
      && v in {Allowed("already_linked"), Refused("agent_pubkey_bound_to_another_account")}
      && (v.Refused? <==>
            pubkey != "" && account.user.Some? && pubkey in db.links && db.links[pubkey] != account.user.value)
  {
  }

  lemma UsingOneToken(now: int, tokens: map<string, Token>, token: string)
    requires OneGrantEach(tokens) && RetiredAreLapsed(now, tokens)
    requires token in tokens && !tokens[token].used
    ensures var tokens' := tokens[token := tokens[token].(used := true)];
      && OneGrantEach(tokens') && RetiredAreLapsed(now, tokens')
      && |UsedTokens(tokens')| == |UsedTokens(tokens)| + 1
  {
    var tokens' := tokens[token := tokens[token].(used := true)];
    forall s, t | s in tokens' && t in tokens' && tokens'[s].user == tokens'[t].user
      ensures Outstanding(tokens'[s]) && Outstanding(tokens'[t]) ==> s == t
    {
      assert tokens[s].user == tokens[t].user;
    }
    assert UsedTokens(tokens') == UsedTokens(tokens) + {token};
  }

  lemma LinkingOneAccount(accounts: map<string, Account>, telegram: string, user: Option<string>)
    requires telegram !in accounts
    ensures |LinkedByToken(accounts[telegram := Account(user, true)])| == |LinkedByToken(accounts)| + 1
  {
    assert LinkedByToken(accounts[telegram := Account(user, true)]) == LinkedByToken(accounts) + {telegram};
  }

  /** A redemption keeps the invariant; the token it spends was not spent before. */
  lemma FinishKeepsInv(isUuid: string -> bool, db: Db, a: Attempt)
    requires Inv(db)
    ensures Inv(Finish(isUuid, db, a).0)
    ensures Burns(isUuid, db, a) ==> !db.tokens[a.token].used
  {
    FinishIsAllOrNothing(isUuid, db, a);
    if Burns(isUuid, db, a) {
      UsingOneToken(db.now, db.tokens, a.token);
      LinkingOneAccount(db.accounts, a.telegram, Some(db.tokens[a.token].user));
    }
  }

  function Minted(now: int, mint: map<string, string>): map<string, Token> {
    map t | t in mint :: Token(mint[t], now + TOKEN_LIFE, false, false)
  }

  lemma FreshGrantsAreUnique(now: int, tokens: map<string, Token>, mint: map<string, string>)
    requires OneGrantEach(tokens) && mint.Keys !! tokens.Keys
    requires forall s, t :: s in mint && t in mint && mint[s] == mint[t] ==> s == t
    requires forall t :: t in mint ==> mint[t] !in Holders(tokens)
    ensures OneGrantEach(tokens + Minted(now, mint))
    ensures UsedTokens(tokens + Minted(now, mint)) == UsedTokens(tokens)
    ensures RetiredAreLapsed(now, tokens) ==> RetiredAreLapsed(now, tokens + Minted(now, mint))
  {
    var all := tokens + Minted(now, mint);
    forall s, t | s in all && t in all && all[s].user == all[t].user
      ensures Outstanding(all[s]) && Outstanding(all[t]) ==> s == t
    {
      if Outstanding(all[s]) && Outstanding(all[t]) {
        assert s !in mint ==> all[s].user in Holders(tokens);
        assert t !in mint ==> all[t].user in Holders(tokens);
      }
    }
  }

  lemma ReapingKeepsGrants(now: int, tokens: map<string, Token>)
    requires OneGrantEach(tokens) && RetiredAreLapsed(now, tokens)
    ensures OneGrantEach(Reaped(now, tokens)) && RetiredAreLapsed(now, Reaped(now, tokens))
    ensures UsedTokens(Reaped(now, tokens)) == UsedTokens(tokens)
  {
  }

  lemma AdmittedHoldNothing(db: Db, r: Waves.Request, picks: Waves.Picks, mint: map<string, string>)
    requires OpensWave(db, r, picks, mint)
    ensures forall t :: t in mint ==> mint[t] !in Holders(Reaped(db.now, db.tokens))
  {
    var cohort := Waves.Cohort(picks);
    Waves.CohortOnce(db.users.Values, Holders(Reaped(db.now, db.tokens)), r.capacity, r.priorityPct, r.zeroPct, picks);
    forall t | t in mint ensures mint[t] !in Holders(Reaped(db.now, db.tokens)) {
      assert mint[t] in mint.Values;
      var u :| u in cohort && u.id == mint[t];
    }
  }

  lemma AssembleShape(db: Db, cohort: seq<Waves.User>, mint: map<string, string>)
    requires cohort != []
    requires forall id :: id in db.users ==> db.users[id].id == id
    ensures var db' := Assemble(db, cohort, mint);
      && db'.tokens == Reaped(db.now, db.tokens) + Minted(db.now, mint)
      && (db'.now, db'.accounts, db'.links) == (db.now, db.accounts, db.links)
      && (forall id :: id in db'.users ==> db'.users[id].id == id)
  {
  }

  /** What opening a wave does to the users: the admitted stop waiting, all else is as it was. */
  lemma AssembleAdmits(db: Db, cohort: seq<Waves.User>, mint: map<string, string>, id: string)
    requires id in db.users && cohort != []
    ensures var db' := Assemble(db, cohort, mint);
      && db'.users.Keys == db.users.Keys && (db'.now, db'.accounts, db'.links) == (db.now, db.accounts, db.links)
      && db'.users[id] == db.users[id].(waiting := db.users[id].waiting && forall u :: u in cohort ==> u.id != id)
  {
    var admitted := set u | u in cohort :: u.id;
    assert id in admitted <==> exists u :: u in cohort && u.id == id;
  }

  /** And to the tokens: each new one lasts two weeks, the lapsed unused ones are retired, no other
      changes. An empty cohort changes nothing at all. */
  lemma AssembleMints(db: Db, cohort: seq<Waves.User>, mint: map<string, string>, t: string)
    requires Mints(db, cohort, mint)
    ensures Assemble(db, [], mint) == db
    ensures cohort != [] ==>
      var tokens, was := Assemble(db, cohort, mint).tokens, db.tokens;
      && tokens.Keys == was.Keys + mint.Keys
      && (t in mint ==> tokens[t] == Token(mint[t], db.now + 1_209_600, false, false))
      && (t in was ==>
            tokens[t] == was[t].(retired := was[t].retired || (!was[t].used && was[t].expiresAt <= db.now)))
  {
  }

  lemma AssembleKeepsInv(db: Db, r: Waves.Request, picks: Waves.Picks, mint: map<string, string>)
    requires Inv(db) && OpensWave(db, r, picks, mint)
    ensures Inv(Assemble(db, Waves.Cohort(picks), mint))
    ensures UsedTokens(Assemble(db, Waves.Cohort(picks), mint).tokens) == UsedTokens(db.tokens)
  {
    if Waves.Cohort(picks) != [] {
      AdmittedHoldNothing(db, r, picks, mint);
      ReapingKeepsGrants(db.now, db.tokens);
      FreshGrantsAreUnique(db.now, Reaped(db.now, db.tokens), mint);
      AssembleShape(db, Waves.Cohort(picks), mint);
    }
  }

  lemma StepKeepsInv(isUuid: string -> bool, w: World, a: Action)
    requires Inv(w.db) && Enabled(w, a)
    ensures Inv(Step(isUuid, w, a).db)
  {
    match a
    case Settle(id) => FinishKeepsInv(isUuid, w.db, w.attempts[id]);
    case Open(r, picks, mint) => AssembleKeepsInv(w.db, r, picks, mint);
    case AddStaff(telegram, user) =>
      assert LinkedByToken(w.db.accounts[telegram := Account(user, false)]) == LinkedByToken(w.db.accounts);
    case _ =>
  }

  ghost predicate OnlyAdds(db: Db, db': Db) {
    && (forall t :: t in db.tokens ==> t in db'.tokens && db'.tokens[t].user == db.tokens[t].user)
    && (forall t :: t in db.tokens && db.tokens[t].used ==> db'.tokens[t].used)
    && (forall t :: t in db.tokens && db.tokens[t].retired ==> db'.tokens[t].retired)
    && (forall k :: k in db.links ==> k in db'.links && db'.links[k] == db.links[k])
  }

  lemma AssembleOnlyAdds(db: Db, cohort: seq<Waves.User>, mint: map<string, string>)
    requires Inv(db) && Mints(db, cohort, mint)
    ensures OnlyAdds(db, Assemble(db, cohort, mint))
  {
    if cohort != [] {
      AssembleShape(db, cohort, mint);
    }
  }

  /** Nothing a later step does undoes a spent token, a retired token or a key binding. */
  lemma StepOnlyAdds(isUuid: string -> bool, w: World, a: Action)
    requires Inv(w.db) && Enabled(w, a)
    ensures OnlyAdds(w.db, Step(isUuid, w, a).db)
  {
    match a
    case Settle(id) =>
      FinishIsAllOrNothing(isUuid, w.db, w.attempts[a.id]);
      FinishKeepsInv(isUuid, w.db, w.attempts[a.id]);
    case Open(_, picks, mint) => AssembleOnlyAdds(w.db, Waves.Cohort(picks), mint);
    case _ =>
  }

  /** How often a run burned the token `t`. */
  ghost function BurnCount(isUuid: string -> bool, w: World, actions: seq<Action>, t: string): nat {
    if actions == [] then 0
    else
      var n := |actions| - 1;
      var before := Run(isUuid, w, actions[..n]);
      BurnCount(isUuid, w, actions[..n], t)
      + if actions[n].Settle? && actions[n].id in before.attempts
           && before.attempts[actions[n].id].Unknown? && before.attempts[actions[n].id].token == t
           && Burns(isUuid, before.db, before.attempts[actions[n].id])
        then 1 else 0
  }

  /** Over every run of wave assembly, expiry and redemption: at most one live grant per user,
      as many spent tokens as accounts linked by token, each token burned once if it is spent
      and never otherwise. */
  lemma {:induction false} EveryRun(isUuid: string -> bool, now: int, users: map<string, Waves.User>,
                                    actions: seq<Action>, t: string)
    requires forall id :: id in users ==> users[id].id == id
    requires Legal(isUuid, Start(now, users), actions)
    ensures var db := Run(isUuid, Start(now, users), actions).db;
      && Inv(db)
      && BurnCount(isUuid, Start(now, users), actions, t) == (if t in db.tokens && db.tokens[t].used then 1 else 0)
  {
    var w := Start(now, users);
    if actions == [] {
      assert UsedTokens(w.db.tokens) == {} && LinkedByToken(w.db.accounts) == {};
    } else {
      var n := |actions| - 1;
      EveryRun(isUuid, now, users, actions[..n], t);
      var before, a := Run(isUuid, w, actions[..n]), actions[n];
      StepKeepsInv(isUuid, before, a);
      match a
      case Settle(id) =>
        FinishIsAllOrNothing(isUuid, before.db, before.attempts[id]);
        FinishKeepsInv(isUuid, before.db, before.attempts[id]);
      case Open(r, picks, mint) =>
        AssembleKeepsInv(before.db, r, picks, mint);
        assert t in UsedTokens(Step(isUuid, before, a).db.tokens) <==> t in UsedTokens(before.db.tokens);
      case _ =>
    }
  }

  /** An agent key, once bound, stays bound to the same user for the rest of the run. */
  lemma {:induction false} KeysAreNeverRebound(isUuid: string -> bool, now: int, users: map<string, Waves.User>,
                                               actions: seq<Action>, m: nat, key: string)
    requires forall id :: id in users ==> users[id].id == id
    requires Legal(isUuid, Start(now, users), actions) && m <= |actions|
    requires key in Run(isUuid, Start(now, users), actions[..m]).db.links
    ensures var early, late := Run(isUuid, Start(now, users), actions[..m]).db,
      Run(isUuid, Start(now, users), actions).db;
      key in late.links && late.links[key] == early.links[key]
  {
    if m == |actions| {
      assert actions[..m] == actions;
    } else {
      var n := |actions| - 1;
      assert actions[..n][..m] == actions[..m];
      KeysAreNeverRebound(isUuid, now, users, actions[..n], m, key);
      EveryRun(isUuid, now, users, actions[..n], "");
      StepOnlyAdds(isUuid, Run(isUuid, Start(now, users), actions[..n]), actions[n]);
    }
  }

  /** Every admission of every run binds: a key presented by a redemption that was allowed is bound,
      from then on, to the user it was allowed for. */
  lemma AdmittedKeysStayBound(isUuid: string -> bool, now: int, users: map<string, Waves.User>, actions: seq<Action>,
                              m: nat)
    requires forall id :: id in users ==> users[id].id == id
    requires Legal(isUuid, Start(now, users), actions) && m < |actions| && actions[m].Settle?
    ensures var w := Run(isUuid, Start(now, users), actions[..m]);
      var late := Run(isUuid, Start(now, users), actions).db;
      actions[m].id in w.attempts && Finish(isUuid, w.db, w.attempts[actions[m].id]).1.Allowed? ==>
        match w.attempts[actions[m].id]
        case Known(pubkey, account) => pubkey != "" && account.user.Some? ==>
          pubkey in late.links && late.links[pubkey] == account.user.value
        case Unknown(_, pubkey, token, _) => pubkey != "" ==>
          pubkey in late.links && token in w.db.tokens && late.links[pubkey] == w.db.tokens[token].user
  {
    var w := Run(isUuid, Start(now, users), actions[..m]);
    assert actions[..m + 1][..m] == actions[..m];
    if actions[m].id in w.attempts && Finish(isUuid, w.db, w.attempts[actions[m].id]).1.Allowed? {
      var a := w.attempts[actions[m].id];
      AdmissionBindsTheKey(isUuid, w.db, a);
      assert Run(isUuid, Start(now, users), actions[..m + 1]).db == Finish(isUuid, w.db, a).0;
      if a.pubkey != "" && (a.Known? ==> a.account.user.Some?) {
        KeysAreNeverRebound(isUuid, now, users, actions, m + 1, a.pubkey);
      }
    }
  }

  // ----- retired tokens -----

  ghost predicate RetiredAreUnspent(tokens: map<string, Token>) {
    forall t :: t in tokens && tokens[t].retired ==> !tokens[t].used
  }

  lemma RunOneMore(isUuid: string -> bool, w: World, actions: seq<Action>, a: Action)
    requires Legal(isUuid, w, actions) && Enabled(Run(isUuid, w, actions), a)
    ensures Legal(isUuid, w, actions + [a]) && Run(isUuid, w, actions + [a]) == Step(isUuid, Run(isUuid, w, actions), a)
  {
    assert (actions + [a])[..|actions|] == actions;
  }

  /** A wave of one seat for the premium user who came first. */
  function OneSeat(u: Waves.User): (Waves.Request, Waves.Picks) {
    (Waves.Request(1, 0, 0, "operator"), Waves.Picks([u], [], [], []))
  }

  predicate Next(u: Waves.User) {
    u.waiting && u.verified && u.premium
  }

  lemma OneSeatOpens(db: Db, u: Waves.User, token: string)
    requires u in db.users.Values && Next(u) && u.id !in Holders(Reaped(db.now, db.tokens)) && token !in db.tokens
    requires forall v :: v in db.users.Values && Next(v) ==> u.created <= v.created
    ensures OpensWave(db, OneSeat(u).0, OneSeat(u).1, map[token := u.id])
    ensures Waves.Cohort(OneSeat(u).1) == [u]
  {
    var holders := Holders(Reaped(db.now, db.tokens));
    assert Elements([u]) == {u};
    assert Waves.Selects(db.users.Values, Waves.InClass(holders, Waves.Premium), Waves.ByCreated, 1, [u]);
    var mint := map[token := u.id];
    assert u.id == mint[token] && mint.Values == {u.id};
  }

  /** Retired does not mean unspent, whatever the two users, tokens and times: a redemption begun
      before the token lapsed still goes through after a wave has retired it. */
  lemma RetiredTokenMayBeSpent(isUuid: string -> bool, now: int, u: Waves.User, v: Waves.User, telegram: string,
                               token: string, other: string)
    returns (actions: seq<Action>)
    requires Next(u) && Next(v) && u.id != v.id && u.created <= v.created
    requires token != "" && isUuid(token) && token != other && telegram != ""
    ensures Legal(isUuid, Start(now, map[u.id := u, v.id := v]), actions)
    ensures var tokens := Run(isUuid, Start(now, map[u.id := u, v.id := v]), actions).db.tokens;
      token in tokens && tokens[token].retired && tokens[token].used
  {
    var w0 := Start(now, map[u.id := u, v.id := v]);
    var begun := Begun(isUuid, now, u, v, telegram, token);
    var late := now + TOKEN_LIFE;
    var tick := Tick(late);
    RunOneMore(isUuid, w0, begun, tick);
    var w3 := Run(isUuid, w0, begun + [tick]);
    assert Reaped(late, w3.db.tokens)[token].retired && Holders(Reaped(late, w3.db.tokens)) == {};
    assert v == w3.db.users[v.id];
    OneSeatOpens(w3.db, v, other);
    var open := Open(OneSeat(v).0, OneSeat(v).1, map[other := v.id]);
    RunOneMore(isUuid, w0, begun + [tick], open);
    var s4 := begun + [tick] + [open];
    RunOneMore(isUuid, w0, s4, Settle(0));
    actions := s4 + [Settle(0)];
  }

  lemma AssembleOne(db: Db, u: Waves.User, token: string)
    requires db.tokens == map[] && u.id in db.users && db.users[u.id] == u
    ensures Assemble(db, [u], map[token := u.id]) ==
      db.(users := db.users[u.id := u.(waiting := false)],
          tokens := map[token := Token(u.id, db.now + TOKEN_LIFE, false, false)])
  {
    assert Reaped(db.now, db.tokens) == map[];
    assert (set x | x in [u] :: x.id) == {u.id};
  }

  lemma Admitted(isUuid: string -> bool, now: int, u: Waves.User, v: Waves.User, token: string)
    requires Next(u) && Next(v) && u.id != v.id && u.created <= v.created
    ensures var w0 := Start(now, map[u.id := u, v.id := v]);
      var open := Open(OneSeat(u).0, OneSeat(u).1, map[token := u.id]);
      Enabled(w0, open) && Step(isUuid, w0, open) ==
        World(Db(now, map[u.id := u.(waiting := false), v.id := v],
                 map[token := Token(u.id, now + TOKEN_LIFE, false, false)], map[], map[]), map[])
  {
    var w0 := Start(now, map[u.id := u, v.id := v]);
    assert u == w0.db.users[u.id] && Reaped(now, map[]) == map[];
    OneSeatOpens(w0.db, u, token);
    AssembleOne(w0.db, u, token);
    assert w0.db.users[u.id := u.(waiting := false)] == map[u.id := u.(waiting := false), v.id := v];
  }

  /** The first user is admitted, and the redemption of the token begins at once. */
  lemma Begun(isUuid: string -> bool, now: int, u: Waves.User, v: Waves.User, telegram: string, token: string)
    returns (actions: seq<Action>)
    requires Next(u) && Next(v) && u.id != v.id && u.created <= v.created && telegram != ""
    ensures var w0 := Start(now, map[u.id := u, v.id := v]);
      Legal(isUuid, w0, actions) && Run(isUuid, w0, actions) ==
        World(Db(now, map[u.id := u.(waiting := false), v.id := v],
                 map[token := Token(u.id, now + TOKEN_LIFE, false, false)], map[], map[]),
              map[0 := Unknown(telegram, "", token, now)])
  {
    var w0 := Start(now, map[u.id := u, v.id := v]);
    var open := Open(OneSeat(u).0, OneSeat(u).1, map[token := u.id]);
    Admitted(isUuid, now, u, v, token);
    RunOneMore(isUuid, w0, [], open);
    var arrive := Arrive(0, telegram, "", token);
    RunOneMore(isUuid, w0, [] + [open], arrive);
    actions := [] + [open] + [arrive];
  }

  /** A redemption by token that passes every check, of a token that has been retired. */
  predicate MeetsRetired(isUuid: string -> bool, db: Db, a: Attempt) {
    && a.Unknown? && a.token != "" && isUuid(a.token) && a.telegram !in db.accounts
    && a.token in db.tokens && db.tokens[a.token].retired && !db.tokens[a.token].used
    && db.tokens[a.token].expiresAt > a.at && KeyIsFree(db, a.pubkey, db.tokens[a.token].user)
  }

  /** Exactly which redemptions spend a retired token. */
  lemma SpendsRetiredExactly(isUuid: string -> bool, db: Db, a: Attempt)
    requires RetiredAreUnspent(db.tokens)
    ensures RetiredAreUnspent(Finish(isUuid, db, a).0.tokens) <==> !MeetsRetired(isUuid, db, a)
  {
    FinishIsAllOrNothing(isUuid, db, a);
    if MeetsRetired(isUuid, db, a) {
      assert Finish(isUuid, db, a).0.tokens[a.token].used;
    }
  }

  /** No redemption of the run finds its token retired in the meantime. */
  ghost predicate Prompt(isUuid: string -> bool, w: World, actions: seq<Action>) {
    actions == [] ||
    (var n := |actions| - 1;
     var before := Run(isUuid, w, actions[..n]);
     Prompt(isUuid, w, actions[..n])
     && (actions[n].Settle? && actions[n].id in before.attempts ==>
         MeetsLiveToken(before.db, before.attempts[actions[n].id])))
  }

  ghost predicate MeetsLiveToken(db: Db, a: Attempt) {
    a.Unknown? && a.token in db.tokens ==> !db.tokens[a.token].retired
  }

  /** On such runs, whatever else they do, no retired token is ever spent. */
  lemma {:induction false} PromptRunsSpendNoRetiredToken(isUuid: string -> bool, now: int, users: map<string,
                                                         Waves.User>,
                                                         actions: seq<Action>)
    requires forall id :: id in users ==> users[id].id == id
    requires Legal(isUuid, Start(now, users), actions) && Prompt(isUuid, Start(now, users), actions)
    ensures RetiredAreUnspent(Run(isUuid, Start(now, users), actions).db.tokens)
  {
    if actions != [] {
      var n := |actions| - 1;
      PromptRunsSpendNoRetiredToken(isUuid, now, users, actions[..n]);
      EveryRun(isUuid, now, users, actions[..n], "");
      var before, a := Run(isUuid, Start(now, users), actions[..n]), actions[n];
      match a
      case Settle(id) =>
        FinishIsAllOrNothing(isUuid, before.db, before.attempts[id]);
        SpendsRetiredExactly(isUuid, before.db, before.attempts[id]);
      case Open(r, picks, mint) =>
        if Waves.Cohort(picks) != [] {
          AssembleShape(before.db, Waves.Cohort(picks), mint);
        }
      case _ =>
    }
  }
}
