/** Properties that relate several handler calls: what a later request sees
    after a donation or a registration, the invariants the durable store
    keeps, where the two storage modes diverge and how their parts of the
    store stay apart, and the behaviour of the concrete scenarios the
    application is documented with. */
module LedgerFacts {
  import opened Common
  import opened Text
  import opened Records
  import opened Ledger

  // ---------------------------------------------------------------------------
  // Donation as seen by a later dashboard read
  // ---------------------------------------------------------------------------

  /** After a donation to a known email, the dashboard for that email reports
      the first matching account's old total plus the amount. */
  lemma {:induction false} DonateThenDashboard(mode: Mode, s: Store, email: string, amount: int, k: nat)
    requires k < |Accounts(mode, s)| && Accounts(mode, s)[k].email == email
    requires forall j :: 0 <= j < k ==> Accounts(mode, s)[j].email != email
    ensures var u := Accounts(mode, s)[k];
            HandleDonate(mode, s, email, amount).response == Ok(TotalBody(u.totalDonations + amount))
    ensures var u := Accounts(mode, s)[k];
            var after := HandleDonate(mode, s, email, amount).store;
            HandleDashboard(mode, after, email).response
              == Ok(DashboardBody(u.name, u.referralCode, u.totalDonations + amount, Some(u.rewards)))
  {
    var us := Accounts(mode, s);
    FindByEmailIs(us, email, k);
    var total := us[k].totalDonations + amount;
    var updated := us[k := us[k].(totalDonations := total)];
    var after := HandleDonate(mode, s, email, amount).store;
    assert Accounts(mode, after) == updated;
    assert updated[k] == us[k].(totalDonations := total);
    assert forall j :: 0 <= j < k ==> updated[j] == us[j];
    FindByEmailIs(updated, email, k);
  }

  /** The server does not check the sign: a negative amount lowers the total,
      and a zero amount is accepted as a successful no-op. */
  lemma DonationAmountUnchecked(mode: Mode, s: Store, email: string, amount: int, k: nat)
    requires k < |Accounts(mode, s)| && Accounts(mode, s)[k].email == email
    requires forall j :: 0 <= j < k ==> Accounts(mode, s)[j].email != email
    ensures var o := HandleDonate(mode, s, email, amount);
            var us := Accounts(mode, s);
            && o.response.Ok?
            && (amount < 0 ==> Accounts(mode, o.store)[k].totalDonations < us[k].totalDonations)
            && (amount == 0 ==> Accounts(mode, o.store) == us)
  {
    var us := Accounts(mode, s);
    FindByEmailIs(us, email, k);
    var o := HandleDonate(mode, s, email, amount);
    var total := us[k].totalDonations + amount;
    assert Accounts(mode, o.store) == us[k := us[k].(totalDonations := total)];
    if amount == 0 {
      assert us[k].(totalDonations := total) == us[k];
    }
  }

  // ---------------------------------------------------------------------------
  // Registration in the two storage modes
  // ---------------------------------------------------------------------------

  /** In-memory registration does not look at existing emails: registering a
      taken email succeeds and leaves two accounts with that email. */
  lemma DemoRegisterAllowsDuplicateEmail(s: Store, name: string, email: string, password: string,
                                         draws: Draws, k: nat)
    requires ValidDraws(draws)
    requires k < |s.demoUsers| && s.demoUsers[k].email == email
    ensures var o := HandleRegister(DemoMode, s, name, email, password, draws);
            && o.response.Ok?
            && |o.store.demoUsers| == |s.demoUsers| + 1
            && o.store.demoUsers[k].email == email
            && o.store.demoUsers[|s.demoUsers|].email == email
  {
  }

  /** The durable store refuses a second account for an email. */
  lemma DurableRegisterRejectsDuplicateEmail(s: Store, name: string, email: string, password: string,
                                             draws: Draws, k: nat)
    requires ValidDraws(draws)
    requires k < |s.users| && s.users[k].email == email
    ensures HandleRegister(DurableMode, s, name, email, password, draws)
              == Outcome(s, Err(400, if name == [] || email == [] || password == [] then MissingField
                                     else DuplicateEmail))
  {
  }

  /** An in-memory registration stores no password, so the new account can
      never be logged into: every login with a password answers as it did
      before. */
  lemma {:induction false} DemoRegisterInvisibleToLogin(s: Store, name: string, email: string,
                                                        password: string, draws: Draws,
                                                        loginEmail: string, loginPassword: string)
    requires ValidDraws(draws)
    ensures var after := HandleRegister(DemoMode, s, name, email, password, draws).store;
            HandleLogin(DemoMode, after, loginEmail, loginPassword).response
              == HandleLogin(DemoMode, s, loginEmail, loginPassword).response
  {
    var after := HandleRegister(DemoMode, s, name, email, password, draws).store;
    var added := after.demoUsers[|s.demoUsers|];
    assert added.password.None?;
    assert forall j :: 0 <= j < |s.demoUsers| ==> after.demoUsers[j] == s.demoUsers[j];
    match FindByCredentials(s.demoUsers, loginEmail, loginPassword)
    case Some(i) =>
      assert FindByCredentials(after.demoUsers, loginEmail, loginPassword) == Some(i);
    case None =>
      assert FindByCredentials(after.demoUsers, loginEmail, loginPassword).None?;
  }

  /** The in-memory leaderboard is a constant: whatever request came before,
      a leaderboard read answers with the seed list, so neither a demo
      registration nor a demo donation ever shows on it. */
  lemma DemoBoardIsFixed(s: Store, req: Request, draws: Draws)
    requires ValidDraws(draws)
    ensures var after := Handle(DemoMode, s, req, draws).store;
            && after.board == s.board
            && HandleLeaderboard(DemoMode, after).response == Ok(BoardBody(DemoLeaderboard))
  {
  }

  // ---------------------------------------------------------------------------
  // The two modes keep apart
  // ---------------------------------------------------------------------------

  /** Two stores that agree on one mode's part answer every request in that
      mode alike, and end up agreeing on that part again: what the other
      mode holds never shows. */
  lemma {:induction false} ModesAreIsolated(mode: Mode, s: Store, t: Store, req: Request, draws: Draws)
    requires ValidDraws(draws)
    requires Accounts(mode, s) == Accounts(mode, t)
    requires mode == DurableMode ==> s.board == t.board
    ensures Handle(mode, s, req, draws).response == Handle(mode, t, req, draws).response
    ensures Accounts(mode, Handle(mode, s, req, draws).store)
              == Accounts(mode, Handle(mode, t, req, draws).store)
    ensures mode == DurableMode ==>
              Handle(mode, s, req, draws).store.board == Handle(mode, t, req, draws).store.board
  {
    match req
    case Register(name, email, password) =>
      if mode == DurableMode {
        assert FindByEmail(s.users, email) == FindByEmail(t.users, email);
      }
    case Login(email, password) =>
      assert FindByCredentials(Accounts(mode, s), email, password)
          == FindByCredentials(Accounts(mode, t), email, password);
    case Dashboard(email) =>
      assert FindByEmail(Accounts(mode, s), email) == FindByEmail(Accounts(mode, t), email);
    case ReadLeaderboard =>
    case Donate(email, amount) =>
      assert FindByEmail(Accounts(mode, s), email) == FindByEmail(Accounts(mode, t), email);
  }

  /** An email registered while in demo mode is still free once the durable
      store is in use, and the seeded demo account cannot log in there. */
  lemma SeparateAccountStores(draws: Draws)
    requires ValidDraws(draws)
    ensures var demo := HandleRegister(DemoMode, DemoStore, "Ann", "ann@x.com", "pw", draws);
            && demo.response.Ok?
            && HandleRegister(DurableMode, demo.store, "Ann", "ann@x.com", "pw", draws).response.Ok?
    ensures HandleLogin(DurableMode, DemoStore, "demo@intern.com", "password123").response
              == Err(400, InvalidCredentials)
  {
    var demo := HandleRegister(DemoMode, DemoStore, "Ann", "ann@x.com", "pw", draws);
    assert demo.store.users == [];
  }

  // ---------------------------------------------------------------------------
  // Durable-store invariants
  // ---------------------------------------------------------------------------

  /** No two accounts share an email (the unique index). */
  predicate UniqueEmails(users: seq<User>) {
    forall i, j :: 0 <= i < j < |users| ==> users[i].email != users[j].email
  }

  /** Every durable request keeps emails unique. */
  lemma DurableKeepsEmailsUnique(s: Store, req: Request, draws: Draws)
    requires ValidDraws(draws)
    requires UniqueEmails(s.users)
    ensures UniqueEmails(Handle(DurableMode, s, req, draws).store.users)
  {
    var after := Handle(DurableMode, s, req, draws).store.users;
    match req
    case Register(name, email, password) =>
    case Login(_, _) =>
    case Dashboard(_) =>
    case ReadLeaderboard =>
    case Donate(email, amount) =>
      assert forall j :: 0 <= j < |after| ==> after[j].email == s.users[j].email;
  }

  /** With unique emails, a successful login returns the one matching account. */
  lemma UniqueEmailLogin(s: Store, email: string, password: string, k: nat)
    requires UniqueEmails(s.users)
    requires k < |s.users| && s.users[k].email == email && s.users[k].password == Some(password)
    ensures HandleLogin(DurableMode, s, email, password).response
              == Ok(UserBody(s.users[k].name, email, s.users[k].referralCode,
                             s.users[k].totalDonations, Some(s.users[k].rewards)))
  {
    assert FindByCredentials(s.users, email, password) == Some(k);
  }

  /** Accounts and leaderboard entries pair up position by position, with
      matching referral codes and totals, and no referral code is shared. */
  predicate Synced(s: Store) {
    && |s.users| == |s.board|
    && (forall i :: 0 <= i < |s.users| ==>
          s.board[i].referralCode == s.users[i].referralCode
          && s.board[i].totalDonations == s.users[i].totalDonations)
    && (forall i, j :: 0 <= i < j < |s.users| ==> s.users[i].referralCode != s.users[j].referralCode)
  }

  /** While referral codes are distinct, a durable donation keeps every
      leaderboard entry equal to its account's total. */
  lemma {:induction false} DurableDonateKeepsSync(s: Store, email: string, amount: int)
    requires Synced(s)
    ensures Synced(HandleDonate(DurableMode, s, email, amount).store)
  {
    var after := HandleDonate(DurableMode, s, email, amount).store;
    match FindByEmail(s.users, email)
    case None =>
      assert after == s;
    case Some(k) =>
      var code := s.users[k].referralCode;
      var total := s.users[k].totalDonations + amount;
      FindFirstIs(s.board, (e: Entry) => e.referralCode == code, k);
      assert SyncEntry(s.board, code, total) == s.board[k := s.board[k].(totalDonations := total)];
      assert after.board == s.board[k := s.board[k].(totalDonations := total)];
      assert after.users == s.users[k := s.users[k].(totalDonations := total)];
      UpdateKeepsSync(s, k, total);
  }

  /** Setting the same new total on an account and on its paired entry keeps
      the pairing. */
  lemma UpdateKeepsSync(s: Store, k: nat, total: int)
    requires Synced(s) && k < |s.users|
    ensures Synced(s.(users := s.users[k := s.users[k].(totalDonations := total)],
                      board := s.board[k := s.board[k].(totalDonations := total)]))
  {
    var users := s.users[k := s.users[k].(totalDonations := total)];
    assert forall i :: 0 <= i < |users| ==> users[i].referralCode == s.users[i].referralCode;
  }

  /** A durable registration under a fresh referral code keeps the pairing. */
  lemma {:induction false} DurableRegisterKeepsSync(s: Store, name: string, email: string,
                                                    password: string, draws: Draws)
    requires ValidDraws(draws) && Synced(s)
    requires forall i :: 0 <= i < |s.users| ==> s.users[i].referralCode != ReferralCode(name)
    ensures Synced(HandleRegister(DurableMode, s, name, email, password, draws).store)
  {
    var o := HandleRegister(DurableMode, s, name, email, password, draws);
    if o.response.Ok? {
      var n := |s.users|;
      assert o.store.users[n].referralCode == o.store.board[n].referralCode;
      assert forall i :: 0 <= i < n ==> o.store.users[i] == s.users[i] && o.store.board[i] == s.board[i];
    }
  }

  /** Two names equal up to letter case get the same referral code, and then a
      donation to the second account overwrites the FIRST account's
      leaderboard entry while the second's stays stale. */
  lemma ReferralCollisionMisdirectsSync()
    ensures var s := Store([],
              [User("Ada", "ada@x.com", Some("pw"), ReferralCode("Ada"), 3000, StarterRewards),
               User("ADA", "ada2@x.com", Some("pw"), ReferralCode("ADA"), 2000, StarterRewards)],
              [Entry("Ada", ReferralCode("Ada"), 3000, 4), Entry("ADA", ReferralCode("ADA"), 2000, 7)]);
            var after := HandleDonate(DurableMode, s, "ada2@x.com", 100).store;
            && after.users[1].totalDonations == 2100
            && after.board[0].totalDonations == 2100
            && after.board[1].totalDonations == 2000
  {
    ReferralCodeIgnoresCase("Ada", "ADA");
  }

  // ---------------------------------------------------------------------------
  // Documented scenarios
  // ---------------------------------------------------------------------------

  /** Logging in as the seeded demo account succeeds with its stored total. */
  lemma DemoLoginScenario()
    ensures HandleLogin(DemoMode, DemoStore, "demo@intern.com", "password123").response
              == Ok(UserBody("Demo User", "demo@intern.com", "demo2025", 3450, Some(StarterRewards)))
    ensures HandleLogin(DemoMode, DemoStore, "demo@intern.com", "wrong").response
              == Err(400, InvalidCredentials)
  {
    assert FindByCredentials(DemoStore.demoUsers, "demo@intern.com", "password123") == Some(0);
  }

  /** Donating 500 to the demo account raises 3450 to 3950; an unknown email
      gets 404 and changes nothing. */
  lemma DemoDonationScenario()
    ensures HandleDonate(DemoMode, DemoStore, "demo@intern.com", 500).response == Ok(TotalBody(3950))
    ensures HandleDonate(DemoMode, DemoStore, "ghost@x.com", 500)
              == Outcome(DemoStore, Err(404, UserNotFound))
    ensures Message(UserNotFound) == "User not found"
  {
    assert FindByEmail(DemoStore.demoUsers, "demo@intern.com") == Some(0);
  }

  /** Registering Ada yields referral code "ada2025", a seeded total within
      1000..5999 and the two starter badges. */
  lemma RegisterAdaScenario(mode: Mode, draws: Draws)
    requires ValidDraws(draws)
    ensures var o := HandleRegister(mode, DemoStore, "Ada", "ada@x.com", "secret1", draws);
            && o.response.Ok?
            && o.response.body.referralCode == "ada2025"
            && 1000 <= o.response.body.totalDonations <= 5999
            && Accounts(mode, o.store)[|Accounts(mode, DemoStore)|].rewards
                 == ["Bronze Badge", "First Donation"]
  {
    assert ToLower("Ada") == "ada";
    assert FindByEmail(DemoStore.users, "ada@x.com").None?;
  }
}
