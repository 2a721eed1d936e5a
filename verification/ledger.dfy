/** The server's request handlers as pure transitions from a store and a
    request to a new store and a response. The storage mode is a parameter,
    and each mode has its own part of the store: in-memory (demo) mode keeps
    a list of accounts and answers leaderboard reads from a fixed seed list;
    durable mode keeps accounts and leaderboard entries as two collections. */
module Ledger {
  import opened Common
  import opened Text
  import opened Records
  import opened Standings

  datatype Mode = DemoMode | DurableMode

  /** The in-memory account array (`demoUsers`) and the two durable
      collections, each in insertion order. A demo-mode request reads and
      writes only `demoUsers`; a durable-mode request only `users` and
      `board`. */
  datatype Store = Store(demoUsers: seq<User>, users: seq<User>, board: seq<Entry>)

  /** The accounts a request in this mode looks up. */
  function Accounts(mode: Mode, s: Store): seq<User> {
    match mode
    case DemoMode => s.demoUsers
    case DurableMode => s.users
  }

  /** The store as the process starts it: the seeded in-memory account and
      empty collections. */
  const DemoStore: Store := Store(DemoUsers, [], [])

  /** The two random draws of a registration, as the integers the handler
      derives from `Math.random()`: `seed` is `floor(random * 5000)` and
      `rank` is `floor(random * 10)`. */
  datatype Draws = Draws(seed: nat, rank: nat)

  predicate ValidDraws(d: Draws) { d.seed < 5000 && d.rank < 10 }

  /** Lowest seeded total: `+ 1000` added to the first draw. */
  const SeedBase: nat := 1000

  datatype Failure =
    | InvalidCredentials
    | UserNotFound
    | DuplicateEmail  // the unique index on email rejected the insert
    | MissingField    // a required account field was empty

  /** The message of a failure response. The two store-driver failures carry
      the driver's own error text, abbreviated here. */
  function Message(f: Failure): (m: string)
    ensures m == "Invalid credentials" <==> f == InvalidCredentials
    ensures m == "User not found" <==> f == UserNotFound
    ensures |m| > 0
  {
    match f
    case InvalidCredentials => "Invalid credentials"
    case UserNotFound => "User not found"
    case DuplicateEmail => "E11000 duplicate key error"
    case MissingField => "User validation failed"
  }

  /** The JSON body of a successful response. */
  datatype Body =
    | UserBody(name: string, email: string, referralCode: string, totalDonations: int,
               rewards: Option<seq<string>>)
    | DashboardBody(name: string, referralCode: string, totalDonations: int,
                    rewards: Option<seq<string>>)
    | BoardBody(leaderboard: seq<Entry>)
    | TotalBody(totalDonations: int)

  datatype Response = Ok(body: Body) | Err(status: nat, failure: Failure)

  datatype Outcome = Outcome(store: Store, response: Response)

  datatype Request =
    | Register(name: string, email: string, password: string)
    | Login(email: string, password: string)
    | Dashboard(email: string)
    | ReadLeaderboard
    | Donate(email: string, amount: int)

  /** Index of the first account with this email. */
  function FindByEmail(users: seq<User>, email: string): (r: Option<nat>)
    ensures r.Some? ==> r.value < |users| && users[r.value].email == email
    ensures r.Some? ==> forall j :: 0 <= j < r.value ==> users[j].email != email
    ensures r.None? <==> forall j :: 0 <= j < |users| ==> users[j].email != email
  {
    FindFirst(users, (u: User) => u.email == email)
  }

  lemma FindByEmailIs(users: seq<User>, email: string, k: nat)
    requires k < |users| && users[k].email == email
    requires forall j :: 0 <= j < k ==> users[j].email != email
    ensures FindByEmail(users, email) == Some(k)
  {
    FindFirstIs(users, (u: User) => u.email == email, k);
  }

  /** Index of the first account with this email and this password. */
  function FindByCredentials(users: seq<User>, email: string, password: string): (r: Option<nat>)
    ensures r.Some? ==> r.value < |users| && users[r.value].email == email
                        && users[r.value].password == Some(password)
    ensures r.Some? ==> forall j :: 0 <= j < r.value ==>
              !(users[j].email == email && users[j].password == Some(password))
    ensures r.None? <==> forall j :: 0 <= j < |users| ==>
              !(users[j].email == email && users[j].password == Some(password))
  {
    FindFirst(users, (u: User) => u.email == email && u.password == Some(password))
  }

  // ---------------------------------------------------------------------------
  // POST /api/register
  // ---------------------------------------------------------------------------

  function HandleRegister(mode: Mode, s: Store, name: string, email: string, password: string,
                          draws: Draws): (o: Outcome)
    requires ValidDraws(draws)
    // every success reports the derived referral code and a seeded total
    ensures o.response.Ok? ==>
              && o.response.body.UserBody?
              && o.response.body.name == name && o.response.body.email == email
              && o.response.body.referralCode == ReferralCode(name)
              && 1000 <= o.response.body.totalDonations <= 5999
    // in-memory: always succeeds and appends exactly one password-less
    // account to the in-memory list; nothing else changes
    ensures mode == DemoMode ==>
              && o.response.Ok?
              && o.response.body.rewards == Some(StarterRewards)
              && o.store == s.(demoUsers := s.demoUsers + [User(name, email, None, ReferralCode(name),
                                                               o.response.body.totalDonations,
                                                               StarterRewards)])
    // durable: fails on an empty required field or a taken email, else appends
    // the account and a leaderboard entry with the same total
    ensures mode == DurableMode ==>
              (o.response.Ok? <==>
                 name != [] && email != [] && password != [] && FindByEmail(s.users, email).None?)
    ensures mode == DurableMode && o.response.Err? ==>
              o.store == s && o.response.status == 400
    ensures mode == DurableMode && o.response.Ok? ==>
              && o.response.body.rewards.None?
              && o.store.demoUsers == s.demoUsers
              && o.store.users == s.users + [User(name, email, Some(password), ReferralCode(name),
                                                  o.response.body.totalDonations, StarterRewards)]
              && |o.store.board| == |s.board| + 1
              && o.store.board[..|s.board|] == s.board
              && o.store.board[|s.board|].name == name
              && o.store.board[|s.board|].referralCode == ReferralCode(name)
              && o.store.board[|s.board|].totalDonations == o.response.body.totalDonations
              && 1 <= o.store.board[|s.board|].rank <= 10
  {
    var code := ReferralCode(name);
    var total := SeedBase + draws.seed;
    match mode
    case DemoMode =>
      var user := User(name, email, None, code, total, StarterRewards);
      Outcome(s.(demoUsers := s.demoUsers + [user]),
              Ok(UserBody(name, email, code, total, Some(StarterRewards))))
    case DurableMode =>
      if name == [] || email == [] || password == [] then
        Outcome(s, Err(400, MissingField))
      else if FindByEmail(s.users, email).Some? then
        Outcome(s, Err(400, DuplicateEmail))
      else
        var user := User(name, email, Some(password), code, total, StarterRewards);
        var entry := Entry(name, code, total, draws.rank + 1);
        Outcome(s.(users := s.users + [user], board := s.board + [entry]),
                Ok(UserBody(name, email, code, total, None)))
  }

  // ---------------------------------------------------------------------------
  // POST /api/login
  // ---------------------------------------------------------------------------

  /** Both storage modes answer a login the same way, each from its own
      accounts: the first account whose email and stored password both equal
      the request's. */
  function HandleLogin(mode: Mode, s: Store, email: string, password: string): (o: Outcome)
    ensures o.store == s
    ensures var us := Accounts(mode, s);
            o.response.Ok? <==>
              exists i :: 0 <= i < |us| && us[i].email == email && us[i].password == Some(password)
    ensures o.response.Err? ==> o.response == Err(400, InvalidCredentials)
    ensures var us := Accounts(mode, s);
            o.response.Ok? ==>
              exists i :: 0 <= i < |us| && us[i].email == email && us[i].password == Some(password)
                          && (forall j :: 0 <= j < i ==>
                                !(us[j].email == email && us[j].password == Some(password)))
                          && o.response.body == UserBody(us[i].name, email, us[i].referralCode,
                               us[i].totalDonations, Some(us[i].rewards))
  {
    var us := Accounts(mode, s);
    match FindByCredentials(us, email, password)
    case None => Outcome(s, Err(400, InvalidCredentials))
    case Some(i) =>
      var u := us[i];
      Outcome(s, Ok(UserBody(u.name, u.email, u.referralCode, u.totalDonations, Some(u.rewards))))
  }

  // ---------------------------------------------------------------------------
  // GET /api/dashboard/:email
  // ---------------------------------------------------------------------------

  function HandleDashboard(mode: Mode, s: Store, email: string): (o: Outcome)
    ensures o.store == s
    ensures var us := Accounts(mode, s);
            o.response.Err? <==> forall j :: 0 <= j < |us| ==> us[j].email != email
    ensures o.response.Err? ==> o.response == Err(404, UserNotFound)
    ensures var us := Accounts(mode, s);
            o.response.Ok? ==>
              exists i :: 0 <= i < |us| && us[i].email == email
                          && (forall j :: 0 <= j < i ==> us[j].email != email)
                          && o.response.body == DashboardBody(us[i].name, us[i].referralCode,
                               us[i].totalDonations, Some(us[i].rewards))
  {
    var us := Accounts(mode, s);
    match FindByEmail(us, email)
    case None => Outcome(s, Err(404, UserNotFound))
    case Some(i) =>
      var u := us[i];
      Outcome(s, Ok(DashboardBody(u.name, u.referralCode, u.totalDonations, Some(u.rewards))))
  }

  // ---------------------------------------------------------------------------
  // GET /api/leaderboard
  // ---------------------------------------------------------------------------

  function HandleLeaderboard(mode: Mode, s: Store): (o: Outcome)
    ensures o.store == s && o.response.Ok? && o.response.body.BoardBody?
    ensures mode == DemoMode ==> o.response.body.leaderboard == DemoLeaderboard
    ensures mode == DurableMode ==>
              var shown := o.response.body.leaderboard;
              && |shown| == Min(PageSize, |s.board|)
              && SortedDescending(shown)
              && multiset(shown) <= multiset(s.board)
              && (forall e, i :: e in multiset(s.board) - multiset(shown) && 0 <= i < |shown| ==>
                    shown[i].totalDonations >= e.totalDonations)
  {
    match mode
    case DemoMode => Outcome(s, Ok(BoardBody(DemoLeaderboard)))
    case DurableMode => Outcome(s, Ok(BoardBody(TopEntries(s.board))))
  }

  // ---------------------------------------------------------------------------
  // PUT /api/donations/:email
  // ---------------------------------------------------------------------------

  /** Overwrites the total of the first entry carrying this referral code;
      without such an entry the board is returned as it was. */
  function SyncEntry(board: seq<Entry>, code: string, total: int): (r: seq<Entry>)
    ensures |r| == |board|
    ensures (forall j :: 0 <= j < |board| ==> board[j].referralCode != code) ==> r == board
    ensures forall k :: 0 <= k < |board| && board[k].referralCode == code
                        && (forall j :: 0 <= j < k ==> board[j].referralCode != code) ==>
              r == board[k := board[k].(totalDonations := total)]
  {
    match FindFirst(board, (e: Entry) => e.referralCode == code)
    case None => board
    case Some(k) => board[k := board[k].(totalDonations := total)]
  }

  function HandleDonate(mode: Mode, s: Store, email: string, amount: int): (o: Outcome)
    // unknown email: 404 and nothing changes
    ensures FindByEmail(Accounts(mode, s), email).None? ==> o == Outcome(s, Err(404, UserNotFound))
    // known email: the first such account gains `amount`, whatever its sign,
    // and the response carries the new total; in durable mode the board is
    // synced, and the other mode's part of the store is untouched
    ensures var us := Accounts(mode, s);
            FindByEmail(us, email).Some? ==>
              var k := FindByEmail(us, email).value;
              var total := us[k].totalDonations + amount;
              && o.response == Ok(TotalBody(total))
              && Accounts(mode, o.store) == us[k := us[k].(totalDonations := total)]
              && (mode == DemoMode ==> o.store.users == s.users && o.store.board == s.board)
              && (mode == DurableMode ==>
                    && o.store.demoUsers == s.demoUsers
                    && o.store.board == SyncEntry(s.board, us[k].referralCode, total))
  {
    var us := Accounts(mode, s);
    match FindByEmail(us, email)
    case None => Outcome(s, Err(404, UserNotFound))
    case Some(k) =>
      var u := us[k];
      var total := u.totalDonations + amount;
      var updated := us[k := u.(totalDonations := total)];
      match mode
      case DemoMode => Outcome(s.(demoUsers := updated), Ok(TotalBody(total)))
      case DurableMode =>
        Outcome(s.(users := updated, board := SyncEntry(s.board, u.referralCode, total)),
                Ok(TotalBody(total)))
  }

  // ---------------------------------------------------------------------------
  // Dispatch
  // ---------------------------------------------------------------------------

  /** One request under the current mode. A request never touches the other
      mode's part of the store. */
  function Handle(mode: Mode, s: Store, req: Request, draws: Draws): (o: Outcome)
    requires ValidDraws(draws)
    ensures mode == DemoMode ==> o.store.users == s.users && o.store.board == s.board
    ensures mode == DurableMode ==> o.store.demoUsers == s.demoUsers
    ensures req.ReadLeaderboard? || req.Login? || req.Dashboard? ==> o.store == s
  {
    match req
    case Register(name, email, password) => HandleRegister(mode, s, name, email, password, draws)
    case Login(email, password) => HandleLogin(mode, s, email, password)
    case Dashboard(email) => HandleDashboard(mode, s, email)
    case ReadLeaderboard => HandleLeaderboard(mode, s)
    case Donate(email, amount) => HandleDonate(mode, s, email, amount)
  }
}
