/** The two kinds of stored record (a user account and a leaderboard entry),
    the seed data the in-memory store starts from, and the values derived at
    registration. */
module Records {
  import opened Common
  import opened Text

  /** A user account. `password` is absent for accounts created by the
      in-memory register handler, which never stores the password. */
  datatype User = User(
    name: string,
    email: string,
    password: Option<string>,
    referralCode: string,
    totalDonations: int,
    rewards: seq<string>)

  /** A leaderboard row: a copy of the user's name and referral code, a
      snapshot of the total and a rank drawn once at creation. */
  datatype Entry = Entry(name: string, referralCode: string, totalDonations: int, rank: int)

  /** The fixed year suffix of every referral code. */
  const ReferralSuffix: string := "2025"

  /** The badges every new account starts with, in both storage modes. */
  const StarterRewards: seq<string> := ["Bronze Badge", "First Donation"]

  /** Referral code: the lower-cased name followed by the year suffix. */
  function ReferralCode(name: string): (code: string)
    ensures |code| == |name| + 4
    ensures code[..|name|] == ToLower(name) && code[|name|..] == ReferralSuffix
    ensures forall i :: 0 <= i < |code| ==> !IsUpper(code[i])
  {
    ToLower(name) + ReferralSuffix
  }

  /** Two names that differ only in letter case share a referral code. */
  lemma ReferralCodeIgnoresCase(a: string, b: string)
    requires ToLower(a) == ToLower(b)
    ensures ReferralCode(a) == ReferralCode(b)
  {
  }

  /** The in-memory store's initial accounts: one demo user. */
  const DemoUsers: seq<User> := [
    User("Demo User", "demo@intern.com", Some("password123"), "demo2025", 3450, StarterRewards)
  ]

  /** The in-memory store's leaderboard, also the client's fallback list. */
  const DemoLeaderboard: seq<Entry> := [
    Entry("Sarah Johnson", "sarah2025", 15420, 1),
    Entry("Mike Chen", "mike2025", 12850, 2),
    Entry("Emily Davis", "emily2025", 11200, 3),
    Entry("Alex Rodriguez", "alex2025", 9850, 4),
    Entry("Jessica Kim", "jessica2025", 8750, 5),
    Entry("David Wilson", "david2025", 7650, 6),
    Entry("Lisa Thompson", "lisa2025", 6540, 7),
    Entry("Ryan Brown", "ryan2025", 5430, 8),
    Entry("Amanda Lee", "amanda2025", 4320, 9),
    Entry("Chris Martinez", "chris2025", 3210, 10)
  ]

  /** Entries listed with the highest total first. */
  predicate SortedDescending(s: seq<Entry>) {
    forall i, j :: 0 <= i < j < |s| ==> s[i].totalDonations >= s[j].totalDonations
  }

  /** Every entry's stored rank equals its 1-based position. */
  predicate RanksMatchPositions(s: seq<Entry>) {
    forall i :: 0 <= i < |s| ==> s[i].rank == i + 1
  }

  /** The seed leaderboard is internally consistent: sorted by total,
      highest first, with ranks 1..10 in list order. */
  lemma DemoLeaderboardConsistent()
    ensures |DemoLeaderboard| == 10
    ensures SortedDescending(DemoLeaderboard)
    ensures RanksMatchPositions(DemoLeaderboard)
  {
  }
}
