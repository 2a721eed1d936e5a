/** The leaderboard page: the list it shows after a fetch (the server's list,
    or a built-in copy of the seed list when the request fails) and one row
    per entry whose icon is derived from the entry's stored rank. */
module LeaderboardView {
  import opened Common
  import opened Text
  import opened Records
  import opened Standings
  import opened Ledger

  const GoldMedal: string := "\U{1F947}"
  const SilverMedal: string := "\U{1F948}"
  const BronzeMedal: string := "\U{1F949}"

  /** The label in front of a row: a medal for the first three ranks, else
      "#" followed by the rank in decimal. Lengths count code points: each
      medal is one, although a JavaScript string holds it as two units. */
  function RankIcon(rank: int): (icon: string)
    ensures 1 <= rank <= 3 <==> |icon| == 1
    ensures rank == 1 ==> icon == GoldMedal
    ensures rank == 2 ==> icon == SilverMedal
    ensures rank == 3 ==> icon == BronzeMedal
    ensures !(1 <= rank <= 3) ==> |icon| >= 2 && icon[0] == '#'
  {
    if rank == 1 then GoldMedal
    else if rank == 2 then SilverMedal
    else if rank == 3 then BronzeMedal
    else "#" + IntToString(rank)
  }

  /** Reading the number back out of a "#" label gives the rank again. */
  lemma RankIconRoundTrip(rank: int)
    requires !(1 <= rank <= 3)
    ensures ParseInt(RankIcon(rank)[1..]) == Some(rank)
  {
    assert RankIcon(rank)[1..] == IntToString(rank);
    ParseIntOfIntToString(rank);
  }

  /** Different ranks never share a label. */
  lemma RankIconInjective(a: int, b: int)
    requires RankIcon(a) == RankIcon(b)
    ensures a == b
  {
    if !(1 <= a <= 3) && !(1 <= b <= 3) {
      RankIconRoundTrip(a);
      RankIconRoundTrip(b);
    }
  }

  // ---------------------------------------------------------------------------
  // Rows
  // ---------------------------------------------------------------------------

  datatype Row = Row(icon: string, name: string, referralCode: string, totalDonations: int)

  /** One row per entry, in list order; the icon comes from the entry's own
      `rank` field and not from its position. */
  function Rows(entries: seq<Entry>): (rows: seq<Row>)
    ensures |rows| == |entries|
    ensures forall i :: 0 <= i < |rows| ==>
              && rows[i].icon == RankIcon(entries[i].rank)
              && rows[i].name == entries[i].name
              && rows[i].referralCode == entries[i].referralCode
              && rows[i].totalDonations == entries[i].totalDonations
  {
    seq(|entries|, i requires 0 <= i < |entries| =>
      Row(RankIcon(entries[i].rank), entries[i].name, entries[i].referralCode,
          entries[i].totalDonations))
  }

  /** When the stored ranks agree with the positions, the icons read 1st,
      2nd, 3rd, then #4, #5, ... down the page. */
  lemma RowsFollowPositions(entries: seq<Entry>)
    requires RanksMatchPositions(entries)
    ensures forall i :: 0 <= i < |entries| ==> Rows(entries)[i].icon == RankIcon(i + 1)
  {
  }

  /** A one-entry board is read back as it is. */
  lemma SingleEntryRead(e: Entry)
    ensures TopEntries([e]) == [e]
  {
    var shown := TopEntries([e]);
    assert |shown| == 1;
    assert shown[0] in multiset(shown);
    assert multiset(shown) <= multiset([e]);
  }

  /** A durable read sorts by total but keeps each entry's stored rank, so a
      single entry registered with rank draw 6 tops the page labelled "#7". */
  lemma StaleRankShown()
    ensures var board := [Entry("Ada", "ada2025", 1200, 7)];
            var shown := HandleLeaderboard(DurableMode, Store([], [], board)).response.body.leaderboard;
            && shown == board
            && Rows(shown)[0].icon == "#7"
  {
    var e := Entry("Ada", "ada2025", 1200, 7);
    SingleEntryRead(e);
    assert NatToString(7) == "7";
    assert RankIcon(7) == "#7";
  }

  // ---------------------------------------------------------------------------
  // Fetching
  // ---------------------------------------------------------------------------

  /** The built-in list the page falls back to when the request fails. */
  const ClientFallback: seq<Entry> := [
    Entry("Sarah Johnson", "sarah2025", 15420, 1),
    Entry("Mike Chen", "mike2025", 12850, 2),
    Entry("Emily Davis", "emily2025", 11200, 3),
    Entry("Alex Rodriguez", "alex2025", 9850, 4),
    Entry("Jessica Kim", "jessica2025", 8750, 5),
    Entry("David Wilson", "david2025", 7650, 6),
    Entry("Lisa Thompson", "lisa2025", 6540, 7),
    Entry("Ryan Brown", "ryan2025", 5430, 8),
    Entry("Amanda Lee", "amanda2025", 4320, 9),
    Entry("Chris Martinez", "chris2025", 3210, 10)
  ]

  /** The fallback is the server's seed list, so it is ordered by total and
      its ranks match its positions: medals on the first three rows. */
  lemma ClientFallbackIsSeed()
    ensures ClientFallback == DemoLeaderboard
    ensures SortedDescending(ClientFallback) && RanksMatchPositions(ClientFallback)
    ensures Rows(ClientFallback)[0].icon == GoldMedal
    ensures Rows(ClientFallback)[2].icon == BronzeMedal
    ensures Rows(ClientFallback)[3].icon == "#4"
  {
    DemoLeaderboardConsistent();
    RowsFollowPositions(ClientFallback);
    assert NatToString(4) == "4";
  }

  /** What the HTTP client hands the page: a body with its `success` flag and
      list, or a thrown error (a non-2xx status or no answer at all). */
  datatype Fetch = Answered(success: bool, leaderboard: seq<Entry>) | Threw

  /** The list shown after a fetch: the server's list on success, the held
      list when the answer says it failed, the fallback when the call threw. */
  function ShownAfterFetch(held: seq<Entry>, f: Fetch): (shown: seq<Entry>)
    ensures f.Threw? ==> shown == ClientFallback
    ensures f.Answered? && f.success ==> shown == f.leaderboard
    ensures f.Answered? && !f.success ==> shown == held
  {
    match f
    case Answered(success, list) => if success then list else held
    case Threw => ClientFallback
  }

  /** How a leaderboard response reaches the page: a 2xx answer arrives with
      `success: true`, an error status makes the client throw. */
  function Delivered(r: Response): (f: Fetch)
    requires r.Ok? ==> r.body.BoardBody?
    ensures r.Err? <==> f.Threw?
    ensures r.Ok? ==> f == Answered(true, r.body.leaderboard)
  {
    match r
    case Ok(b) => Answered(true, b.leaderboard)
    case Err(_, _) => Threw
  }

  /** Whatever was held, the page shows exactly what the server read returns;
      in demo mode that is the same list a failed request would show. */
  lemma PageShowsServerRead(mode: Mode, s: Store, held: seq<Entry>)
    ensures var r := HandleLeaderboard(mode, s).response;
            ShownAfterFetch(held, Delivered(r)) == r.body.leaderboard
    ensures mode == DemoMode ==>
              ShownAfterFetch(held, Delivered(HandleLeaderboard(mode, s).response))
                == ShownAfterFetch(held, Threw)
  {
    ClientFallbackIsSeed();
  }
}
