/** The durable leaderboard query: every entry, ordered by total with the
    highest first, cut to the first ten. The stored `rank` is carried along
    untouched; only the order changes. */
module Standings {
  import opened Common
  import opened Records

  /** How many entries a leaderboard read returns at most. */
  const PageSize: nat := 10

  /** Places `e` into a list already ordered highest total first. */
  function Insert(e: Entry, s: seq<Entry>): (r: seq<Entry>)
    requires SortedDescending(s)
    ensures SortedDescending(r)
    ensures multiset(r) == multiset(s) + multiset{e}
    ensures |r| == |s| + 1
    ensures r[0] == e || (|s| > 0 && r[0] == s[0])
  {
    if |s| == 0 then [e]
    else if e.totalDonations >= s[0].totalDonations then [e] + s
    else
      var rest := Insert(e, s[1..]);
      assert s == [s[0]] + s[1..];
      assert forall j :: 0 <= j < |rest| ==> rest[j].totalDonations <= rest[0].totalDonations;
      [s[0]] + rest
  }

  /** Orders entries by total, highest first. */
  function SortDescending(s: seq<Entry>): (r: seq<Entry>)
    ensures SortedDescending(r)
    ensures multiset(r) == multiset(s)
    ensures |r| == |s|
  {
    if |s| == 0 then []
    else
      assert s == [s[0]] + s[1..];
      Insert(s[0], SortDescending(s[1..]))
  }

  /** The first n entries of an ordered list are ordered, come from the list,
      and are at least as high as everything they leave out. */
  lemma PrefixDominates(sorted: seq<Entry>, n: nat)
    requires SortedDescending(sorted) && n <= |sorted|
    ensures SortedDescending(sorted[..n])
    ensures multiset(sorted[..n]) <= multiset(sorted)
    ensures forall e, i :: e in multiset(sorted) - multiset(sorted[..n]) && 0 <= i < n ==>
              sorted[..n][i].totalDonations >= e.totalDonations
  {
    var front, back := sorted[..n], sorted[n..];
    assert sorted == front + back;
    assert multiset(sorted) == multiset(front) + multiset(back);
    assert multiset(sorted) - multiset(front) == multiset(back);
    forall e, i | e in multiset(back) && 0 <= i < n
      ensures front[i].totalDonations >= e.totalDonations
    {
      assert e in back;
      var k :| 0 <= k < |back| && back[k] == e;
      assert sorted[n + k] == e && front[i] == sorted[i];
    }
  }

  /** The entries a durable leaderboard read returns. */
  function TopEntries(board: seq<Entry>): (r: seq<Entry>)
    ensures |r| == Min(PageSize, |board|)
    ensures SortedDescending(r)
    ensures multiset(r) <= multiset(board)
    // no entry left out has a higher total than any entry shown
    ensures forall e, i :: e in multiset(board) - multiset(r) && 0 <= i < |r| ==>
              r[i].totalDonations >= e.totalDonations
  {
    var sorted := SortDescending(board);
    var n := Min(PageSize, |board|);
    PrefixDominates(sorted, n);
    sorted[..n]
  }
}
