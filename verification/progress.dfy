/** The progress view: five achievement tiers with fixed thresholds, which of
    them a cumulative total unlocks (on the mountain hotspots and in the
    gallery), the goal percentage, and the text of the detail dialog a click
    opens. */
module Progress {
  import opened Common
  import opened Text

  datatype Tier = Bronze | Silver | Gold | Platinum | Diamond

  /** The tiers in display order. */
  const Achievements: seq<Tier> := [Bronze, Silver, Gold, Platinum, Diamond]

  function Threshold(t: Tier): nat {
    match t
    case Bronze => 0
    case Silver => 5000
    case Gold => 10000
    case Platinum => 15000
    case Diamond => 20000
  }

  function Level(t: Tier): string {
    match t
    case Bronze => "Bronze"
    case Silver => "Silver"
    case Gold => "Gold"
    case Platinum => "Platinum"
    case Diamond => "Diamond"
  }

  /** The fundraising goal the percentage is measured against. */
  const Goal: nat := 20000

  /** The `totalDonations` property, 0 when the caller leaves it out. */
  function TotalProp(prop: Option<int>): (total: int)
    ensures prop.Some? ==> total == prop.value
    ensures prop.None? ==> total == 0
  {
    prop.GetOr(0)
  }

  /** The unlock test both the hotspots and the gallery apply. */
  function Unlocked(total: int, t: Tier): (b: bool)
    ensures b ==> total >= 0
    ensures t == Bronze ==> (b <==> total >= 0)
    ensures total >= Goal ==> b
  {
    total >= Threshold(t)
  }

  // ---------------------------------------------------------------------------
  // The tier table
  // ---------------------------------------------------------------------------

  /** Thresholds step by 5000 from 0 and so are strictly ascending. */
  lemma ThresholdsAscending()
    ensures |Achievements| == 5
    ensures forall i :: 0 <= i < 5 ==> Threshold(Achievements[i]) == 5000 * i
    ensures forall i, j :: 0 <= i < j < 5 ==> Threshold(Achievements[i]) < Threshold(Achievements[j])
    ensures Threshold(Achievements[4]) == Goal
  {
    forall i | 0 <= i < 5
      ensures Threshold(Achievements[i]) == 5000 * i
    {
      if i == 0 {} else if i == 1 {} else if i == 2 {} else if i == 3 {} else {}
    }
  }

  /** Every tier appears in the table exactly once. */
  lemma TiersListedOnce(t: Tier)
    ensures exists i :: 0 <= i < 5 && Achievements[i] == t
    ensures forall i, j :: 0 <= i < j < 5 ==> Achievements[i] != Achievements[j]
  {
    match t
    case Bronze => assert Achievements[0] == t;
    case Silver => assert Achievements[1] == t;
    case Gold => assert Achievements[2] == t;
    case Platinum => assert Achievements[3] == t;
    case Diamond => assert Achievements[4] == t;
  }

  // ---------------------------------------------------------------------------
  // Unlocked tiers
  // ---------------------------------------------------------------------------

  /** A mountain hotspot: its tier and whether it shows as unlocked. */
  datatype Hotspot = Hotspot(tier: Tier, unlocked: bool)

  function MountainHotspots(total: int): (hs: seq<Hotspot>)
    ensures |hs| == |Achievements|
    ensures forall i :: 0 <= i < |hs| ==> hs[i].tier == Achievements[i]
  {
    seq(|Achievements|, i requires 0 <= i < |Achievements| =>
      Hotspot(Achievements[i], Unlocked(total, Achievements[i])))
  }

  /** A gallery card: its tier and whether it is drawn in colour. */
  datatype Card = Card(tier: Tier, lit: bool)

  function GalleryCards(total: int): (cs: seq<Card>)
    ensures |cs| == |Achievements|
    ensures forall i :: 0 <= i < |cs| ==> cs[i].tier == Achievements[i]
  {
    seq(|Achievements|, i requires 0 <= i < |Achievements| =>
      Card(Achievements[i], total >= Threshold(Achievements[i])))
  }

  /** The set of tiers a total unlocks. */
  function UnlockedTiers(total: int): set<Tier> {
    set i | 0 <= i < |Achievements| && Unlocked(total, Achievements[i]) :: Achievements[i]
  }

  /** How many tiers a total unlocks, in closed form: none below zero, then
      one more for every full 5000, at most five. */
  function UnlockedCount(total: int): (n: nat)
    ensures n <= 5
  {
    if total < 0 then 0 else Min(5, total / 5000 + 1)
  }

  /** The hotspots shown unlocked are exactly the first UnlockedCount(total)
      ones, and the gallery lights exactly the same cards. */
  lemma UnlockedArePrefix(total: int)
    ensures forall i :: 0 <= i < 5 ==>
              (MountainHotspots(total)[i].unlocked <==> i < UnlockedCount(total))
    ensures forall i :: 0 <= i < 5 ==>
              GalleryCards(total)[i].lit == MountainHotspots(total)[i].unlocked
  {
    ThresholdsAscending();
    forall i | 0 <= i < 5
      ensures MountainHotspots(total)[i].unlocked <==> i < UnlockedCount(total)
    {
      assert MountainHotspots(total)[i].unlocked <==> total >= 5000 * i;
      if total >= 0 {
        DivBound(total, i);
      }
    }
  }

  /** k * 5000 <= t exactly when k <= t / 5000. */
  lemma DivBound(t: nat, k: nat)
    ensures 5000 * k <= t <==> k < t / 5000 + 1
  {
    var q := t / 5000;
    var r := t % 5000;
    assert t == 5000 * q + r && 0 <= r < 5000;
    if k <= q {
      assert 5000 * k <= 5000 * q;
    } else {
      assert 5000 * k >= 5000 * (q + 1);
    }
  }

  /** Raising the total never locks a tier. */
  lemma UnlockedMonotone(a: int, b: int)
    requires a <= b
    ensures UnlockedTiers(a) <= UnlockedTiers(b)
    ensures UnlockedCount(a) <= UnlockedCount(b)
  {
    if a >= 0 {
      assert a / 5000 <= b / 5000;
    }
  }

  /** Bronze needs only a non-negative total; a negative total unlocks
      nothing and a total of at least the goal unlocks every tier. */
  lemma UnlockedEdges(total: int)
    ensures Bronze in UnlockedTiers(total) <==> total >= 0
    ensures total < 0 ==> UnlockedTiers(total) == {}
    ensures total >= Goal ==> UnlockedTiers(total) == {Bronze, Silver, Gold, Platinum, Diamond}
  {
    if total >= 0 {
      assert Achievements[0] == Bronze;
    }
    if total >= Goal {
      assert Achievements[1] == Silver && Achievements[2] == Gold;
      assert Achievements[3] == Platinum && Achievements[4] == Diamond;
    }
  }

  // ---------------------------------------------------------------------------
  // Goal percentage
  // ---------------------------------------------------------------------------

  /** `min(total / 20000 * 100, 100)`, over the reals; not clamped below. */
  function Percentage(total: int): (p: real)
    ensures p <= 100.0
    ensures total >= Goal ==> p == 100.0
    ensures total < Goal ==> p == total as real / 200.0
  {
    var raw := total as real / Goal as real * 100.0;
    if raw <= 100.0 then raw else 100.0
  }

  lemma PercentageFacts(total: int)
    ensures Percentage(total) <= 100.0
    ensures Percentage(total) == 100.0 <==> total >= Goal
    ensures total < Goal ==> Percentage(total) == total as real / 200.0
    ensures Percentage(total) < 0.0 <==> total < 0
  {
  }

  lemma PercentageMonotone(a: int, b: int)
    requires a <= b
    ensures Percentage(a) <= Percentage(b)
  {
  }

  // ---------------------------------------------------------------------------
  // The detail dialog
  // ---------------------------------------------------------------------------

  /** What a click hands to the dialog: the tier, and the `unlocked` flag when
      the clicked object carries one. */
  datatype Selection = Selection(tier: Tier, unlocked: Option<bool>)

  /** Clicking a mountain hotspot passes the hotspot itself, flag included. */
  function SelectHotspot(h: Hotspot): (sel: Selection)
    ensures sel.tier == h.tier
    ensures DialogFor(sel).Congratulate? <==> h.unlocked
  {
    Selection(h.tier, Some(h.unlocked))
  }

  /** Clicking a gallery card passes only the tier and its title; no flag. */
  function SelectCardAsWritten(c: Card): (sel: Selection)
    ensures sel.tier == c.tier
    ensures DialogFor(sel).Prompt?
  {
    Selection(c.tier, None)
  }

  /** Clicking a gallery card with its lit state passed as the flag. */
  function SelectCardCorrected(c: Card): (sel: Selection)
    ensures sel.tier == c.tier
    ensures DialogFor(sel).Congratulate? <==> c.lit
  {
    Selection(c.tier, Some(c.lit))
  }

  datatype DialogText = Congratulate(tier: Tier) | Prompt(tier: Tier)

  /** The dialog congratulates only when the flag is present and true; an
      absent flag reads as false. */
  function DialogFor(sel: Selection): (d: DialogText)
    ensures d.tier == sel.tier
    ensures d.Congratulate? <==> sel.unlocked == Some(true)
  {
    if sel.unlocked == Some(true) then Congratulate(sel.tier) else Prompt(sel.tier)
  }

  /** Threshold amounts as `toLocaleString` renders them in English locales. */
  function FormattedThreshold(t: Tier): string {
    match t
    case Bronze => "0"
    case Silver => "5,000"
    case Gold => "10,000"
    case Platinum => "15,000"
    case Diamond => "20,000"
  }

  /** The dialog's sentence: a congratulation names the level, a prompt does
      not; both quote the formatted threshold. */
  function Render(d: DialogText): string {
    match d
    case Congratulate(t) =>
      "Congratulations! You've unlocked the " + Level(t) + " achievement by raising $"
        + FormattedThreshold(t) + "."
    case Prompt(t) => "Raise $" + FormattedThreshold(t) + " to unlock this achievement."
  }

  /** A congratulation and a prompt open differently, so the two never read
      alike. */
  lemma RenderLeads(d: DialogText)
    ensures d.Congratulate? ==> "Congratulations!" <= Render(d)
    ensures d.Prompt? ==> "Raise $" <= Render(d)
    ensures d.Congratulate? ==> Render(d) != Render(Prompt(d.tier))
  {
  }

  /** On the mountain, the dialog congratulates exactly for unlocked tiers. */
  lemma HotspotDialogMatchesUnlock(total: int, i: nat)
    requires i < 5
    ensures var d := DialogFor(SelectHotspot(MountainHotspots(total)[i]));
            d.Congratulate? <==> Unlocked(total, Achievements[i])
  {
  }

  /** In the gallery as written, the dialog never congratulates, even for a
      card drawn as unlocked. */
  lemma GalleryDialogNeverCongratulates(total: int, i: nat)
    requires i < 5
    ensures DialogFor(SelectCardAsWritten(GalleryCards(total)[i])).Prompt?
  {
  }

  /** With a total of 3450, the Bronze card is lit, yet its dialog asks the
      user to raise $0. */
  lemma GalleryBronzeCounterexample()
    ensures GalleryCards(3450)[0].lit
    ensures Render(DialogFor(SelectCardAsWritten(GalleryCards(3450)[0])))
              == "Raise $0 to unlock this achievement."
  {
    var c := GalleryCards(3450)[0];
    assert c == Card(Bronze, true);
    assert DialogFor(SelectCardAsWritten(c)) == Prompt(Bronze);
    BronzePromptText();
  }

  lemma BronzePromptText()
    ensures Render(Prompt(Bronze)) == "Raise $0 to unlock this achievement."
  {
    assert FormattedThreshold(Bronze) == "0";
  }

  /** With the flag passed, the gallery dialog agrees with the mountain's. */
  lemma GalleryDialogCorrected(total: int, i: nat)
    requires i < 5
    ensures DialogFor(SelectCardCorrected(GalleryCards(total)[i]))
              == DialogFor(SelectHotspot(MountainHotspots(total)[i]))
    ensures var d := DialogFor(SelectCardCorrected(GalleryCards(total)[i]));
            d.Congratulate? <==> Unlocked(total, Achievements[i])
  {
  }
}
