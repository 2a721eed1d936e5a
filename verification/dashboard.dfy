/** The dashboard's client-side logic: the gate that decides whether a typed
    donation amount is sent at all and which integer is sent, what the form
    shows after the server answers, which data object the page displays, and
    which reward list it renders. */
module DashboardView {
  import opened Common
  import opened Text
  import opened Records
  import opened Ledger
  import Progress
  import LedgerFacts

  // ---------------------------------------------------------------------------
  // Number(s): the conversion `donationAmount <= 0` applies to a string
  // ---------------------------------------------------------------------------

  /** 10^e as a real, for a possibly negative exponent. */
  function Scale(e: int): (r: real)
    ensures r > 0.0
  {
    if e >= 0 then Pow10(e) as real else 1.0 / Pow10(-e) as real
  }

  /** An optional `e`/`E` exponent with an optional sign; `None` when the
      text is not exactly that. */
  function ParseExponent(t: string): Option<int> {
    if |t| == 0 then Some(0)
    else if t[0] != 'e' && t[0] != 'E' then None
    else
      var body := t[1..];
      var negative := |body| > 0 && body[0] == '-';
      var digits := if |body| > 0 && (body[0] == '-' || body[0] == '+') then body[1..] else body;
      if |digits| == 0 || !AllDigits(digits) then None
      else
        var v: int := DigitsValue(digits);
        Some(if negative then -v else v)
  }

  /** A literal cut into its digits before the point, its digits after the
      point, and whatever follows them. */
  datatype Parts = Parts(whole: string, fraction: string, tail: string)

  function SplitMantissa(t: string): (p: Parts)
    ensures AllDigits(p.whole) && AllDigits(p.fraction)
  {
    var whole := DigitPrefix(t);
    var rest := t[|whole|..];
    if |rest| > 0 && rest[0] == '.' then
      var fraction := DigitPrefix(rest[1..]);
      Parts(whole, fraction, rest[1 + |fraction|..])
    else Parts(whole, [], rest)
  }

  /** The value of `whole.fraction`. */
  function MantissaValue(whole: string, fraction: string): real
    requires AllDigits(whole) && AllDigits(fraction)
  {
    DigitsValue(whole) as real + DigitsValue(fraction) as real / Pow10(|fraction|) as real
  }

  /** m * 10^e. */
  function Scaled(m: real, e: int): real {
    m * Scale(e)
  }

  /** An unsigned decimal literal: digits, an optional fraction, an optional
      exponent, with at least one digit before the exponent. */
  function ParseUnsignedDecimal(t: string): (r: Option<real>)
  {
    var p := SplitMantissa(t);
    if |p.whole| + |p.fraction| == 0 then None
    else
      match ParseExponent(p.tail)
      case None => None
      case Some(e) => Some(Scaled(MantissaValue(p.whole, p.fraction), e))
  }

  /** `Number(s)`: surrounding whitespace ignored, blank is 0, an optional sign
      before a decimal literal; anything else is NaN (`None`). */
  function Number(s: string): Option<real> {
    NumberOfTrimmed(TrimEnd(TrimStart(s)))
  }

  /** Blank text is worth 0. */
  lemma NumberOfBlank(s: string)
    requires TrimEnd(TrimStart(s)) == []
    ensures Number(s) == Some(0.0)
  {
  }

  /** Apart from blank input, `Number` yields a value only for text that
      starts, after the whitespace, with a sign, a digit or a point. */
  lemma NumberNeedsNumeral(s: string)
    requires Number(s).Some?
    ensures var t := TrimEnd(TrimStart(s));
            t == [] || t[0] == '-' || t[0] == '+' || t[0] == '.' || IsDigit(t[0])
  {
    var t := TrimEnd(TrimStart(s));
    if t != [] && t[0] != '-' && t[0] != '+' {
      assert ParseUnsignedDecimal(t).Some?;
      UnsignedNeedsNumeral(t);
    }
  }

  /** An unsigned literal starts with a digit or a point. */
  lemma UnsignedNeedsNumeral(t: string)
    requires ParseUnsignedDecimal(t).Some?
    ensures |t| > 0 && (IsDigit(t[0]) || t[0] == '.')
  {
    var p := SplitMantissa(t);
    if |p.whole| == 0 {
      assert t[|p.whole|..] == t;
    }
  }

  function NumberOfTrimmed(t: string): Option<real> {
    if |t| == 0 then Some(0.0)
    else if t[0] == '-' then
      match ParseUnsignedDecimal(t[1..])
      case None => None
      case Some(v) => Some(-v)
    else if t[0] == '+' then ParseUnsignedDecimal(t[1..])
    else ParseUnsignedDecimal(t)
  }

  // ---------------------------------------------------------------------------
  // The submit gate
  // ---------------------------------------------------------------------------

  const InvalidAmountMessage: string := "Please enter a valid amount"
  const SuccessMessage: string := "Donation added successfully!"
  const FailureMessage: string := "Error adding donation. Please try again."

  /** What pressing "Add Donation" does: nothing is sent and a message is
      shown, or a PUT carries `parseInt(input)` (`None` is NaN, sent as null). */
  datatype Submission = Rejected(message: string) | Put(amount: Option<int>)

  /** `!input || input <= 0`: an empty string, or a string whose numeric value
      is at most zero, is refused. A comparison with NaN is false, so a
      non-numeric string passes. */
  predicate Refused(input: string) {
    input == [] || (Number(input).Some? && Number(input).value <= 0.0)
  }

  function Submit(input: string): (r: Submission)
    ensures r.Rejected? ==> r.message == InvalidAmountMessage
    ensures input == [] ==> r.Rejected?
    ensures Number(input).Some? && Number(input).value <= 0.0 ==> r.Rejected?
    ensures r.Put? ==> r.amount == ParseInt(input)
    ensures r.Rejected? <==> Refused(input)
    ensures !Refused(input) ==> r == Put(ParseInt(input))
  {
    if Refused(input) then Rejected(InvalidAmountMessage) else Put(ParseInt(input))
  }

  /** A plain decimal: digits, optionally a point and more digits. */
  predicate PlainDecimal(whole: string, fraction: string) {
    |whole| > 0 && AllDigits(whole) && AllDigits(fraction)
  }

  function Join(whole: string, fraction: string): string {
    if |fraction| == 0 then whole else whole + "." + fraction
  }

  lemma TrimmedAlready(s: string)
    requires |s| > 0 && !IsSpace(s[0]) && !IsSpace(s[|s| - 1])
    ensures TrimEnd(TrimStart(s)) == s
  {
    TrimStartNoSpace(s);
  }

  lemma SplitPlainDecimal(whole: string, fraction: string)
    requires PlainDecimal(whole, fraction)
    ensures SplitMantissa(Join(whole, fraction)) == Parts(whole, fraction, [])
  {
    var s := Join(whole, fraction);
    if |fraction| == 0 {
      DigitPrefixOfDigits(whole, []);
      assert whole + [] == whole;
    } else {
      var rest := "." + fraction;
      assert s == whole + rest;
      DigitPrefixOfDigits(whole, rest);
      assert s[|whole|..] == rest;
      assert rest[1..] == fraction;
      DigitPrefixOfDigits(fraction, []);
      assert fraction + [] == fraction;
    }
  }

  /** A literal with no exponent is worth its mantissa. */
  lemma DecimalWithoutExponent(t: string, whole: string, fraction: string)
    requires SplitMantissa(t) == Parts(whole, fraction, []) && |whole| > 0
    ensures ParseUnsignedDecimal(t) == Some(MantissaValue(whole, fraction))
  {
    assert ParseExponent([]) == Some(0);
    assert Scale(0) == 1.0;
    var m := MantissaValue(whole, fraction);
    assert Scaled(m, 0) == m;
  }

  /** A trimmed string that starts with a digit is read as an unsigned literal. */
  lemma NumberOfDigitLed(t: string)
    requires |t| > 0 && IsDigit(t[0]) && !IsSpace(t[|t| - 1])
    ensures Number(t) == ParseUnsignedDecimal(t)
  {
    TrimmedAlready(t);
    assert Number(t) == NumberOfTrimmed(t);
  }

  lemma NumberOfPlainDecimal(whole: string, fraction: string)
    requires PlainDecimal(whole, fraction)
    ensures Number(Join(whole, fraction)) == Some(MantissaValue(whole, fraction))
  {
    var s := Join(whole, fraction);
    assert IsDigit(s[0]) && IsDigit(s[|s| - 1]);
    NumberOfDigitLed(s);
    SplitPlainDecimal(whole, fraction);
    DecimalWithoutExponent(s, whole, fraction);
  }

  lemma ParseIntOfPlainDecimal(whole: string, fraction: string)
    requires PlainDecimal(whole, fraction)
    ensures ParseInt(Join(whole, fraction)) == Some(DigitsValue(whole))
  {
    var s := Join(whole, fraction);
    TrimStartNoSpace(s);
    if |fraction| == 0 {
      DigitPrefixOfDigits(whole, []);
      assert whole + [] == whole;
    } else {
      DigitPrefixOfDigits(whole, "." + fraction);
      assert s == whole + ("." + fraction);
    }
  }

  /** For a plain decimal the gate lets through exactly the positive values,
      and what it sends is the value with its fraction cut off, so "0.5"
      passes and sends 0. */
  lemma {:induction false} GateOnPlainDecimal(whole: string, fraction: string)
    requires PlainDecimal(whole, fraction)
    ensures var v := MantissaValue(whole, fraction);
            && (Submit(Join(whole, fraction)).Put? <==> v > 0.0)
            && (Submit(Join(whole, fraction)).Put? ==>
                  Submit(Join(whole, fraction)).amount == Some(DigitsValue(whole))
                  && DigitsValue(whole) as real <= v < DigitsValue(whole) as real + 1.0)
  {
    var s := Join(whole, fraction);
    var v := MantissaValue(whole, fraction);
    NumberOfPlainDecimal(whole, fraction);
    ParseIntOfPlainDecimal(whole, fraction);
    assert s != [];
    assert Refused(s) <==> v <= 0.0;
    MantissaBounds(whole, fraction);
  }

  /** A mantissa lies between its whole part and the next integer. */
  lemma MantissaBounds(whole: string, fraction: string)
    requires AllDigits(whole) && AllDigits(fraction)
    ensures var d := DigitsValue(whole) as real;
            d <= MantissaValue(whole, fraction) < d + 1.0
  {
    DigitsValueBound(fraction);
    FractionBelowOne(DigitsValue(fraction), Pow10(|fraction|));
  }

  lemma FractionBelowOne(d: nat, p: nat)
    requires d < p
    ensures 0.0 <= d as real / p as real < 1.0
  {
  }

  /** "0.5" passes the gate and sends 0. */
  lemma GateOnHalf()
    ensures Submit("0.5") == Put(Some(0))
  {
    NumberOfHalf();
    ParseIntOfHalf();
    SubmitOfPositive("0.5", 0.5, 0);
  }

  /** An input worth a positive number is sent as its `parseInt`. */
  lemma SubmitOfPositive(input: string, v: real, n: int)
    requires Number(input) == Some(v) && v > 0.0 && ParseInt(input) == Some(n)
    ensures Submit(input) == Put(Some(n))
  {
  }

  lemma NumberOfHalf()
    ensures Number("0.5") == Some(0.5)
  {
    NumberOfPlainDecimal("0", "5");
    assert Join("0", "5") == "0.5";
    HalfIsHalf();
  }

  lemma ParseIntOfHalf()
    ensures ParseInt("0.5") == Some(0)
  {
    ParseIntOfPlainDecimal("0", "5");
    assert Join("0", "5") == "0.5";
    assert DigitsValue("0") == 0;
  }

  lemma HalfIsHalf()
    ensures MantissaValue("0", "5") == 0.5
  {
    assert DigitsValue("0") == 0;
    assert DigitsValue("5") == 5;
    assert Pow10(1) == 10;
  }

  /** "0" is refused. */
  lemma GateOnZero()
    ensures Submit("0") == Rejected(InvalidAmountMessage)
  {
    NumberOfZero();
  }

  lemma NumberOfZero()
    ensures Number("0") == Some(0.0)
  {
    NumberOfPlainDecimal("0", "");
    assert Join("0", "") == "0";
    WholeMantissa("0");
    assert DigitsValue("0") == 0;
  }

  /** A mantissa with no fraction digits is worth its whole part. */
  lemma WholeMantissa(whole: string)
    requires AllDigits(whole)
    ensures MantissaValue(whole, []) == DigitsValue(whole) as real
  {
    assert Pow10(0) == 1;
    assert DigitsValue([]) == 0;
  }

  /** An exponent is read by `Number` but cut off by `parseInt`: "1e3" is
      worth 1000 to the gate and sends 1. */
  lemma GateOnExponent()
    ensures Number("1e3") == Some(1000.0)
    ensures Submit("1e3") == Put(Some(1))
  {
    NumberOfExponent();
    ParseIntOfExponent();
    SubmitOfPositive("1e3", 1000.0, 1);
  }

  lemma NumberOfExponent()
    ensures Number("1e3") == Some(1000.0)
  {
    NumberOfDigitLed("1e3");
    UnsignedOfExponent();
  }

  lemma UnsignedOfExponent()
    ensures ParseUnsignedDecimal("1e3") == Some(1000.0)
  {
    SplitOfExponent();
    ExponentThree();
    DecimalWithExponent("1e3", "1", [], "e3", 3);
    OneThousand();
  }

  lemma OneThousand()
    ensures Scaled(MantissaValue("1", []), 3) == 1000.0
  {
    WholeMantissa("1");
    assert DigitsValue("1") == 1;
    ExponentThree();
  }

  /** A literal with an exponent is worth its mantissa scaled by 10^e. */
  lemma DecimalWithExponent(t: string, whole: string, fraction: string, tail: string, e: int)
    requires SplitMantissa(t) == Parts(whole, fraction, tail) && |whole| > 0
    requires ParseExponent(tail) == Some(e)
    ensures ParseUnsignedDecimal(t) == Some(Scaled(MantissaValue(whole, fraction), e))
  {
  }

  lemma SplitOfExponent()
    ensures SplitMantissa("1e3") == Parts("1", [], "e3")
  {
    var s := "1e3";
    DigitPrefixOfDigits("1", "e3");
    assert s == "1" + "e3";
    assert s[1..] == "e3";
  }

  lemma ExponentThree()
    ensures ParseExponent("e3") == Some(3)
    ensures Scale(3) == 1000.0
  {
    assert "e3"[1..] == "3";
    assert DigitsValue("3") == 3;
    assert Pow10(3) == 1000;
  }

  lemma ParseIntOfExponent()
    ensures ParseInt("1e3") == Some(1)
  {
    var s := "1e3";
    TrimStartNoSpace(s);
    DigitPrefixOfDigits("1", "e3");
    assert s == "1" + "e3";
    assert ParseSigned(s) == ParseUnsigned(s);
    assert DigitsValue("1") == 1;
  }

  /** A negative number is refused. */
  lemma GateOnNegative()
    ensures Number("-5") == Some(-5.0)
    ensures Submit("-5") == Rejected(InvalidAmountMessage)
  {
    NumberOfMinusFive();
    SubmitOfNonPositive("-5", -5.0);
  }

  /** An input worth zero or less is refused. */
  lemma SubmitOfNonPositive(input: string, v: real)
    requires Number(input) == Some(v) && v <= 0.0
    ensures Submit(input) == Rejected(InvalidAmountMessage)
  {
  }

  /** The empty input is refused before any conversion, although `Number`
      reads it as 0. */
  lemma GateOnEmpty()
    ensures Number("") == Some(0.0)
    ensures Submit("") == Rejected(InvalidAmountMessage)
  {
  }

  lemma NumberOfMinusFive()
    ensures Number("-5") == Some(-5.0)
  {
    var s := "-5";
    TrimmedAlready(s);
    assert Number(s) == NumberOfTrimmed(s);
    assert s[1..] == "5";
    NumberOfDigitLed("5");
    assert Join("5", "") == "5";
    SplitPlainDecimal("5", "");
    DecimalWithoutExponent("5", "5", "");
    assert MantissaValue("5", "") == 5.0 by {
      assert DigitsValue("5") == 5;
    }
  }

  /** The gate with one conversion: the value it checks is the value it
      sends, and only a positive whole number goes out. */
  function SubmitCorrected(input: string): (r: Submission)
    ensures r.Put? ==> && r.amount.Some? && r.amount.value > 0
                       && Number(input) == Some(r.amount.value as real)
    ensures r.Rejected? ==> r.message == InvalidAmountMessage
    ensures (Number(input).Some? && Number(input).value > 0.0
             && Number(input).value == Number(input).value.Floor as real) ==> r.Put?
    ensures Refused(input) ==> r.Rejected?
  {
    match Number(input)
    case Some(v) =>
      if v > 0.0 && v == v.Floor as real then Put(Some(v.Floor)) else Rejected(InvalidAmountMessage)
    case None => Rejected(InvalidAmountMessage)
  }

  /** Corrected, "1e3" sends the 1000 the gate checked. */
  lemma CorrectedGateOnExponent()
    ensures SubmitCorrected("1e3") == Put(Some(1000))
  {
    NumberOfExponent();
    CorrectedOfWhole("1e3", 1000);
  }

  /** Corrected, "0.5" is refused. */
  lemma CorrectedGateRefusesHalf()
    ensures SubmitCorrected("0.5") == Rejected(InvalidAmountMessage)
  {
    NumberOfHalf();
    CorrectedOfFraction("0.5", 0.5);
  }

  /** An input worth a positive whole number is sent as that number. */
  lemma CorrectedOfWhole(input: string, n: int)
    requires Number(input) == Some(n as real) && n > 0
    ensures SubmitCorrected(input) == Put(Some(n))
  {
    assert (n as real).Floor == n;
  }

  /** An input worth a number with a fraction is refused. */
  lemma CorrectedOfFraction(input: string, v: real)
    requires Number(input) == Some(v) && v != v.Floor as real
    ensures SubmitCorrected(input) == Rejected(InvalidAmountMessage)
  {
  }

  /** On a plain positive whole number the two gates agree. */
  lemma CorrectedAgreesOnWholeNumbers(whole: string)
    requires PlainDecimal(whole, []) && DigitsValue(whole) > 0
    ensures SubmitCorrected(whole) == Submit(whole) == Put(Some(DigitsValue(whole)))
  {
    assert Join(whole, []) == whole;
    PositiveWholeIsSent(whole, []);
    NumberOfPlainDecimal(whole, []);
    var d := DigitsValue(whole);
    assert MantissaValue(whole, []) == d as real by {
      assert Pow10(0) == 1;
      assert DigitsValue([]) == 0;
    }
    assert (d as real).Floor == d;
  }

  // ---------------------------------------------------------------------------
  // After the server answers
  // ---------------------------------------------------------------------------

  /** The donation form: the typed text, the message under it, and whether a
      dashboard refetch was started. */
  datatype Form = Form(input: string, message: string, refetch: bool)

  /** A success clears the input, says so and refetches; an error status
      (thrown by the HTTP client) keeps the input and reports a failure. */
  function AfterPut(f: Form, r: Response): (g: Form)
    ensures r.Ok? ==> g == Form([], SuccessMessage, true)
    ensures r.Err? ==> g.input == f.input && g.message == FailureMessage && !g.refetch
  {
    match r
    case Ok(_) => Form([], SuccessMessage, true)
    case Err(_, _) => Form(f.input, FailureMessage, false)
  }

  // ---------------------------------------------------------------------------
  // What the page displays
  // ---------------------------------------------------------------------------

  /** The fields the page reads from either the stored login/register user or
      the fetched dashboard data. */
  datatype Profile = Profile(name: string, referralCode: string, totalDonations: Option<int>,
                             rewards: Option<seq<string>>)

  function ProfileOf(b: Body): Option<Profile> {
    match b
    case UserBody(name, _, code, total, rewards) => Some(Profile(name, code, Some(total), rewards))
    case DashboardBody(name, code, total, rewards) => Some(Profile(name, code, Some(total), rewards))
    case BoardBody(_) => None
    case TotalBody(_) => None
  }

  /** The fetched dashboard data replaces the held copy on success; a failed
      fetch leaves it as it was. */
  function AfterFetch(held: Option<Profile>, r: Response): (h: Option<Profile>)
    ensures r.Err? ==> h == held
    ensures r.Ok? && ProfileOf(r.body).Some? ==> h == ProfileOf(r.body)
    ensures r.Ok? && ProfileOf(r.body).None? ==> h == held
  {
    match r
    case Ok(b) => if ProfileOf(b).Some? then ProfileOf(b) else held
    case Err(_, _) => held
  }

  /** `dashboardData || user`. */
  function Displayed(fetched: Option<Profile>, stored: Profile): (p: Profile)
    ensures fetched.Some? ==> p == fetched.value
    ensures fetched.None? ==> p == stored
  {
    fetched.GetOr(stored)
  }

  /** The total handed to the progress view: `data.totalDonations || 0`. */
  function ProgressTotal(p: Profile): (t: int)
    ensures p.totalDonations.Some? ==> t == p.totalDonations.value
    ensures p.totalDonations.None? ==> t == 0
  {
    p.totalDonations.GetOr(0)
  }

  datatype RewardCard = RewardCard(title: string, status: string)

  /** The hard-coded list shown when the data object has no `rewards`. */
  const FallbackRewards: seq<RewardCard> := [
    RewardCard("Bronze Badge", "Unlocked!"),
    RewardCard("First Donation", "Unlocked!"),
    RewardCard("Silver Badge", "Locked (Need $5000)"),
    RewardCard("Gold Badge", "Locked (Need $10000)"),
    RewardCard("Platinum Badge", "Locked (Need $15000)"),
    RewardCard("Diamond Badge", "Locked (Need $20000)")
  ]

  /** `rewards?.map(...) || fallback`: a present array, even an empty one,
      is rendered as is with every label unlocked. */
  function RewardCards(rewards: Option<seq<string>>): (cs: seq<RewardCard>)
    ensures rewards.None? ==> cs == FallbackRewards
    ensures rewards.Some? ==> |cs| == |rewards.value|
    ensures rewards.Some? ==> forall i :: 0 <= i < |cs| ==>
              cs[i] == RewardCard(rewards.value[i], "Unlocked!")
  {
    match rewards
    case None => FallbackRewards
    case Some(rs) => seq(|rs|, i requires 0 <= i < |rs| => RewardCard(rs[i], "Unlocked!"))
  }

  /** The locked entries of the fallback list are the four tiers above
      Bronze, in the progress view's order, each quoting its threshold. */
  lemma FallbackMatchesTiers()
    ensures |FallbackRewards| == |Progress.Achievements| + 1
    ensures forall i :: 2 <= i < 6 ==> LockedItemNamesTier(i)
  {
    forall i | 2 <= i < 6
      ensures LockedItemNamesTier(i)
    {
      LockedItem(i);
    }
  }

  /** Fallback item i is the badge of tier i - 1, locked at its threshold. */
  predicate LockedItemNamesTier(i: int)
    requires 2 <= i < 6
  {
    var t := Progress.Achievements[i - 1];
    && FallbackRewards[i].title == Progress.Level(t) + " Badge"
    && FallbackRewards[i].status == "Locked (Need $" + NatToString(Progress.Threshold(t)) + ")"
  }

  lemma LockedItem(i: int)
    requires 2 <= i < 6
    ensures LockedItemNamesTier(i)
  {
    if i == 2 {
      SilverItem();
    } else if i == 3 {
      GoldItem();
    } else if i == 4 {
      PlatinumItem();
    } else {
      DiamondItem();
    }
  }

  lemma SilverItem()
    ensures LockedItemNamesTier(2)
  {
    ThresholdText(5000, "5000");
    LockedItemIs(2, Progress.Silver, "Silver", "5000");
  }

  lemma GoldItem()
    ensures LockedItemNamesTier(3)
  {
    ThresholdText(10000, "10000");
    LockedItemIs(3, Progress.Gold, "Gold", "10000");
  }

  lemma PlatinumItem()
    ensures LockedItemNamesTier(4)
  {
    ThresholdText(15000, "15000");
    LockedItemIs(4, Progress.Platinum, "Platinum", "15000");
  }

  lemma DiamondItem()
    ensures LockedItemNamesTier(5)
  {
    ThresholdText(20000, "20000");
    LockedItemIs(5, Progress.Diamond, "Diamond", "20000");
  }

  lemma LockedItemIs(i: int, t: Progress.Tier, level: string, text: string)
    requires 2 <= i < 6 && Progress.Achievements[i - 1] == t
    requires Progress.Level(t) == level && NatToString(Progress.Threshold(t)) == text
    requires FallbackRewards[i] == RewardCard(level + " Badge", "Locked (Need $" + text + ")")
    ensures LockedItemNamesTier(i)
  {
  }

  lemma ThresholdText(n: nat, text: string)
    requires n in {5000, 10000, 15000, 20000}
    requires text == (if n == 5000 then "5000" else if n == 10000 then "10000"
                      else if n == 15000 then "15000" else "20000")
    ensures NatToString(n) == text
  {
  }

  /** An empty array renders no reward at all, not the fallback. */
  lemma EmptyRewardsRenderNothing()
    ensures RewardCards(Some([])) == []
    ensures |RewardCards(None)| == 6
  {
  }

  // ---------------------------------------------------------------------------
  // Loading
  // ---------------------------------------------------------------------------

  /** The page's fetch state: `loading` until a fetch settles, and the
      fetched dashboard data, if any. */
  datatype Page = Page(loading: bool, data: Option<Profile>)

  /** As the page mounts: loading, with nothing fetched yet. */
  const MountedPage: Page := Page(true, None)

  /** A fetch settles: whatever the answer, loading ends; the data is what
      AfterFetch keeps. */
  function Settle(p: Page, r: Response): (q: Page)
    ensures !q.loading
    ensures r.Err? ==> q.data == p.data
    ensures r.Ok? && ProfileOf(r.body).Some? ==> q.data == ProfileOf(r.body)
  {
    Page(false, AfterFetch(p.data, r))
  }

  datatype Screen = LoadingScreen | Content(profile: Profile)

  /** "Loading dashboard..." while loading, otherwise the page built from
      `dashboardData || user`. */
  function View(p: Page, stored: Profile): (v: Screen)
    ensures v.LoadingScreen? <==> p.loading
    ensures v.Content? ==> v.profile == Displayed(p.data, stored)
  {
    if p.loading then LoadingScreen else Content(Displayed(p.data, stored))
  }

  /** Nothing but the loading screen shows before the first fetch settles;
      after it the page always has content, which is the stored user when
      that fetch failed. */
  lemma LoadingUntilFirstFetch(stored: Profile, r: Response)
    ensures View(MountedPage, stored) == LoadingScreen
    ensures View(Settle(MountedPage, r), stored).Content?
    ensures r.Err? ==> View(Settle(MountedPage, r), stored) == Content(stored)
  {
  }

  // ---------------------------------------------------------------------------
  // End to end
  // ---------------------------------------------------------------------------

  /** A durable registration's response carries no `rewards`. The page shows
      the loading screen first; if the first dashboard fetch fails it shows
      the fallback list, and if it succeeds the two starter badges. */
  lemma DurableNewcomerRewards(s: Store, name: string, email: string, password: string, draws: Draws,
                               failed: Response)
    requires ValidDraws(draws)
    requires name != [] && email != [] && password != []
    requires FindByEmail(s.users, email).None?
    requires failed.Err?
    ensures var o := HandleRegister(DurableMode, s, name, email, password, draws);
            var stored := ProfileOf(o.response.body).value;
            && View(MountedPage, stored) == LoadingScreen
            && RewardCards(View(Settle(MountedPage, failed), stored).profile.rewards) == FallbackRewards
            && var fetched := Settle(MountedPage, HandleDashboard(DurableMode, o.store, email).response);
               RewardCards(View(fetched, stored).profile.rewards)
                 == [RewardCard("Bronze Badge", "Unlocked!"), RewardCard("First Donation", "Unlocked!")]
  {
    var o := HandleRegister(DurableMode, s, name, email, password, draws);
    FindByEmailIs(o.store.users, email, |s.users|);
  }

  /** A plain decimal with a positive whole part passes the gate and sends
      that whole part. */
  lemma PositiveWholeIsSent(whole: string, fraction: string)
    requires PlainDecimal(whole, fraction) && DigitsValue(whole) > 0
    ensures Submit(Join(whole, fraction)) == Put(Some(DigitsValue(whole)))
  {
    GateOnPlainDecimal(whole, fraction);
    MantissaBounds(whole, fraction);
  }

  /** A successful PUT for a known email clears the form, and the refetched
      dashboard hands the progress view the old total plus the amount. */
  lemma {:induction false} DonateThenRefetch(mode: Mode, s: Store, email: string, k: nat,
                                             amount: int, f: Form)
    requires k < |Accounts(mode, s)| && Accounts(mode, s)[k].email == email
    requires forall j :: 0 <= j < k ==> Accounts(mode, s)[j].email != email
    ensures var o := HandleDonate(mode, s, email, amount);
            var u := Accounts(mode, s)[k];
            && AfterPut(f, o.response) == Form([], SuccessMessage, true)
            && var shown := Displayed(AfterFetch(None, HandleDashboard(mode, o.store, email).response),
                                      Profile(u.name, u.referralCode, None, None));
               ProgressTotal(shown) == u.totalDonations + amount
  {
    var u := Accounts(mode, s)[k];
    var total := u.totalDonations + amount;
    LedgerFacts.DonateThenDashboard(mode, s, email, amount, k);
    var o := HandleDonate(mode, s, email, amount);
    var r := HandleDashboard(mode, o.store, email).response;
    assert r == Ok(DashboardBody(u.name, u.referralCode, total, Some(u.rewards)));
    assert AfterFetch(None, r) == Some(Profile(u.name, u.referralCode, Some(total), Some(u.rewards)));
  }

  /** Typing a plain positive decimal for a known email: the PUT carries the
      whole part, the server adds it, the form clears, and the refetched
      dashboard shows the old total plus the whole part. */
  lemma {:induction false} SubmitThenRefetch(mode: Mode, s: Store, email: string, k: nat,
                                             whole: string, fraction: string, f: Form)
    requires k < |Accounts(mode, s)| && Accounts(mode, s)[k].email == email
    requires forall j :: 0 <= j < k ==> Accounts(mode, s)[j].email != email
    requires PlainDecimal(whole, fraction) && DigitsValue(whole) > 0
    ensures Submit(Join(whole, fraction)) == Put(Some(DigitsValue(whole)))
    ensures var o := HandleDonate(mode, s, email, DigitsValue(whole));
            var u := Accounts(mode, s)[k];
            && AfterPut(f, o.response) == Form([], SuccessMessage, true)
            && var shown := Displayed(AfterFetch(None, HandleDashboard(mode, o.store, email).response),
                                      Profile(u.name, u.referralCode, None, None));
               ProgressTotal(shown) == u.totalDonations + DigitsValue(whole)
  {
    PositiveWholeIsSent(whole, fraction);
    DonateThenRefetch(mode, s, email, k, DigitsValue(whole), f);
  }
}
