# RankRaise donation ledger, modelled in Dafny

RankRaise is a small fundraising tracker. Interns register, log in, record
donations and watch a leaderboard and a progress view. This project models
the parts of it that hold real logic:

- **The server's donation ledger** (`server.js`). Registration, login,
  dashboard lookup, donation and leaderboard read are pure transitions from
  a store and a request to a new store and a response (success, 400 or 404).
  Both storage modes are modelled, and the mode is a parameter. Each mode
  has its own part of the store, and a request touches only its own part:
  - In-memory "demo" mode keeps a list of accounts. Leaderboard reads answer
    from a fixed seed list.
  - Durable mode keeps accounts and leaderboard entries as two collections.
    It has a unique index on email, and the schema marks fields as required.

  The two random draws of a registration (seed total, rank) are inputs,
  bounded as `Math.floor(Math.random() * n)` bounds them.
- **The progress view** (`ProgressVisualization.js`): five tiers with fixed
  thresholds, which tiers a total unlocks on the mountain hotspots and in
  the gallery, the goal percentage, and the text of the detail dialog.
- **The dashboard** (`Dashboard.js`). This covers:
  - the gate that decides whether a typed amount is sent, and which integer
    is sent (JavaScript's `Number` and `parseInt` are modelled on strings);
  - the form after the server answers, and the loading screen shown until
    the first dashboard fetch settles;
  - the `dashboardData || user` fallback and the reward-list fallback.
- **The leaderboard page** (`Leaderboard.js`): rank icons, rows labelled by
  stored rank, and the built-in list shown when the request fails.

Modules: `Common` (options, first-match search), `Text` (ASCII lower-casing,
decimal digits, `parseInt`), `Records` (accounts, entries, seed data),
`Standings` (descending sort, top ten), `Ledger` (handlers),
`LedgerFacts` (properties across requests), `Progress`, `DashboardView`,
`LeaderboardView`.

The storage-mode flag starts in demo mode (`server.js:38`) and switches to
durable when the database connection succeeds (`server.js:46-49`), so early
requests are served in demo mode and later ones in durable mode. Each
request is modelled under the mode it is served in.

## Model

| member | source | states |
|---|---|---|
| Records.ReferralCode | server.js:85 | The code is the lower-cased name followed by "2025". Its length is the name's plus four, it starts with the ASCII lower-casing of the name and ends with "2025", and it holds no upper-case letter. |
| Text.ToLower | server.js:85 | Lower-casing keeps the length and maps each character by itself: an upper-case ASCII letter to its lower-case letter, everything else to itself. |
| Records.ReferralCodeIgnoresCase | server.js:85 | Two names equal up to ASCII case get the same referral code, so codes are not unique. |
| Records.DemoLeaderboardConsistent | server.js:25-36 | The seed leaderboard has ten entries, sorted by total descending, and each rank equals its position. |
| Text.ParseIntNaN | client/src/components/Dashboard.js:38 | `parseInt` is NaN exactly when no digit follows the leading whitespace and an optional sign. A negative result needs a leading minus sign. |
| Text.ParseIntOfIntToString | client/src/components/Leaderboard.js:42 | `parseInt` reads back any integer rendered in decimal. |
| Common.FindFirst | server.js:149 | The first-match search of `find`/`findOne`: a found index is in range and matches, no earlier element matches, and nothing is found exactly when no element matches. |
| Common.FindFirstIs | server.js:191 | An index that matches, with no match before it, is what the first-match search returns. |
| Ledger.FindByEmail | server.js:191 | The account lookup by email returns the first account with that email, or nothing exactly when no account has it. |
| Ledger.FindByEmailIs | server.js:175 | The first account carrying an email is the one the lookup finds. |
| Ledger.FindByCredentials | server.js:131 | Login lookup: the first account whose email and stored password both equal the request's, or nothing exactly when there is none. |
| Ledger.Message | server.js:121-177 | The failure messages: "Invalid credentials" and "User not found" belong to exactly one failure each, and no message is empty. |
| Ledger.HandleRegister | server.js:82-123 | On success: the referral code of the name, a total in 1000..5999, and the request's name and email. Demo mode: always succeeds and appends exactly one account with no password to the in-memory list; starter rewards are in the response, and nothing else in the store changes. Durable mode: succeeds exactly when name, email and password are non-empty and the email is unused among the durable accounts. On failure it answers 400 and changes nothing. On success it appends the account with its password and an entry with the same name, code and total and a rank in 1..10, leaves the in-memory list alone, and the response carries no rewards. |
| Ledger.HandleLogin | server.js:126-169 | The store is unchanged. Login looks only at the current mode's accounts. It succeeds exactly when one of them has both the email and the password, and answers with the first such account's name, email, code, total and rewards, never the password. Otherwise it answers 400 "Invalid credentials". |
| Ledger.HandleDashboard | server.js:172-209 | The store is unchanged. Looking only at the current mode's accounts, it answers 404 "User not found" exactly when none has the email. Otherwise it answers with the first such account's name, code, total and rewards. |
| Ledger.HandleLeaderboard | server.js:212-224 | The store is unchanged. Demo mode answers with the seed list verbatim. Durable mode answers with min(10, n) entries, sorted by total descending and drawn from the stored entries unaltered (stored rank included), each at least as high as every entry left out. |
| Standings.TopEntries | server.js:215 | `sort({totalDonations: -1}).limit(10)`: a sub-multiset of the board of length min(10, n), sorted descending, dominating every entry it leaves out. |
| Standings.SortDescending | server.js:215 | A permutation of the board, sorted by total descending. |
| Standings.PrefixDominates | server.js:215 | The first n entries of a descending list are sorted, are drawn from it, and are at least as high as every later entry. |
| Ledger.SyncEntry | server.js:241-244 | Only the first entry with the referral code gets the new total. With no such entry the board comes back unchanged and no error is raised. |
| Ledger.HandleDonate | server.js:227-261 | Unknown email among the current mode's accounts: 404 and the store is unchanged. Known email: only the first such account changes, its total grows by the amount whatever its sign, and the response carries the new total. Demo mode leaves the durable collections alone; durable mode leaves the in-memory list alone and syncs the board by referral code. |
| Ledger.Handle | server.js:87 | One request under the current mode. A demo-mode request leaves the durable collections unchanged, and a durable-mode request leaves the in-memory list unchanged. Reads change nothing. |
| LedgerFacts.DonateThenDashboard | server.js:232-246 | After a donation, a dashboard read for the same email shows the old total plus the amount, with name, code and rewards unchanged. |
| LedgerFacts.DonationAmountUnchecked | server.js:238 | A negative amount succeeds and lowers the total. A zero amount succeeds and leaves the accounts as they were. |
| LedgerFacts.DemoRegisterAllowsDuplicateEmail | server.js:110-118 | Demo registration with a taken email succeeds and leaves two accounts with that email. |
| LedgerFacts.DurableRegisterRejectsDuplicateEmail | server.js:57-60 | Durable registration with a taken email answers 400 and leaves the store unchanged. |
| LedgerFacts.DemoRegisterInvisibleToLogin | server.js:110-117 | A demo registration stores no password, so every later demo login with a string password answers exactly as it would have without it. |
| LedgerFacts.DemoBoardIsFixed | server.js:217-219 | In demo mode no request touches the board, and a leaderboard read always answers with the seed list, so new accounts and donations never appear on it. |
| LedgerFacts.ModesAreIsolated | server.js:87-108 | Two stores that agree on one mode's part give the same answer to every request in that mode and agree on that part afterwards. What the other mode holds never shows. |
| LedgerFacts.SeparateAccountStores | server.js:97 | An email registered in demo mode is still free for a durable registration, and the seeded demo account cannot log in to the durable store. |
| LedgerFacts.DurableKeepsEmailsUnique | server.js:59 | Every durable request keeps account emails pairwise distinct. |
| LedgerFacts.UniqueEmailLogin | server.js:131-146 | With unique emails, a login with an account's email and password returns exactly that account. |
| LedgerFacts.DurableDonateKeepsSync | server.js:238-244 | While referral codes are distinct, a durable donation keeps every leaderboard entry's total equal to its account's total. |
| LedgerFacts.DurableRegisterKeepsSync | server.js:97-105 | A durable registration under a fresh referral code keeps accounts and entries paired with equal totals. |
| LedgerFacts.ReferralCollisionMisdirectsSync | server.js:241-244 | Accounts "Ada" and "ADA" share a code, so a donation by the second account rewrites the first account's entry and leaves its own entry stale. |
| LedgerFacts.DemoLoginScenario | server.js:14-23 | The seeded demo account logs in with "password123" at total 3450. A wrong password gets 400 "Invalid credentials". |
| LedgerFacts.DemoDonationScenario | server.js:249-256 | Donating 500 to the demo account gives 3950. An unknown email gets 404 and changes nothing. |
| LedgerFacts.RegisterAdaScenario | server.js:85-95 | Registering "Ada" in either mode gives code "ada2025", a total in 1000..5999 and the two starter badges. |
| Progress.TotalProp | client/src/components/ProgressVisualization.js:4 | The total defaults to 0 when the prop is absent and is the prop otherwise. |
| Progress.Percentage | client/src/components/ProgressVisualization.js:9 | The percentage is at most 100, is 100 at or above the goal, and is total/200 below it. |
| Progress.ThresholdsAscending | client/src/components/ProgressVisualization.js:12-18 | There are five tiers with thresholds 0, 5000, 10000, 15000 and 20000. They are strictly ascending and the last is the goal. |
| Progress.TiersListedOnce | client/src/components/ProgressVisualization.js:12-18 | Every tier appears in the table exactly once. |
| Progress.Unlocked | client/src/components/ProgressVisualization.js:26 | An unlocked tier needs a non-negative total. Bronze is unlocked exactly for non-negative totals, and every tier is unlocked at the goal. |
| Progress.MountainHotspots | client/src/components/ProgressVisualization.js:21-27 | One hotspot per tier, in table order. |
| Progress.GalleryCards | client/src/components/ProgressVisualization.js:204-217 | One gallery card per tier, in table order. |
| Progress.UnlockedArePrefix | client/src/components/ProgressVisualization.js:26 | The hotspots shown unlocked are exactly the first UnlockedCount(total), in closed form. The gallery lights exactly the same tiers. |
| Progress.UnlockedMonotone | client/src/components/ProgressVisualization.js:26 | Raising the total never locks a tier: the unlocked set and count only grow. |
| Progress.UnlockedEdges | client/src/components/ProgressVisualization.js:13 | Bronze is unlocked exactly for non-negative totals. A negative total unlocks nothing, and a total at or above the goal unlocks all five tiers. |
| Progress.PercentageFacts | client/src/components/ProgressVisualization.js:9 | The percentage is never above 100, and is exactly 100 when the total reaches the goal. Below the goal it is total/200. It is negative exactly for negative totals, so it is not clamped below. |
| Progress.PercentageMonotone | client/src/components/ProgressVisualization.js:9 | The percentage is monotone in the total. |
| Progress.DialogFor | client/src/components/ProgressVisualization.js:264-266 | The dialog congratulates exactly when the selection carries a true `unlocked` flag. An absent flag means the "Raise $X" prompt. |
| Progress.SelectHotspot | client/src/components/ProgressVisualization.js:119 | A hotspot click keeps the tier and makes the dialog congratulate exactly when the hotspot is unlocked. |
| Progress.SelectCardAsWritten | client/src/components/ProgressVisualization.js:218 | A gallery click keeps the tier, but the dialog it opens always prompts. |
| Progress.SelectCardCorrected | client/src/components/ProgressVisualization.js:218 | Passing the lit state makes the dialog congratulate exactly for lit cards. |
| Progress.RenderLeads | client/src/components/ProgressVisualization.js:264-266 | The rendered dialog text: a congratulation starts with "Congratulations!" and a prompt starts with "Raise $", so for one tier the two never read alike. |
| Progress.HotspotDialogMatchesUnlock | client/src/components/ProgressVisualization.js:57-62 | A mountain hotspot click congratulates exactly when its tier is unlocked. |
| Progress.GalleryDialogNeverCongratulates | client/src/components/ProgressVisualization.js:218 | A gallery click, as written, never congratulates, even on a lit card. |
| Progress.GalleryBronzeCounterexample | client/src/components/ProgressVisualization.js:218 | At total 3450 the Bronze card is lit, yet its dialog reads "Raise $0 to unlock this achievement." |
| Progress.GalleryDialogCorrected | client/src/components/ProgressVisualization.js:218 | Passing the card's lit state makes the gallery dialog equal the mountain's, so it congratulates exactly for unlocked tiers. |
| DashboardView.Submit | client/src/components/Dashboard.js:31-39 | An input is refused with "Please enter a valid amount" exactly when it is empty or its numeric value is at most 0. Every other input, a non-numeric one included, is sent, and the PUT carries `parseInt(input)`. |
| DashboardView.SubmitOfPositive | client/src/components/Dashboard.js:31-39 | An input whose numeric value is positive is sent, carrying exactly its `parseInt`. |
| DashboardView.NumberOfBlank | client/src/components/Dashboard.js:31 | `Number` reads blank text as 0. |
| DashboardView.NumberNeedsNumeral | client/src/components/Dashboard.js:31 | Apart from blank text, `Number` gives a value only when the text, after whitespace, starts with a sign, a digit or a point. |
| DashboardView.NumberOfPlainDecimal | client/src/components/Dashboard.js:31 | `Number` reads a plain decimal "w" or "w.f" as w + f/10^|f|. |
| DashboardView.ParseIntOfPlainDecimal | client/src/components/Dashboard.js:38 | `parseInt` of a plain decimal is its whole part. |
| DashboardView.GateOnPlainDecimal | client/src/components/Dashboard.js:31-38 | For a plain decimal the gate lets through exactly the positive values. What it sends is the value with its fraction cut off: at most the value, and within 1 below it. |
| DashboardView.PositiveWholeIsSent | client/src/components/Dashboard.js:31-39 | A plain decimal with a positive whole part is sent, and the amount is that whole part. |
| DashboardView.GateOnHalf | client/src/components/Dashboard.js:31-38 | "0.5" passes the gate and sends 0. |
| DashboardView.GateOnZero | client/src/components/Dashboard.js:31-34 | "0" is worth 0 and is refused. |
| DashboardView.GateOnExponent | client/src/components/Dashboard.js:31-38 | "1e3" is worth 1000 to the gate but sends 1. |
| DashboardView.GateOnNegative | client/src/components/Dashboard.js:31-34 | "-5" is worth -5 and is refused. |
| DashboardView.GateOnEmpty | client/src/components/Dashboard.js:31-34 | The empty input is refused by the emptiness test, although `Number` reads it as 0. |
| DashboardView.SubmitCorrected | client/src/components/Dashboard.js:31-38 | The gate with one conversion: only a positive whole number is sent, and what is sent is exactly the value checked. Every positive whole value is sent, and everything the original gate refuses is refused. |
| DashboardView.CorrectedGateOnExponent | client/src/components/Dashboard.js:31-38 | Corrected, "1e3" sends 1000. |
| DashboardView.CorrectedGateRefusesHalf | client/src/components/Dashboard.js:31-38 | Corrected, "0.5" is refused. |
| DashboardView.CorrectedAgreesOnWholeNumbers | client/src/components/Dashboard.js:31-38 | On a plain positive whole number both gates send that number. |
| DashboardView.AfterPut | client/src/components/Dashboard.js:41-48 | A success clears the input, says "Donation added successfully!" and refetches. An error keeps the input, shows the failure message and does not refetch. |
| DashboardView.AfterFetch | client/src/components/Dashboard.js:12-23 | A successful dashboard fetch replaces the held data with the fetched data. A failed fetch leaves the held data as it was. |
| DashboardView.Settle | client/src/components/Dashboard.js:12-23 | Whatever the answer, a settled fetch ends loading. The data is replaced on success and kept on failure. |
| DashboardView.View | client/src/components/Dashboard.js:51-59 | The loading screen shows exactly while loading. Otherwise the page is built from the fetched data when present, else from the stored user. |
| DashboardView.LoadingUntilFirstFetch | client/src/components/Dashboard.js:8 | The mounted page shows only the loading screen. Once the first fetch settles there is always content, which is the stored user when that fetch failed. |
| DashboardView.Displayed | client/src/components/Dashboard.js:59 | The page shows the fetched data when present, otherwise the stored user. |
| DashboardView.ProgressTotal | client/src/components/Dashboard.js:181 | The progress view gets the displayed total, or 0 when it is absent. |
| DashboardView.RewardCards | client/src/components/Dashboard.js:117-148 | Absent rewards give the six-item fallback. A present list, even an empty one, is rendered item by item as unlocked. |
| DashboardView.FallbackMatchesTiers | client/src/components/Dashboard.js:132-147 | The four locked fallback items are the badges of Silver, Gold, Platinum and Diamond, in the progress view's order. Each quotes that tier's threshold. |
| DashboardView.EmptyRewardsRenderNothing | client/src/components/Dashboard.js:117-122 | An empty rewards array renders nothing; absent rewards render six items. |
| DashboardView.DurableNewcomerRewards | client/src/components/Dashboard.js:51-59 | After a durable registration, whose response has no rewards, the page first shows the loading screen. If the first dashboard fetch fails, it shows the six-item fallback list. If it succeeds, it shows the two starter badges. |
| DashboardView.DonateThenRefetch | client/src/components/Dashboard.js:41-44 | After a successful PUT, the form clears and the refetched total handed to the progress view is the old total plus the amount. |
| DashboardView.SubmitThenRefetch | client/src/components/Dashboard.js:29-49 | End to end for a plain positive decimal: the whole part is sent and added, the form clears, and the refetched total grows by the whole part. |
| LeaderboardView.RankIcon | client/src/components/Leaderboard.js:38-43 | Ranks 1, 2 and 3 give the gold, silver and bronze medals, each a single code point. Every other rank gives "#" followed by more. |
| LeaderboardView.RankIconRoundTrip | client/src/components/Leaderboard.js:42 | The text after "#" parses back to the rank. |
| LeaderboardView.RankIconInjective | client/src/components/Leaderboard.js:38-43 | Different ranks never share a label. |
| LeaderboardView.Rows | client/src/components/Leaderboard.js:84-88 | One row per entry in list order. The icon comes from the entry's stored rank, and name, code and total are copied from the entry. |
| LeaderboardView.RowsFollowPositions | client/src/components/Leaderboard.js:84-88 | When stored ranks equal positions, row i shows the icon of rank i+1. |
| LeaderboardView.StaleRankShown | client/src/components/Leaderboard.js:84-88 | A durable read of a single entry with stored rank 7 puts it at the top, labelled "#7". |
| LeaderboardView.ClientFallbackIsSeed | client/src/components/Leaderboard.js:20-32 | The client's fallback list equals the server's seed list. It is sorted and its ranks match positions, so it shows medals on the first three rows and "#4" on the fourth. |
| LeaderboardView.ShownAfterFetch | client/src/components/Leaderboard.js:12-36 | A thrown request shows the fallback list. A successful answer shows its list. An answer without success keeps the list held. |
| LeaderboardView.Delivered | client/src/components/Leaderboard.js:13-18 | An error status reaches the page as a throw, and a success as the answered list. |
| LeaderboardView.PageShowsServerRead | client/src/components/Leaderboard.js:12-32 | The page shows exactly the server's read. In demo mode that is the same list a failed request would show. |

## Left out

- Express, CORS and static-file wiring, the database connection, schema machinery and `app.listen`. The two collections are plain sequences, the unique index is "registration fails when the email exists", and the `required` validators are "registration fails when a field is empty".
- The timing of the storage-mode flag. The mode is a parameter of every handler.
- The lost-update race between `findOne`, `save` and `findOneAndUpdate` across awaits. The model is sequential.
- `Math.random` itself. The draws are inputs bounded below 5000 and below 10. The dashboard's random display of rank, days and referrals is not modelled.
- JavaScript's dynamic typing:
  - A donation amount is an integer. A string amount would concatenate, and a `null` amount (what `parseInt` yields for NaN) is not followed to the server.
  - A missing `name` would throw in `toLowerCase`.
  - Request fields are always strings. A login body with no `password` field is not modelled. In demo mode it would compare `undefined === undefined` (`server.js:149`) and so log in to an account created by a demo registration, which stores no password.
- `toLowerCase` is modelled on ASCII letters only. `Number` is modelled without hexadecimal, binary, octal or `Infinity` forms. `parseInt` is modelled in base 10 only: it ignores the `0x` prefix that `parseInt` honours when no radix is given, so "0x10" reads as 0, not 16. Whitespace is the six ASCII space characters only, without NBSP, BOM or other Unicode spaces.
- The browser's constraint validation of the amount field (`min="1"`, default step). The gate is modelled as the submit handler sees the text. With that validation "0.5" would not reach the handler, while "1e3" would.
- Floating-point rounding. The percentage and `Number` are modelled over the reals.
- The database driver's error texts are abbreviated to fixed strings.
- Leaderboard tie order. The sort's order among equal totals is left unspecified beyond the multiset and descending-order facts.
- `toLocaleString` is modelled only for the five threshold amounts, in English-locale form.
- The leaderboard page's own loading screen before its first fetch settles (`Leaderboard.js:45-51`). `LeaderboardView.ShownAfterFetch` describes the list once a fetch has settled.
- The animated infographic, the interactive login, register and picture components, the navigation bar, routing, local storage and configuration. They hold no ledger logic.

## Findings

| source | as written | input that shows it | evidently intended | confidence | as-written member | corrected member |
|---|---|---|---|---|---|---|
| client/src/components/ProgressVisualization.js:218 | A gallery click passes only `data` and `title`, so the dialog's `unlocked` test is always false. | Total 3450: the Bronze card is drawn lit, but its dialog says "Raise $0 to unlock this achievement." | Pass `unlocked: totalDonations >= threshold`, so the dialog agrees with the card and the mountain hotspot. | medium; not executed | Progress.GalleryBronzeCounterexample | Progress.GalleryDialogCorrected |
| client/src/components/Dashboard.js:31-38 | The gate checks `Number(input) > 0` but sends `parseInt(input)`, which stops at the first non-digit. | "1e3": the gate sees 1000 but the PUT carries 1. Without browser validation, "0.5" passes and sends 0. | Send the value the gate checked, and only a positive whole number. | medium; not executed | DashboardView.GateOnExponent | DashboardView.SubmitCorrected |
