# WalrusTruth front end: verified view-model

This project is a Dafny model of the view-model layer of the WalrusTruth web front end, with
proofs of its properties. WalrusTruth is a YES/NO prediction market whose markets, pools and
wagers live in an on-chain registry.

The model covers:

- decoding the registry's enumeration codes, and the "market is active" test;
- the countdown text and the countdown's `display`/`expired` state;
- the pool ratio, the bettor's position block and the bet-button gate on the market card and the detail page;
- the split of the market list into active and settled sections;
- the bet dialog's pari-mutuel payout preview, its approval gate and its single-flight `submitting` flag;
- the post-processing of the two batched registry reads (markets, then the bettor's wagers);
- the admin allow-list, parsed from configuration, and the admin check;
- the three admin and evidence handlers: create market, submit evidence and resolve market.

Every network result, wallet answer and clock reading is a parameter. A batched read is a
sequence of `Option` results, with `None` for a call that failed. An asynchronous handler is a
class whose handler is cut at each `await`:

- a press runs the synchronous part up to the first wait;
- `Signed(ok)` is the wallet's answer;
- `Confirmed(ok)` is the receipt.

Ratios are in basis points, so no floating point is needed. The modules follow the source files
one to one:

- `MarketHelpers`, `Countdown`, `MarketCard`, `MarketDetail`, `MarketList`, `PlaceBetDialog`,
  `Markets`, `Env`, `Providers`, `CreateMarketForm`, `MarketEvidencePanel`, `AdminResolutionPanel`;
- shared modules: `MarketTypes` (the entities), `Chain` (the writes and the stages of a write),
  `Seqs` (`filter`/`map`), `Text` (`split`/`trim`/`toLowerCase`), `Arith` (floor division) and
  `Wrappers` (`Option`).

Where the design description and the code disagree, the model follows the code:

- A market list fetched without an address and a market whose wager read failed both carry no
  wager (`None`). The design wants "no connected party" to stay distinguishable from "fetched,
  found none".
- While the allowance is still unknown, the bet dialog offers the bet rather than the approval.
  The design requires approval to complete first whenever the allowance is short.
- A confirmed write invalidates only what the code invalidates:
  - evidence invalidates that market's read;
  - an approval invalidates the cached allowance;
  - a bet or a resolution calls the page's refetch callback;
  - creating a market invalidates nothing.

  The design asks every settled write to invalidate every read it could affect.

Three more behaviours of the code are modelled as written:

- A present but empty `uri` in the upload response is not replaced by `url`, so the upload fails.
- An unparseable deadline passes the "in the future" check, because `NaN <= x` is false. It then
  fails when `BigInt(NaN)` throws, and no write is made.
- The bet dialog's header Close button stays enabled while a write is in flight.

## Model

| member | source | states |
|---|---|---|
| MarketHelpers.OutcomeCode | frontend/src/lib/marketHelpers.ts:3-8 | the outcome table's codes are 0..3 |
| MarketHelpers.StatusCode | frontend/src/lib/marketHelpers.ts:10-13 | the status table's codes are 0..1 |
| MarketHelpers.DecodeOutcome | frontend/src/lib/marketHelpers.ts:15-16 | codes 0..3 decode to the outcome with that code; every other integer decodes to Undecided |
| MarketHelpers.DecodeStatus | frontend/src/lib/marketHelpers.ts:18-19 | codes 0..1 decode to the status with that code; every other integer decodes to Open |
| MarketHelpers.DecodeEncode | frontend/src/lib/marketHelpers.ts:3-19 | decoding inverts the encoding for both enumerations |
| MarketHelpers.IsMarketActive | frontend/src/lib/marketHelpers.ts:21-22 | a resolved market is never active, and neither is one whose deadline has been reached |
| MarketHelpers.StaysInactive | frontend/src/lib/marketHelpers.ts:21-22 | a market not active at some instant is not active at any later instant |
| Text.Split | frontend/src/lib/env.ts:8 | `split(",")` gives at least one piece, no piece contains the separator, and joining the pieces gives the input back |
| Text.SplitJoin | frontend/src/lib/env.ts:8 | splitting the join of separator-free pieces gives the pieces back |
| Text.SplitAround | frontend/src/lib/env.ts:8 | the pieces of "a,b" are the pieces of a followed by the pieces of b |
| Text.TrimStart | frontend/src/lib/env.ts:9 | the result is a suffix of the input, only white space precedes it, and it does not start with white space |
| Text.TrimEnd | frontend/src/lib/env.ts:9 | the result is a prefix of the input, only white space follows it, and it does not end with white space |
| Text.Trim | frontend/src/lib/env.ts:9 | `trim()` is never longer than its input and neither starts nor ends with white space |
| Text.TrimInfix | frontend/src/lib/env.ts:9 | the trimmed string is an infix `s[a..b]` of the input with only white space outside it |
| Text.TrimKeepsOut | frontend/src/lib/env.ts:9 | trimming never introduces a character the input lacks |
| Text.LowerCharSpace | frontend/src/lib/env.ts:9 | lower-casing a character keeps it white space or not white space |
| Text.TrimIdempotent | frontend/src/lib/env.ts:9 | trimming twice equals trimming once |
| Text.ToLowerIdempotent | frontend/src/lib/env.ts:9 | lower-casing twice equals lower-casing once |
| Text.ToLower | frontend/src/lib/env.ts:9 | `toLowerCase()` keeps the length, leaves no upper-case letter, and changes nothing else |
| Seqs.Filter | frontend/src/components/market/MarketList.tsx:47-48 | `filter` keeps exactly the elements satisfying the predicate, and never lengthens the list |
| Seqs.Map | frontend/src/lib/env.ts:9 | `map` keeps the length and applies the function at every index |
| Seqs.FilterKeepsAll | frontend/src/lib/env.ts:10 | a filter returns its input unchanged iff every element satisfies the predicate |
| Seqs.FilterConcat | frontend/src/components/market/MarketList.tsx:47-48 | filtering a concatenation concatenates the filtered parts (order is kept) |
| Seqs.FilterPartition | frontend/src/components/market/MarketList.tsx:47-48 | filters by a predicate and by its negation together hold every element exactly as often as the input |
| Countdown.NatToString | frontend/src/hooks/useCountdown.ts:10-13 | `${n}` is a non-empty run of digits with no leading zero other than "0" itself |
| Countdown.ParseNatPositive | frontend/src/hooks/useCountdown.ts:10-13 | a numeral with a non-zero first digit denotes a positive number |
| Countdown.NatToStringParseNat | frontend/src/hooks/useCountdown.ts:10-13 | every numeral without a leading zero is the one written for its value, so numbers and such numerals correspond one to one |
| Countdown.ParseNatToString | frontend/src/hooks/useCountdown.ts:10-13 | the decimal numeral in a template string reads back as its number |
| Countdown.Split | frontend/src/hooks/useCountdown.ts:5-9 | hours < 24, minutes < 60, seconds < 60, and d·86400 + h·3600 + m·60 + s = floor(ms/1000) |
| Countdown.Bucket | frontend/src/hooks/useCountdown.ts:4-13 | Expired iff ms ≤ 0; otherwise the chosen display denotes floor(ms/1000) seconds by its two leading non-zero units |
| Countdown.DenotesUnique | frontend/src/hooks/useCountdown.ts:10-13 | at most one display denotes a given number of seconds, so the bucket is fully determined |
| Countdown.Render | frontend/src/hooks/useCountdown.ts:10-13 | the text is "Expired" exactly for the expired display; every other text starts with a digit |
| Countdown.RenderParse | frontend/src/hooks/useCountdown.ts:10-13 | every display's text parses back to that display |
| Countdown.FormatTime | frontend/src/hooks/useCountdown.ts:3-14 | the text is "Expired" exactly when ms ≤ 0 |
| Countdown.FormatTimeReadsBack | frontend/src/hooks/useCountdown.ts:3-14 | for ms > 0 the text reads back as the display of floor(ms/1000) seconds |
| Countdown.LastSecond | frontend/src/hooks/useCountdown.ts:4-13 | 0 < ms < 1000 formats as "0s", not "Expired" |
| Countdown.DaysExample | frontend/src/hooks/useCountdown.ts:5-10 | 1 day 1 hour 1 minute 1 second formats as "1d 1h" |
| Countdown.Armed | frontend/src/hooks/useCountdown.ts:21 | the only targets `!target` treats as missing are the absent one and the number 0 |
| Countdown.CountdownState.constructor | frontend/src/hooks/useCountdown.ts:17-18 | before any tick: "..." and not expired |
| Countdown.CountdownState.Tick | frontend/src/hooks/useCountdown.ts:23-27 | expired = (target − now ≤ 0), the display is the formatted difference, and expired iff the display is "Expired" |
| Countdown.CountdownState.Start | frontend/src/hooks/useCountdown.ts:20-28 | no target (or the number 0) leaves the state alone; otherwise the first tick runs |
| MarketCard.YesRatioBps | frontend/src/components/market/MarketCard.tsx:43-45 | 5000 for empty pools; otherwise floor(yes·10000/total), within [0, 10000]; equal pools give 5000 |
| MarketCard.NoRatioBps | frontend/src/components/market/MarketCard.tsx:46 | the two shares sum to 10000; the NO share is the exact share rounded up |
| MarketCard.Stakes | frontend/src/components/market/MarketCard.tsx:50-51 | an absent wager stakes 0 on each side; a present one stakes its own amounts |
| MarketCard.Position | frontend/src/components/market/MarketCard.tsx:141-163 | the block shows iff exposure > 0; each tile shows iff its stake > 0, with that stake; an absent wager shows nothing |
| MarketCard.BetButtonShown | frontend/src/components/market/MarketCard.tsx:166 | the bet button is never shown on a resolved market nor once the countdown has expired |
| MarketCard.BetButtonMeansActive | frontend/src/components/market/MarketCard.tsx:166 | with the countdown's `expired` for the same instant, the bet button shows iff the market is active |
| MarketCard.BetClick | frontend/src/components/market/MarketCard.tsx:54-69 | connect iff no session or no wallet; the dialog opens iff connected and the market is open and unexpired |
| MarketCard.Card.constructor | frontend/src/components/market/MarketCard.tsx:40 | the dialog starts closed |
| MarketCard.Card.HandleBetClick | frontend/src/components/market/MarketCard.tsx:54-69 | only an OpenDialog click changes the state, and it opens the dialog, which is then mounted |
| MarketCard.Card.CloseDialog | frontend/src/components/market/MarketCard.tsx:187-195 | `onClose` closes the dialog, which unmounts |
| MarketDetail.View | frontend/src/components/market/MarketDetail.tsx:34-190 | loading or no market gives only the loading view; otherwise the ratio bar is the card's YES and NO shares of the market's pools (summing to 10000) and the position block is the card's for the bettor's wager; the outcome chip appears iff resolved, the bet button iff open and unexpired, the position iff exposure > 0, the resolution panel iff admin, the dialog iff open with a wallet |
| MarketDetail.DetailPage.constructor | frontend/src/components/market/MarketDetail.tsx:29 | the dialog starts closed |
| MarketDetail.DetailPage.HandleBetClick | frontend/src/components/market/MarketDetail.tsx:46-61 | the same guards as the card; only an opened dialog changes the state |
| MarketDetail.DetailPage.CloseDialog | frontend/src/components/market/MarketDetail.tsx:198 | `onClose` closes the dialog |
| MarketDetail.ClickMatchesButton | frontend/src/components/market/MarketDetail.tsx:46-61 | a connected click opens the dialog iff the page shows the bet button |
| MarketList.Render | frontend/src/components/market/MarketList.tsx:23-71 | loading gives only skeletons; an empty list gives the empty state; otherwise the active section holds exactly the active markets and the settled section the rest; the notice shows iff nothing is active; the settled section shows iff it is non-empty |
| MarketList.SectionsPartition | frontend/src/components/market/MarketList.tsx:47-48 | the sections partition the list (multiset and length) |
| MarketList.SectionsKeepOrder | frontend/src/components/market/MarketList.tsx:47-48 | both sections keep the list's order |
| MarketList.SectionsAcrossReadings | frontend/src/components/market/MarketList.tsx:47-48 | with the active filter read at t1 and the settled filter at a later t2, no market is lost, and a market is in both sections iff it is open with its deadline in (t1, t2] |
| MarketList.JustClosedIsSettled | frontend/src/components/market/MarketList.tsx:47-48 | an open market just past its deadline is listed as settled |
| PlaceBetDialog.SideCode | frontend/src/components/market/PlaceBetDialog.tsx:99 | YES sends 1 and NO sends 2, the codes of the outcomes Yes and No |
| PlaceBetDialog.AmountParsed | frontend/src/components/market/PlaceBetDialog.tsx:51 | an empty amount field is 0 |
| PlaceBetDialog.NeedsApproval | frontend/src/components/market/PlaceBetDialog.tsx:52-53 | approval is only needed for a positive stake, and never for a stake up to the maximal allowance once it is granted |
| PlaceBetDialog.ApprovalCases | frontend/src/components/market/PlaceBetDialog.tsx:52-53 | an unknown allowance never needs approval; a stake that needs approval still needs it when raised |
| PlaceBetDialog.PayoutPreview | frontend/src/components/market/PlaceBetDialog.tsx:55-72 | no preview for a stake ≤ 0; otherwise floor(stake·(pools + stake)/(own pool + stake)), between the stake and the stake plus the opposing pool, and exactly the stake when the opposing pool is empty |
| PlaceBetDialog.PayoutBounds | frontend/src/components/market/PlaceBetDialog.tsx:59-70 | the floor bounds and the payout's range |
| PlaceBetDialog.PreviewSymmetric | frontend/src/components/market/PlaceBetDialog.tsx:58-71 | the NO preview is the YES preview with the pools swapped |
| PlaceBetDialog.PreviewExamples | frontend/src/components/market/PlaceBetDialog.tsx:59-64 | a sole stake of 100 previews 100; a stake of 50 on YES with pools 50/100 previews 100 |
| PlaceBetDialog.BetDialog.constructor | frontend/src/components/market/PlaceBetDialog.tsx:42-44 | YES tab, empty amount, not submitting |
| PlaceBetDialog.BetDialog.SelectTab | frontend/src/components/market/PlaceBetDialog.tsx:134 | the tab button sets the tab |
| PlaceBetDialog.BetDialog.EnterAmount | frontend/src/components/market/PlaceBetDialog.tsx:155 | typing sets the parsed amount |
| PlaceBetDialog.BetDialog.PressPrimary | frontend/src/components/market/PlaceBetDialog.tsx:74-113 | ignored while submitting; while approval is needed, only an approval of the fixed maximum is sent; a stake ≤ 0 sends nothing; otherwise placeBet(market, side code, amount); a missing client fails without a write |
| PlaceBetDialog.BetDialog.Signed | frontend/src/components/market/PlaceBetDialog.tsx:90-112 | a hash goes on to the receipt; a rejection resets `submitting` |
| PlaceBetDialog.BetDialog.Confirmed | frontend/src/components/market/PlaceBetDialog.tsx:103-112 | only a confirmed bet runs onSuccess then onClose; `submitting` is false afterwards |
| PlaceBetDialog.BetDialog.PressCancel | frontend/src/components/market/PlaceBetDialog.tsx:179-185 | Cancel is disabled while submitting, and otherwise runs onClose |
| PlaceBetDialog.BetDialog.PressClose | frontend/src/components/market/PlaceBetDialog.tsx:122-127 | the header's Close button always runs onClose |
| Markets.MarketBatch | frontend/src/hooks/useMarkets.ts:14-21 | no batch for a count of 0; otherwise one getMarket call per index, in order |
| Markets.DecodeMarket | frontend/src/hooks/useMarkets.ts:52-63 | id = call index; deadline ms = seconds·1000; title, description, metadata URI, pools and bettor count carried over; status and outcome decoded |
| Markets.DecodeResults | frontend/src/hooks/useMarkets.ts:27-67 | as many markets as successes, ids strictly ascending within the call range |
| Markets.DecodeResultsSound | frontend/src/hooks/useMarkets.ts:28-65 | each market is its own call's decoded result |
| Markets.DecodeResultsComplete | frontend/src/hooks/useMarkets.ts:29-67 | each successful call has its market |
| Markets.SortIsIdentity | frontend/src/hooks/useMarkets.ts:68 | sorting a strictly id-ascending list by id returns it unchanged |
| Markets.FetchMarkets | frontend/src/hooks/useMarkets.ts:8-69 | a count of 0 gives []; otherwise one market per success, strictly ascending by id, ids below the count |
| Markets.FetchMarketsContents | frontend/src/hooks/useMarkets.ts:27-68 | the markets are exactly the decoded successful results, with failures leaving gaps |
| Markets.WagerMap | frontend/src/hooks/useMarkets.ts:84-90 | every key of the wager map is one of the requested ids |
| Markets.WagerMapKeys | frontend/src/hooks/useMarkets.ts:84-90 | the map's keys are the ids whose read succeeded |
| Markets.WagerMapLast | frontend/src/hooks/useMarkets.ts:84-90 | an id holds its last successful read |
| Markets.FetchUserWagers | frontend/src/hooks/useMarkets.ts:71-91 | the in-place fold builds the wager map; an empty id list gives an empty map |
| Markets.WagerMapDistinct | frontend/src/hooks/useMarkets.ts:84-90 | with distinct ids, a successful read is stored under its id and a failed one is absent |
| Markets.Ids | frontend/src/hooks/useMarkets.ts:107 | the market ids in list order |
| Markets.MarketsWithWagers | frontend/src/hooks/useMarkets.ts:100-113 | the markets of fetchMarkets in order; no wager anywhere without an address; otherwise each carries its id's lookup, absent for a failed read |
| Env.Normalize | frontend/src/lib/env.ts:9 | a normalized entry is no longer than the piece and has no upper-case letter |
| Env.NormalizeTrimmed | frontend/src/lib/env.ts:9 | a normalized entry neither starts nor ends with white space |
| Env.NormalizeNoComma | frontend/src/lib/env.ts:9 | a comma-free piece normalizes to a comma-free entry |
| Env.NormalizeFixes | frontend/src/lib/env.ts:9 | normalizing a string without outer white space or upper case leaves it unchanged |
| Env.NormalizeIdempotent | frontend/src/lib/env.ts:9 | normalizing twice equals normalizing once |
| Env.AdminAddresses | frontend/src/lib/env.ts:7-10 | an unset variable gives an empty list |
| Env.AdminAddressesSound | frontend/src/lib/env.ts:7-10 | every entry is non-empty and is some piece, normalized |
| Env.AdminAddressesComplete | frontend/src/lib/env.ts:7-10 | every piece that normalizes to a non-empty string is on the list |
| Env.AdminEntryShape | frontend/src/lib/env.ts:7-10 | every entry is non-empty, comma-free, trimmed and lower-case, so normalizing it again changes nothing |
| Env.AdminAddressesConcat | frontend/src/lib/env.ts:8-10 | the list for "a,b" is the list for a followed by the list for b (order kept) |
| Env.AdminAddressesRoundTrip | frontend/src/lib/env.ts:7-10 | a list of non-empty, comma-free entries in normal form, joined by commas, parses back to the same list |
| Env.OrEmpty | frontend/src/lib/env.ts:2 | an unset setting is "" and a set one is its value |
| Env.LoadEnv | frontend/src/lib/env.ts:1-12 | each of the six string settings is its variable, or "" when unset; the allow-list is the parsed variable, empty when unset |
| Providers.IsAdmin | frontend/src/providers.tsx:40-44 | no address, or an empty one, is not an admin; an admin's lower-cased address is on the list |
| Providers.AdminCaseInsensitive | frontend/src/providers.tsx:43 | addresses equal up to letter case are admins alike |
| Providers.NoAdminsWithoutList | frontend/src/providers.tsx:42-43 | an unset allow-list admits nobody |
| Providers.AdminIffConfigured | frontend/src/providers.tsx:43 | a non-empty address is an admin iff some configured piece, trimmed and lower-cased, equals the lower-cased address |
| CreateMarketForm.EpochSeconds | frontend/src/components/admin/CreateMarketForm.tsx:35 | the deadline's whole seconds, rounded down |
| CreateMarketForm.DeadlineCheckInWholeSeconds | frontend/src/components/admin/CreateMarketForm.tsx:36 | comparing with unrounded now/1000 is comparing with whole seconds |
| CreateMarketForm.FutureDeadline | frontend/src/components/admin/CreateMarketForm.tsx:35-36 | a deadline passes iff its whole second is after now's |
| CreateMarketForm.Form.constructor | frontend/src/components/admin/CreateMarketForm.tsx:14-18 | empty fields, the metadata URI at its configured base, not submitting |
| CreateMarketForm.Form.Edit | frontend/src/components/admin/CreateMarketForm.tsx:75-108 | the inputs set the four fields |
| CreateMarketForm.Form.Reset | frontend/src/components/admin/CreateMarketForm.tsx:126-131 | Reset clears the fields and restores the base URI |
| CreateMarketForm.Form.Submit | frontend/src/components/admin/CreateMarketForm.tsx:20-49 | in order: ignored while submitting; connect only when not connected; an empty field rejects; a non-future deadline rejects; an unparseable deadline or a missing client fails; otherwise createMarket(title, description, epoch, uri) is sent; no field changes |
| CreateMarketForm.Form.Signed | frontend/src/components/admin/CreateMarketForm.tsx:44-61 | a hash goes on to the receipt; a rejection resets `submitting` |
| CreateMarketForm.Form.Confirmed | frontend/src/components/admin/CreateMarketForm.tsx:50-61 | success clears the fields and restores the base URI; failure leaves them; `submitting` is false |
| MarketEvidencePanel.EvidenceSource | frontend/src/components/panel/MarketEvidencePanel.tsx:44-60 | the trimmed URL wins when not blank; otherwise the file is uploaded if present; otherwise nothing is resolved |
| MarketEvidencePanel.BlankUrlResolvesNothing | frontend/src/components/panel/MarketEvidencePanel.tsx:44-60 | a white-space URL with no file resolves nothing |
| MarketEvidencePanel.ResponseUri | frontend/src/components/panel/MarketEvidencePanel.tsx:54 | a present `uri` wins, `url` is the fallback, "" when both are absent |
| MarketEvidencePanel.Panel.constructor | frontend/src/components/panel/MarketEvidencePanel.tsx:20-22 | no file, empty URL, not uploading |
| MarketEvidencePanel.Panel.Edit | frontend/src/components/panel/MarketEvidencePanel.tsx:94-101 | the inputs set the file and the URL |
| MarketEvidencePanel.Panel.Submit | frontend/src/components/panel/MarketEvidencePanel.tsx:61-69 | a missing client fails without a write; otherwise submitEvidence(market, uri) is sent |
| MarketEvidencePanel.Panel.Press | frontend/src/components/panel/MarketEvidencePanel.tsx:24-69 | in order: ignored while uploading; connect only when not connected; no file and no URL rejects; no endpoint rejects; then a direct URL (sent, and the stage waits for its signature), an upload, or nothing; `uploading` is set exactly while something is in flight |
| MarketEvidencePanel.Panel.Resolve | frontend/src/components/panel/MarketEvidencePanel.tsx:42-69 | for the resolved source: a direct (non-blank) URI is submitted, the stage then waiting for that write's signature (or it fails without a client); an upload posts the attached file; nothing resolved rejects with no write or upload; `uploading` is set exactly while something is in flight |
| MarketEvidencePanel.Panel.UploadReturned | frontend/src/components/panel/MarketEvidencePanel.tsx:52-69 | a failed upload or an empty URI fails without a write; otherwise the returned URI is submitted |
| MarketEvidencePanel.Panel.Signed | frontend/src/components/panel/MarketEvidencePanel.tsx:64-80 | a hash goes on to the receipt; a rejection resets `uploading` |
| MarketEvidencePanel.Panel.Confirmed | frontend/src/components/panel/MarketEvidencePanel.tsx:70-80 | success clears the file and the URL and invalidates the market's read; failure changes none of them; `uploading` is false |
| AdminResolutionPanel.ResolutionCode | frontend/src/components/panel/AdminResolutionPanel.tsx:50-70 | the buttons send 1, 2 and 3, the codes of Yes, No and Void; never Undecided |
| AdminResolutionPanel.ResolutionCodes | frontend/src/components/panel/AdminResolutionPanel.tsx:50-70 | distinct buttons send distinct codes; each settled outcome has a button |
| AdminResolutionPanel.Panel.constructor | frontend/src/components/panel/AdminResolutionPanel.tsx:17 | not submitting |
| AdminResolutionPanel.Panel.Press | frontend/src/components/panel/AdminResolutionPanel.tsx:19-30 | ignored while submitting; a missing client fails without a write; otherwise resolveMarket(id, code) is sent |
| AdminResolutionPanel.Panel.Signed | frontend/src/components/panel/AdminResolutionPanel.tsx:25-39 | a hash goes on to the receipt; a rejection resets `submitting` |
| AdminResolutionPanel.Panel.Confirmed | frontend/src/components/panel/AdminResolutionPanel.tsx:31-39 | onResolved runs only on success; `submitting` is false either way |

## Left out

- Network I/O is not modelled: the RPC client, the multicall, the wallet connector and the upload
  `fetch`. Their results are parameters, and a multicall is assumed to return one result per call.
- The allowance and balance reads are not modelled (they are EIP-20 wrappers). Only the fixed
  approval amount and the invalidation of the cached allowance are kept.
- Display formatting is not modelled: `formatUsdc`, `formatUsdcBalance`, `toFixed` and the ratio
  percentages. Ratios are kept in basis points.
- `parseUnits` amount parsing and `datetime-local` parsing are parameters: the parsed amount, and
  the parsed deadline in milliseconds (`None` for an invalid date).
- Timer scheduling (`setInterval`/`clearInterval`) is not modelled. Each tick receives "now".
- Toasts, console logging, React rendering and the static ABI are not modelled.
- The single-market read (`useMarket`), the leaderboard, the statistics and Walrus blob panels, and
  the admin console's table are outside this model's core.
- Closing the bet dialog while a write is in flight does not stop the write. The model keeps the
  dialog's state after `onClose`; it does not model the unmounted component.
- Text.ToLower: maps only ASCII letters, whereas JavaScript's `toLowerCase` maps all of Unicode.
  Wallet addresses are ASCII hex.
- Countdown.FormatTime: its own contract states only when the text is "Expired". For the other
  texts, Countdown.FormatTimeReadsBack states which display the text reads back as. The reader
  accepts leading zeros, so that lemma alone does not fix the digits; Countdown.NatToString and
  Countdown.NatToStringParseNat state that each number is written as its one numeral without a
  leading zero.
- Text.Trim: its own contract states only the shape of the result. That nothing but white space
  is removed is stated by Text.TrimInfix.
- Countdown.CountdownState.Start: does not model deadlines outside the JavaScript `Date` range,
  which give a `NaN` difference.
- Markets.DecodeMarket: does not model the 2^53 precision limit of `Number(deadline) * 1000`.
  Registry deadlines are small.
- MarketList.Render: evaluates both filters at one instant `now`. The page reads the clock once
  per element in each filter, so a market whose deadline passes between the readings is listed in
  both sections. MarketList.SectionsAcrossReadings states this for one reading per filter; the
  per-element readings within one filter are not modelled.
- Markets.MarketsWithWagers: takes the wager batch as a per-id read result. The index-wise fold
  itself is `Markets.FetchUserWagers`.
