# Axiom Pulse live token feed — a Dafny model

Axiom Pulse is a single-page dashboard that shows three columns of simulated
tokens: `new`, `bonding` and `migrated`. All of its market data is made up in
the browser. This project models the pure data pipeline behind the "live"
feed in `app/page.tsx`, plus two small helpers the cards and the AI panel use:

- **Generator** (`generate`): a batch of twenty tokens of one status. The
  id, ticker base, market cap, transaction count, volume, age and (for a
  token that is not migrated) bonding curve come from `Math.random`. The
  name, image URL, starting `prevMarketCap` and status are fixed by the
  index and the status.
- **Updater** (the `update` function of the 800 ms interval): each token is
  independently picked with probability 0.3. A picked token keeps its market
  cap as `prevMarketCap`, moves it by a delta in [-450, 550) floored at 1000,
  and gains a transaction with probability 0.2.
- **Sorter** (`getSortedTokens`): a copy of a feed ordered by descending
  `marketCap`, `created` or `txns`. `Array.prototype.sort` is stable, so the
  result is the unique stable descending order.
- **Age label** (`formatTimeAgo`): whole seconds, minutes or hours, with suffix
  `s`, `m` or `h`.
- **Fallback text** (the catch branch of `callGemini`): one of three canned
  texts, chosen by a case-sensitive substring test on the prompt.
  `"portfolio"` is tested before `"Market Pulse"`.
- **Flash** (`TokenCard`): green when the market cap rose since the last
  render, red when it fell, and no new flash when it is equal.

Randomness and the clock are parameters. Each `Math.random()` call becomes a
`real` draw in [0, 1). Each `Date.now()` reading becomes an integer: one per
generated token, and one `now` per age label. Market caps are `real`,
because they carry fractions. Every other numeric field only ever holds whole
numbers, so it is `int`. The integer division in `formatTimeAgo` is Dafny's
`/`, which for a positive divisor rounds toward minus infinity, as
`Math.floor` does.

Modules: `Wrappers` (Option), `Decimal` (how a template literal prints an
integer), `Tokens` (the record), `Sorter`, `Updater`, `Flash`, `Generator`,
`TimeAgo`, `Fallback`, and `Feed`. `Feed` combines the three columns and
proves that the feed invariant holds from generation on, through any number
of ticks and any sorted view.

Two ranges of the generator, as the code computes them:
- A generated market cap lies in [10000, 510000), because
  `10000 + Math.random() * 500000` never reaches the upper end.
- A non-migrated bonding curve lies in 0..98, because it is
  `Math.floor(Math.random() * 99)`.

## Model

| member | source | states |
|---|---|---|
| Decimal.NatToString | app/page.tsx:621-623 | how `${i}` prints a whole number: non-empty, all digits, no leading zero, and a single digit exactly below ten |
| Decimal.ParseNatToString | app/page.tsx:621-623 | reading the printed digits back gives the number, so printing loses nothing |
| Decimal.IntToString | app/page.tsx:87 | how `${seconds}` prints an integer: a leading minus sign exactly for a negative value |
| Decimal.ParseIntToString | app/page.tsx:87 | the printed integer, minus sign included, reads back as itself |
| Decimal.IntToStringInjective | app/page.tsx:87-90 | two different integers never print the same |
| Sorter.DescendingPairwise | app/page.tsx:660-662 | in a list whose adjacent keys never increase, every earlier token's key is at least every later token's key |
| Sorter.Insert | app/page.tsx:660-662 | inserting one token grows the list by one, and the first token is either the inserted one or the old first token |
| Sorter.InsertPermutes | app/page.tsx:660-662 | inserting one token adds exactly that token to the list's tokens and removes none |
| Sorter.InsertDescending | app/page.tsx:660-662 | inserting into a descending list keeps it descending for the chosen key |
| Sorter.InsertWithKey | app/page.tsx:660-662 | the inserted token goes before every token with the same key and changes no other key's order (stability of one step) |
| Sorter.InsertExtendsStableSort | app/page.tsx:660-662 | inserting the first token into a stable descending sort of the rest gives a stable descending sort of the whole list |
| Sorter.SortedTokens | app/page.tsx:657-664 | the output is a stable descending sort of the input: same multiset of tokens, non-increasing key between any earlier and later token, and tokens with equal keys in input order |
| Sorter.StableSortUnique | app/page.tsx:660-662 | two descending lists with the same tokens and the same per-key order are equal, so a stable sort has only one possible result |
| Sorter.SortedTokensCharacterised | app/page.tsx:657-664 | a list is the sorter's output if and only if it is a stable descending sort of the input, so any stable `Array.prototype.sort` gives this result |
| Sorter.SortOfDescendingIsIdentity | app/page.tsx:660-662 | sorting a list that is already descending returns it unchanged |
| Sorter.SortIdempotent | app/page.tsx:660-662 | sorting the output of the stable descending sort again returns it unchanged, for every list and sort option |
| Sorter.SortedAdjacentPairs | app/page.tsx:659-662 | every adjacent pair is non-increasing in `marketCap` for `marketcap`, in `created` for `newest`, and in `txns` for `trending` |
| Sorter.SortedTokensPermutation | app/page.tsx:658 | the sorted copy has the input's length and exactly the input's tokens |
| Updater.UpdateToken | app/page.tsx:643-648 | an unpicked token is returned unchanged. A picked token records its old market cap as `prevMarketCap`, and its new market cap is the larger of 1000 and old cap plus delta. `txns` rises by 0 or 1, and rises exactly when the token is picked and the bump draw is above 0.8. Identity, status, curve, volume and creation time never change |
| Updater.Update | app/page.tsx:643-651 | a tick keeps the list's length and order (the same card at every position). Unpicked tokens are identical. Picked ones record the old cap and land at or above 1000. No token loses a transaction or gains more than one |
| Updater.UpdateKeepsFloor | app/page.tsx:646 | if every market cap is at least 1000 before a tick, it is after |
| Updater.UpdateRecordsPrevious | app/page.tsx:645-646 | whenever a tick changes a token's market cap, the new `prevMarketCap` is the value from just before the tick |
| Updater.UpdateTokenStep | app/page.tsx:646 | from a cap at or above 1000, one tick moves it by at least -450 and by less than 550 |
| Flash.FlashOnChange | app/page.tsx:459-460 | green exactly when the cap rose, red exactly when it fell, and no new flash exactly when it is equal |
| Flash.TickFlash | app/page.tsx:459-460 | after a tick, a card flashes green exactly when it was picked with a positive delta. It flashes red exactly when it was picked with a negative delta and was above the floor |
| Flash.FlashFromRecordedPrevious | app/page.tsx:456-461 | for a picked token, comparing the new cap against its recorded `prevMarketCap` gives the same flash as comparing against the pre-tick cap the card last rendered. The page itself never reads `prevMarketCap`; it only writes it, at lines 625 and 645 |
| Generator.FloorScaled | app/page.tsx:621-629 | `Math.floor(Math.random() * n)`, as used for the ticker base, `txns`, `volume`, the age and the curve, is an index in 0..n-1 and is the floor of `r * n` |
| Generator.GenerateToken | app/page.tsx:619-631 | one generated token has the requested status and `prevMarketCap` 10000. Its cap is in [10000, 510000), `txns` in 0..499, `volume` in 0..9999, and `created` within the hour before its own clock reading. Its curve is 100 when migrated and 0..98 otherwise. Its name is `Token i`, and its ticker is one of the five bases followed by i+1 |
| Generator.Generate | app/page.tsx:619-631 | a batch has exactly twenty tokens, each with the shape above for its index, and the i-th id is the i-th random id |
| Generator.TickerNumberDetermined | app/page.tsx:621 | a generated ticker determines the number that follows its base |
| Generator.GeneratedTickerChars | app/page.tsx:621 | every generated ticker consists of capital letters and digits only |
| Generator.GeneratedTickersDistinct | app/page.tsx:621-622 | no two tokens of one batch share a ticker or a name |
| TimeAgo.FormatTimeAgo | app/page.tsx:85-91 | the label ends in `s` exactly when fewer than 60 whole seconds have passed, and in `h` exactly when at least 60 whole minutes have |
| TimeAgo.ParseRender | app/page.tsx:87-90 | a rendered amount and unit read back as themselves |
| TimeAgo.NestedFloors | app/page.tsx:86-90 | flooring to seconds, then minutes, then hours agrees with flooring the milliseconds once by 60000 or 3600000, and `seconds < 60` exactly when under 60000 ms |
| TimeAgo.FormatTimeAgoIsAge | app/page.tsx:85-91 | the label renders an age, and that age is exactly the reference age: the milliseconds elapsed in whole seconds below a minute, in whole minutes below an hour, otherwise in whole hours |
| TimeAgo.HoursAreWholeHours | app/page.tsx:90 | the hour label is the number of whole hours elapsed, `floor(seconds / 3600)` |
| Fallback.IncludesIffOccurs | app/page.tsx:120-128 | the start-by-start search `includes` performs succeeds exactly when the needle occurs at some position |
| Fallback.ReplyTextInjective | app/page.tsx:121-127 | the three canned texts are pairwise different, so the text tells which branch was taken |
| Fallback.FallbackReply | app/page.tsx:120-128 | the Degen Score branch exactly when the prompt contains `portfolio`. The sentiment branch exactly when it contains `Market Pulse` but not `portfolio`. The Vibe Check branch exactly when it contains neither |
| Fallback.FallbackText | app/page.tsx:120-128 | the Degen Score text exactly when the prompt contains `portfolio`. The sentiment text exactly when it contains `Market Pulse` but not `portfolio`. The Vibe Check text exactly when it contains neither |
| Fallback.MissingCharExcludes | app/page.tsx:120-128 | a needle holding a character the prompt lacks is not found in it |
| Fallback.PulseWithoutPortfolio | app/page.tsx:120-125 | a prompt that contains `Market Pulse` and has no letter `f` gets the sentiment branch, since `portfolio` cannot occur in it |
| Fallback.AuditPromptGetsDegenScore | app/page.tsx:262-264 | the portfolio audit prompt gets the Degen Score branch for any holdings string |
| Fallback.DegenTextNamesScore | app/page.tsx:121 | the Degen Score text contains "Degen Score" |
| Fallback.MarketReportPromptGetsSentiment | app/page.tsx:563-564 | the market report prompt, `Market Pulse Report...`, gets the market sentiment branch |
| Fallback.PortfolioWinsOverMarketPulse | app/page.tsx:120-125 | a prompt containing both keywords gets the Degen Score branch |
| Fallback.AnalyzePromptGetsVibeCheck | app/page.tsx:517-518 | the token analysis prompt, for any ticker of capitals and digits, gets the Vibe Check branch |
| Feed.Init | app/page.tsx:632-637 | the three columns after loading have twenty tokens each and satisfy the feed invariant: fixed status, cap at or above 1000, non-negative counts, and curve 100 exactly for migrated tokens and otherwise in 0..100 |
| Feed.UpdateKeepsWellFormed | app/page.tsx:643-648 | a tick keeps one column's invariant |
| Feed.Tick | app/page.tsx:641-655 | the interval body keeps the invariant for all three columns and keeps their lengths |
| Feed.Run | app/page.tsx:641-655 | any number of ticks keeps the invariant and the column lengths |
| Feed.SortKeepsWellFormed | app/page.tsx:657-664 | sorting keeps one column's invariant |
| Feed.View | app/page.tsx:665-667 | each shown column is a stable descending sort of its feed, and the shown columns keep the invariant, whenever the memo recomputes: on a sort option change, a sort tick, or a new feed array from a tick |
| Feed.AnalyzeGeneratedTokenGetsVibeCheck | app/page.tsx:517 | the analysis prompt for any token the generator makes gets the Vibe Check branch |
| Feed.ReachableViewsValid | app/page.tsx:619-667 | every view of every state reached from generation through ticks satisfies the invariant |

## Left out

- Rendering, hooks, modals, toasts, wallet connect and the error boundary: UI with no data logic.
- Timers: the 1000 ms loading delay, the 800 ms tick, the 5000 ms sort tick, the 400 ms flash reset and the 800 ms fallback delay. The model has no scheduling; `Feed.Run` applies ticks in order and `Feed.View` stands for a re-sort at any moment.
- The text-generation request itself (`fetch`, the response JSON walk and its "Analysis unavailable." default): a network call to a foreign service. Only the fallback path is modelled.
- `Math.random` and `Date.now`: they are parameters. The random base-36 `id` string is passed in as text, not generated.
- `formatCurrency` and `formatPrice`: thin wrappers over `Intl.NumberFormat`.
- The `console.warn` in the fallback path (app/page.tsx:116): a logging side effect.
- Decimal.IntToString: prints every integer in plain digits, while JavaScript switches to exponent notation from 1e21 on. Elapsed times from `Date.now()` stay far below that.
- The mock terminal chart, order book, trades and portfolio data, and the float-to-string portfolio summary. `Fallback.AuditPromptGetsDegenScore` holds for any holdings string.
- app/layout.tsx: page metadata and fonts only.
- Floating point: market caps and draws are exact reals, and the thresholds 0.7, 0.45 and 0.8 are exact decimals. IEEE rounding is not modelled.
- Strings are sequences of Unicode scalar values, while JavaScript strings are UTF-16. The needles are ASCII, so substring tests agree.
- The switch's `default` branch in `getSortedTokens` is reachable only through `trending`, because the sort option is typed. `Sorter.Key` maps `Trending` to `txns`.
- That the sorter leaves its input untouched needs no statement: sequences are values.
- The memoised columns always sort the unsorted feed, so the page never relies on `Sorter.SortIdempotent`; a sort tick with no feed change gives the same order simply because it recomputes the same function of the same feed.
- Flash: the card's last rendered cap (`prevMcRef`, app/page.tsx:456-461) is taken to be the cap just before the latest tick. That holds only when the card was mounted and rendered after every tick; it fails while the Pulse view is off-screen or when two ticks land in one render.
- Updater.Update: requires one draw per token. This is how the model supplies Math.random's stream, not a demand of the source.
- Generator.Generate: requires every draw in [0, 1), which is Math.random's range.
