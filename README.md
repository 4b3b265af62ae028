# Watch-list page state, in Dafny

This project models the state handling that the two watch-list pages of the
trading dashboard share: `DashboardDemo.tsx` and its near-duplicate
`watchlistnew.tsx`. Both keep the same set of state cells:

- the user's watch-lists and the selected one;
- the previous-close ("baseline") map used for the percent change;
- the price-alert list and the queue of toast notifications;
- the tweets grouped by symbol, and the tweet filter;
- the trade-exchange posts and the received filings;
- the inline alert inputs of every row.

Handlers replace these cells. The two pages are modelled once. Where they
differ, the difference is a separate member or a parameter:

- only `DashboardDemo.tsx` has `toggleFlag`, the inline alert inputs and the
  bottom "Add Alert" form;
- only `watchlistnew.tsx` caps the "*" tweet view at twelve, resets the tweet
  filter when another watch-list is selected, and has the hide/show tweet
  buttons.

Modules, one per file:

- `Strings`: JavaScript's ASCII `toUpperCase`, `trim`, `split(',')`,
  `includes`, and the ticker that /\$?([A-Z]+)/ extracts.
- `Seqs`: the array operations: `filter`, `slice(-n).reverse()`,
  `slice(0, n)`, `Array.from(new Set(..))`, removal by index, and the
  flagged-first stable partition.
- `Numbers`: JavaScript numbers that may be NaN, `parseFloat`, and the
  relative-target syntax `^[+-]\d+(\.\d+)?$`.
- `Types`: the records (watch-list row, watch-list, quote, price alert,
  tweet, trade post, filing). Formatted cells are kept symbolic:
  - a last price is `Fixed2(x)` (the text `x.toFixed(2)`) or other text;
  - a percent change is `PercentOf(last, base)` or other text.
- `Quotes`: the BroadcastQuotes display merge and the baseline map.
- `Alerts`: the alert pass of BroadcastQuotes over the pre-batch snapshot,
  `computeTarget`, and the alert-list filters.
- `Edits`: add watch-list, add symbol, delete symbol, toggle flag, and the
  default after a load.
- `Feeds`: the filings filter, tweet grouping and the tweet view, the trade
  view, flagged-first ordering and the flagged symbols of all watch-lists.
- `Page`: the class `WatchlistPage`, whose fields are the state cells and
  whose methods are the handlers and effects.

The I/O is not modelled. Every response a handler or effect would receive
(SignalR batches, HTTP bodies, failures) is a parameter of the method. An
HTTP request the page would send comes back as a value, for example an
`AlertRequest`.

## Model

| member | source | states |
|---|---|---|
| `Quotes.FindQuote` | src/components/dashboard/DashboardDemo.tsx:211 | The quote found is the first of the batch whose symbol equals the row's symbol ignoring case; none is found exactly when no quote matches that way. |
| `Quotes.MergeSymbol` | src/components/dashboard/DashboardDemo.tsx:210-223 | Id, symbol and flag never change. A row that no quote matches is returned unchanged. Otherwise the first matching quote sets the last price. The percent change is set with it only when a baseline exists under the upper-cased symbol; otherwise it keeps its old value. |
| `Quotes.MergeQuotes` | src/components/dashboard/DashboardDemo.tsx:207-225 | Every watch-list is merged, not only the selected one. Count, order and names of watch-lists and rows are kept. Each row is the MergeSymbol of the old row. |
| `Quotes.MergeIdempotent` | src/components/watchlist/watchlistnew.tsx:186-202 | Merging the same batch twice leaves the same watch-lists as merging it once. |
| `Quotes.FindQuoteIgnoresLater` | src/components/dashboard/DashboardDemo.tsx:211 | A quote appended after one that already matches does not change which quote is found. |
| `Quotes.IgnoredQuote` | src/components/dashboard/DashboardDemo.tsx:211-212 | A quote leaves the merge unchanged when an earlier quote in the batch has the same symbol (ignoring case), or when no row holds its symbol. |
| `Quotes.BaselinesKeys` | src/components/watchlist/watchlistnew.tsx:133-139 | A key is in the baseline map exactly when some payload item has a non-empty `Ti`, a numeric `c`, and that upper-cased `Ti`. |
| `Quotes.BaselinesLastWins` | src/components/watchlist/watchlistnew.tsx:135-139 | The value under a key is the `c` of the last item kept under that key. |
| `Quotes.BuildBaselines` | src/components/dashboard/DashboardDemo.tsx:164-171 | The forEach loop builds a fresh map that equals Baselines of the payload's results; a payload without results gives the empty map. |
| `Alerts.MarkTriggered` | src/components/dashboard/DashboardDemo.tsx:235-237 | One firing's update keeps the list's length and order, and sets `triggered` on exactly the alerts with that id. |
| `Alerts.FireQuote` | src/components/dashboard/DashboardDemo.tsx:228-243 | The inner forEach marks the alerts that fire for one quote and appends one notice per firing, in snapshot order. |
| `Alerts.AlertPass` | src/components/dashboard/DashboardDemo.tsx:227-244 | The nested forEach over batch and snapshot leaves the list marked by every firing in order, and appends one notice per firing to the queue. |
| `Alerts.MarkAllAppend` | src/components/watchlist/watchlistnew.tsx:211 | Marking with one list of firings and then another is the same as marking with their concatenation. |
| `Alerts.FiringsForMembers` | src/components/dashboard/DashboardDemo.tsx:229-233 | An alert fires for a quote exactly when it is in the snapshot, is untriggered, its symbol equals the quote's symbol with case, and the price is at or beyond its target in its direction (inclusive; a NaN target never fires). |
| `Alerts.FiringsMembers` | src/components/watchlist/watchlistnew.tsx:206-210 | An alert fires in a batch exactly when it is in the snapshot and passes that test for some quote of the batch. |
| `Alerts.MarkAllEffect` | src/components/watchlist/watchlistnew.tsx:211 | Marking keeps length and order and every field but `triggered`, which becomes true exactly for the ids that fired. |
| `Alerts.PassEffect` | src/components/dashboard/DashboardDemo.tsx:227-241 | After a pass, each alert is unchanged except for its flag. The flag is set exactly when it was set before, or some snapshot alert with the same id fired for some quote. |
| `Alerts.AtMostOncePerBatch` | src/components/dashboard/DashboardDemo.tsx:227-243 | If the batch has no repeated symbol and alert ids are unique, every id fires at most once in a pass. |
| `Alerts.DuplicateQuoteFiresTwice` | src/components/dashboard/DashboardDemo.tsx:227-241 | The snapshot is not refreshed during a pass, so two quotes for one symbol in a batch fire the same alert twice and queue two notices. |
| `Alerts.NoRefireAfterPass` | src/components/dashboard/DashboardDemo.tsx:230 | An alert that fires in a later batch, over the list marked by an earlier pass, has an id that did not fire in the earlier pass. |
| `Alerts.FindSymbol` | src/components/dashboard/DashboardDemo.tsx:79 | The row found is the first whose symbol equals the given one exactly; none is found when no row has it. |
| `Alerts.BaseIndex` | src/components/dashboard/DashboardDemo.tsx:77-86 | The base comes from the first watch-list, in order, whose first row with that exact symbol has a last price that parses to a number. |
| `Alerts.FindBase` | src/components/dashboard/DashboardDemo.tsx:78-86 | The loop finds a base exactly when some watch-list has a numeric price for the symbol, and then it is the price of the first such watch-list. |
| `Alerts.TargetFromBase` | src/components/dashboard/DashboardDemo.tsx:74-84 | A relative input with a base yields base plus the parsed delta, and that is a number. |
| `Alerts.ComputeTarget` | src/components/dashboard/DashboardDemo.tsx:69-89 | The loop with its early return gives Target: base plus delta for a relative input that has a base, otherwise `parseFloat` of the input. |
| `Alerts.TargetCases` | src/components/dashboard/DashboardDemo.tsx:75-88 | A relative input with a base always yields a number. A relative input for which no watch-list has a base gives exactly its signed value. An absolute input ignores the watch-lists. |
| `Alerts.DeleteAlert` | src/components/watchlist/watchlistnew.tsx:407 | Exactly the alerts with that id are removed. Every other alert keeps all its copies, in its original order. |
| `Alerts.AlertsFor` | src/components/watchlist/watchlistnew.tsx:463 | The alert dialog lists exactly the alerts whose symbol equals the given one, every copy of each, in list order. |
| `Numbers.Plus` | src/components/dashboard/DashboardDemo.tsx:83 | `base + delta` is a number exactly when the delta is; NaN absorbs. |
| `Numbers.ParseUnsigned` | src/components/dashboard/DashboardDemo.tsx:89 | A decimal prefix is read exactly when the text starts with a digit, or with a '.' followed by a digit. |
| `Numbers.RelativeParses` | src/components/dashboard/DashboardDemo.tsx:75-76 | Every input matching the relative pattern parses to a number: its sign times its digits and fraction. |
| `Edits.AddWatchlist` | src/components/watchlist/watchlistnew.tsx:243-248 | A blank name after trimming changes nothing. Otherwise an empty watch-list with the trimmed name is appended, and the old length is selected. |
| `Edits.AddWatchlistSelectsIt` | src/components/dashboard/DashboardDemo.tsx:375-381 | After a non-blank add, the selected watch-list is the new, empty one. Its name has no surrounding white space, and the earlier watch-lists are unchanged. |
| `Edits.NextId` | src/components/dashboard/DashboardDemo.tsx:386-388 | The new id is 1 for an empty list, otherwise the last row's id plus one. |
| `Edits.AddSymbol` | src/components/dashboard/DashboardDemo.tsx:383-395 | Text that is blank after trimming changes nothing. Otherwise only the selected watch-list changes: it gains, at its end, one unflagged row with the next id, the trimmed and upper-cased text, "+0.00%" and "0.00". |
| `Edits.AddSymbolKeepsIdsIncreasing` | src/components/watchlist/watchlistnew.tsx:250-256 | Strictly increasing ids stay strictly increasing, and the new id is different from every existing id. |
| `Edits.WithoutId` | src/components/watchlist/watchlistnew.tsx:264 | Exactly the rows with that id go. Every other row keeps all its copies, in its original order. |
| `Edits.DeleteSymbol` | src/components/dashboard/DashboardDemo.tsx:400-407 | Only the selected watch-list changes: it keeps exactly its rows with a different id, every copy of each, in order. |
| `Edits.DeleteUndoesAdd` | src/components/watchlist/watchlistnew.tsx:250-264 | Deleting the id just added restores the watch-lists, when the selected list's ids were increasing. |
| `Edits.ToggleFlag` | src/components/dashboard/DashboardDemo.tsx:360-370 | Only the rows of the selected watch-list with that id change, and only their flag, which flips. |
| `Edits.ToggleFlagTwice` | src/components/dashboard/DashboardDemo.tsx:360-370 | Toggling the same id twice restores the watch-lists. |
| `Edits.Loaded` | src/components/dashboard/DashboardDemo.tsx:284-288 | A load installs the stored watch-lists, or a single empty "Watchlist 1" when there are none, so the result is never empty. |
| `Feeds.FilterFilings` | src/components/dashboard/DashboardDemo.tsx:337-344 | The filings shown are an order-preserving subsequence of those received. A filing is kept, with every copy received, exactly when some trimmed comma-separated part of its symbol field is a current symbol. |
| `Feeds.SingleSymbolFiling` | src/components/watchlist/watchlistnew.tsx:335-337 | A filing whose symbol field has no comma is shown exactly when that field, trimmed, is a current symbol. |
| `Feeds.TwoSymbolFiling` | src/components/watchlist/watchlistnew.tsx:335-337 | A filing for "A,B" is shown exactly when A or B, trimmed, is a current symbol. |
| `Feeds.Mentioning` | src/components/dashboard/DashboardDemo.tsx:308 | Exactly the tweets whose text contains "$" followed by the symbol, every copy of each, in the order received. |
| `Feeds.TweetsFor` | src/components/watchlist/watchlistnew.tsx:302-305 | A symbol's group is at most six tweets that mention it. They are the last six of the mentioning tweets, newest first. |
| `Feeds.GroupedShape` | src/components/watchlist/watchlistnew.tsx:300-306 | `bySym` has one key per distinct symbol of the current watch-list, in first-appearance order, and holds that symbol's group under it. |
| `Feeds.GroupTweets` | src/components/dashboard/DashboardDemo.tsx:305-311 | The forEach loop builds Grouped of the current rows. |
| `Feeds.DisplayedTweetsMention` | src/components/dashboard/DashboardDemo.tsx:496-498 | Every tweet shown is tagged with a current symbol and mentions it as "$symbol". A one-symbol view shows at most six. |
| `Feeds.AllEntries` | src/components/dashboard/DashboardDemo.tsx:497 | No keys give no entries. Every entry is a tweet of the group under one of the listed keys, tagged with that key. Every tweet of every listed group appears, tagged with its key. |
| `Feeds.AllEntriesSnoc` | src/components/dashboard/DashboardDemo.tsx:497 | The entries of one more key come after those of the keys before it, as that key's whole group in order. So the view lists whole groups in key order. |
| `Feeds.DisplayedTweets` | src/components/dashboard/DashboardDemo.tsx:496-498 | The "*" view is AllEntries over the keys in order. Every entry is a tweet of the group under its tag, and every tweet of every group appears, tagged with its key. Any other filter shows the group under its key (null looks up "null"), in order and tagged with that key, or nothing when there is no such group. |
| `Feeds.HiddenShowsNothing` | src/components/watchlist/watchlistnew.tsx:362-364 | With the filter null (tweets hidden), the view looks up the key "null" and shows nothing, unless a watched symbol is literally "null". |
| `Feeds.DisplayedTweetsCapped` | src/components/watchlist/watchlistnew.tsx:362-364 | The "*" view is the first twelve tweets of the full view, or all of them when there are fewer. Other filters are not capped. |
| `Feeds.LongPosts` | src/components/watchlist/watchlistnew.tsx:367 | Exactly the posts whose text is at least five UTF-16 code units long (JavaScript's `.length`), every copy of each, in the order received. |
| `Feeds.DisplayedTrades` | src/components/dashboard/DashboardDemo.tsx:500 | At most six posts at least five UTF-16 code units long: the last six such posts, newest first. |
| `Strings.Utf16Length` | src/components/dashboard/DashboardDemo.tsx:500 | `.length` counts UTF-16 code units: at least one and at most two per character. |
| `Strings.Utf16LengthIsCount` | src/components/watchlist/watchlistnew.tsx:367 | `.length` equals the number of characters exactly when no character lies outside the Basic Multilingual Plane. |
| `Seqs.FlaggedFirst` | src/components/dashboard/DashboardDemo.tsx:505-518 | The reorder is a permutation. No flagged entry follows an unflagged one, and the flagged and unflagged entries each keep their original order. |
| `Feeds.FlaggedAllSymbols` | src/components/dashboard/DashboardDemo.tsx:521-525 | The result holds each symbol flagged in any watch-list, once each. The symbols come in the order their first flagged rows are met, watch-list by watch-list. |
| `Feeds.FlaggedSymbols` | src/components/dashboard/DashboardDemo.tsx:503 | A symbol is in the set exactly when some flagged row of the current watch-list carries it. |
| `Feeds.FlaggedSymbolsInAll` | src/components/dashboard/DashboardDemo.tsx:503-525 | Every flagged symbol of the current watch-list is among the flagged symbols of all watch-lists. |
| `Feeds.ReorderTweets` | src/components/dashboard/DashboardDemo.tsx:505-508 | The tweets are permuted so that those whose symbol is flagged come first. Each part keeps the order shown. |
| `Feeds.ReorderTrades` | src/components/dashboard/DashboardDemo.tsx:510-513 | The posts are permuted so that those whose ticker is flagged come first. Each part keeps the order shown. |
| `Feeds.ReorderFilings` | src/components/dashboard/DashboardDemo.tsx:515-518 | The filings are permuted so that those whose whole symbol field is a flagged symbol come first. Each part keeps the order shown. |
| `Seqs.RemoveAt` | src/components/watchlist/watchlistnew.tsx:551 | Dismissing toast i removes exactly that entry and keeps the order of the rest. An index out of range changes nothing. |
| `Seqs.NewestFirst` | src/components/dashboard/DashboardDemo.tsx:500 | `slice(-n).reverse()`: the last n entries (all if fewer), newest first. |
| `Seqs.Dedup` | src/components/dashboard/DashboardDemo.tsx:521-525 | `Array.from(new Set(..))`: the same values with no repeats. |
| `Seqs.DedupIsSubseq` | src/components/dashboard/DashboardDemo.tsx:521-525 | The de-duplicated list is a subsequence of the input. |
| `Seqs.DedupFirstOrder` | src/components/dashboard/DashboardDemo.tsx:521-525 | De-duplication lists the values in the order of their first occurrences in the input. |
| `Strings.Trim` | src/components/dashboard/DashboardDemo.tsx:376 | The result is an infix of the text with only white space around it. It has no white space at either end, and it is empty exactly when the text is all white space. |
| `Strings.Split` | src/components/dashboard/DashboardDemo.tsx:342 | The parts contain no comma, and joined with commas they give back the text. |
| `Strings.TickerIn` | src/components/dashboard/DashboardDemo.tsx:511 | The ticker is all upper-case letters, and is empty exactly when the text has no upper-case letter. |
| `Strings.TickerIsFirstRun` | src/components/dashboard/DashboardDemo.tsx:511 | The ticker is the whole run of upper-case letters that starts at the text's first upper-case letter. |
| `Strings.TickerOccurs` | src/components/dashboard/DashboardDemo.tsx:511-512 | The ticker occurs in the post's text. |
| `Strings.ContainsIffOccurs` | src/components/dashboard/DashboardDemo.tsx:308 | `includes` holds exactly when the needle occurs at some index. |
| `Page.WatchlistPage.constructor` | src/components/dashboard/DashboardDemo.tsx:94-126 | The initial state is empty lists and maps, watch-list 0 selected, and the tweet filter "*". |
| `Page.WatchlistPage.OnBroadcastQuotes` | src/components/dashboard/DashboardDemo.tsx:205-245 | The batch is merged into the watch-lists with the current baselines. The alert pass runs over the alert list as the batch found it, updating the alerts and the notification queue. Nothing else changes. |
| `Page.WatchlistPage.OnBroadcastFiling` | src/components/watchlist/watchlistnew.tsx:219-221 | The new filing is put in front of the received filings. |
| `Page.WatchlistPage.OnPrevCloses` | src/components/watchlist/watchlistnew.tsx:122-144 | No request is made for an empty current watch-list, and a failed request keeps the old map. Otherwise the map is replaced by the one built from the payload. |
| `Page.WatchlistPage.OnTweets` | src/components/dashboard/DashboardDemo.tsx:292-316 | An empty current watch-list or a non-ok HTTP response clears the groups. Otherwise the groups are rebuilt from the current rows, and the filter returns to "*". |
| `Page.WatchlistPage.OnWatchlistsLoaded` | src/components/watchlist/watchlistnew.tsx:279-291 | A successful load installs Loaded of the stored watch-lists; a failure keeps them. |
| `Page.WatchlistPage.OnAlertsLoaded` | src/components/dashboard/DashboardDemo.tsx:178-189 | A successful load replaces the alert list; a failure keeps it. |
| `Page.WatchlistPage.OnTradesLoaded` | src/components/dashboard/DashboardDemo.tsx:319-325 | A successful load replaces the trade posts; a failure keeps them. |
| `Page.WatchlistPage.OnFilingsLoaded` | src/components/dashboard/DashboardDemo.tsx:328-335 | A successful load replaces the received filings; a failure keeps them. |
| `Page.WatchlistPage.AddWatchlist` | src/components/dashboard/DashboardDemo.tsx:375-381 | Watch-lists and selection become those of Edits.AddWatchlist. |
| `Page.WatchlistPage.AddSymbol` | src/components/watchlist/watchlistnew.tsx:250-261 | The watch-lists become Edits.AddSymbol of the selected one. |
| `Page.WatchlistPage.DeleteSymbol` | src/components/watchlist/watchlistnew.tsx:263-266 | The watch-lists become Edits.DeleteSymbol, and the tweet filter returns to "*". |
| `Page.WatchlistPage.ToggleFlag` | src/components/dashboard/DashboardDemo.tsx:360-373 | The watch-lists become Edits.ToggleFlag of the selected one. |
| `Page.WatchlistPage.SelectWatchlist` | src/components/watchlist/watchlistnew.tsx:514 | The index is selected. When the reset flag is set (as in this file) the tweet filter returns to "*"; otherwise it is kept. |
| `Page.WatchlistPage.ToggleAllTweets` | src/components/watchlist/watchlistnew.tsx:534 | "*" becomes null (hidden); any other filter becomes "*". |
| `Page.WatchlistPage.ToggleSymbolTweets` | src/components/watchlist/watchlistnew.tsx:624 | A filter already on the symbol returns to "*"; any other filter becomes that symbol. |
| `Page.WatchlistPage.InlineInputChange` | src/components/dashboard/DashboardDemo.tsx:434-446 | One field of one row's inputs is replaced, starting from empty inputs for a new row. Other rows' inputs are kept. |
| `Page.WatchlistPage.InlineKeyDown` | src/components/dashboard/DashboardDemo.tsx:474-493 | Any key but Enter, or an empty input, changes nothing and requests nothing. Otherwise an alert is requested: the input's target, above for the upper input or below for the lower, and the row's note. That input and the note are then cleared. |
| `Page.WatchlistPage.AddAlertRequest` | src/components/dashboard/DashboardDemo.tsx:528-538 | No request when the symbol or the target text is empty; otherwise a request with the resolved target. |
| `Page.WatchlistPage.AlertSaved` | src/components/dashboard/DashboardDemo.tsx:467 | The saved alert is appended to the list. |
| `Page.WatchlistPage.DeleteAlert` | src/components/dashboard/DashboardDemo.tsx:558-570 | Once the DELETE request has completed, whatever its status, the alert list becomes Alerts.DeleteAlert of that id. |
| `Page.WatchlistPage.DismissNotification` | src/components/dashboard/DashboardDemo.tsx:816 | The notification queue becomes RemoveAt of that index. |

## Left out

- SignalR is not modelled: negotiation, connection, reconnection, and the `SubL1` subscriptions that re-invoke for every current symbol.
- Every `fetch`, Firebase authentication and id tokens, `saveToFirebase` and `alert()` are not modelled. Their responses are method parameters; their requests are returned values.
- The JSX is not modelled: `linkify`, the pop-out windows, the expanded-tweet and expanded-trade sets, date formatting, and the text fields of the forms.
- Floating point is abstracted. A formatted price is `Fixed2(x)`, with `toFixed(2)` rounding not modelled, and a percent change is `PercentOf(last, base)`, with the arithmetic not modelled. So a zero baseline (an infinite percentage) is not distinguished. Quote prices are reals. Because a formatted price reads back as the unrounded quote, the base that `computeTarget` takes from a row is the exact quote, whereas the page reads back the two-decimal text; a relative target can therefore differ by the rounding.
- `Numbers.ParseUnsigned`: the texts "Infinity" and "-Infinity", which `parseFloat` reads as infinities, read as NaN here, because the model has no infinite numbers.
- `Strings.Upper` folds ASCII letters only. `toUpperCase` also folds other scripts, so symbols outside ASCII are compared more strictly than the pages compare them.
- `Feeds.GroupedShape` orders keys by insertion. `Object.entries` lists integer-like keys (such as "123") first in numeric order, so for such symbols the order of the "*" tweet view is not modelled.
- A notification is the record it is formatted from (symbol, direction, target). The text `🔔 … is … target.toFixed(2)` is not built.
- React scheduling is not modelled. The alert snapshot is the alert list at the moment the batch arrives, so the lag of `priceAlertsRef` behind the list (it syncs after render) is not captured. Handlers run one at a time.
- The filings panel's `filings` cell, which an effect recomputes, is the function `Feeds.FilterFilings` of the received filings and the current rows.
- The alert dialog's `createPriceAlert` in `watchlistnew.tsx` appends the response body without checking the status. Only the append of a saved alert (`AlertSaved`) is modelled; the request body it sends is not.
- `handleAddAlert`'s resetting of the form fields and the default symbol of the bottom form are not modelled; they are text inputs.
- Row ids are unbounded integers. JavaScript's number precision (ids beyond 2^53) is not modelled.
- `src/components/subscriptions/Plans.tsx` is not part of this model.
- `Page.WatchlistPage.OnTweets`: `None` stands for a non-ok HTTP response only. A rejected `fetch` or a body that is not JSON rejects the effect's async function, which has no `try`/`catch`, so the groups stay as they were; in the model that is the method not being called.
- `Page.WatchlistPage.DeleteAlert`: the alert is removed locally once the DELETE request completes, whatever its status, so a refused deletion still disappears from the list. A missing id token or a rejected `fetch` ends the handler first; in the model that is the method not being called.
