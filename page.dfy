/** The page component's state cells and the handlers that replace them. */
module Page {
  import opened Seqs
  import opened Numbers
  import opened Types
  import opened Quotes
  import opened Feeds
  import Alerts
  import Edits

  /** The three inline inputs of one row: upper target, lower target, note. */
  datatype InlineInput = InlineInput(upper: string, lower: string, note: string)

  datatype InlineField = UpperInput | LowerInput | NoteInput

  /** `prev[symbol] || { upper: '', lower: '', note: '' }`. */
  function InlineFor(inputs: map<string, InlineInput>, symbol: string): InlineInput
  {
    if symbol in inputs then inputs[symbol] else InlineInput("", "", "")
  }

  /** The input of the field for a direction: upper for above, lower for below. */
  function BoundText(input: InlineInput, direction: Direction): string
  {
    if direction == Above then input.upper else input.lower
  }

  class WatchlistPage {
    var watchlists: seq<Watchlist>
    var selected: nat
    var prevCloses: map<string, real>
    var alerts: seq<PriceAlert>
    var notifications: seq<Notification>
    var tweetsBySymbol: Record<seq<Tweet>>
    var tweetFilter: Option<string>
    var tradePosts: seq<TradePost>
    var rawFilings: seq<Filing>
    var inlineInputs: map<string, InlineInput>

    /** The state on first render: everything empty, the tweet filter "*". */
    constructor ()
      ensures watchlists == [] && selected == 0 && prevCloses == map[]
      ensures alerts == [] && notifications == []
      ensures tweetsBySymbol == Record([], map[]) && tweetFilter == Some("*")
      ensures tradePosts == [] && rawFilings == [] && inlineInputs == map[]
    {
      watchlists := [];
      selected := 0;
      prevCloses := map[];
      alerts := [];
      notifications := [];
      tweetsBySymbol := Record([], map[]);
      tweetFilter := Some("*");
      tradePosts := [];
      rawFilings := [];
      inlineInputs := map[];
    }

    /** The BroadcastQuotes handler: the batch is merged into every watch-list
        with the current baselines, then the alert pass runs over the alert
        list as it was when the batch arrived. */
    method OnBroadcastQuotes(batch: seq<Quote>)
      modifies this
      ensures watchlists == MergeQuotes(old(watchlists), batch, old(prevCloses))
      ensures alerts == Alerts.MarkAll(old(alerts), Alerts.Firings(batch, old(alerts)))
      ensures notifications == old(notifications) + Alerts.Notices(Alerts.Firings(batch, old(alerts)))
      ensures selected == old(selected) && prevCloses == old(prevCloses)
      ensures tweetsBySymbol == old(tweetsBySymbol) && tweetFilter == old(tweetFilter)
      ensures tradePosts == old(tradePosts) && rawFilings == old(rawFilings) && inlineInputs == old(inlineInputs)
    {
      watchlists := MergeQuotes(watchlists, batch, prevCloses);
      var snapshot := alerts;
      alerts, notifications := Alerts.AlertPass(batch, snapshot, alerts, notifications);
    }

    /** The BroadcastFiling handler: the new filing goes to the front. */
    method OnBroadcastFiling(f: Filing)
      modifies this`rawFilings
      ensures rawFilings == [f] + old(rawFilings)
    {
      rawFilings := [f] + rawFilings;
    }

    /** The previous-close effect: nothing is requested for an empty current
        watch-list and a failed request keeps the old map; otherwise the map
        is replaced by the one built from the payload. */
    method OnPrevCloses(response: PrevCloseResponse)
      modifies this`prevCloses
      ensures Current(watchlists, selected).symbols == [] || response.FetchFailed? ==> prevCloses == old(prevCloses)
      ensures Current(watchlists, selected).symbols != [] && response.Payload? ==>
        prevCloses == (if response.results.Some? then Baselines(response.results.value) else map[])
    {
      if Current(watchlists, selected).symbols == [] || response.FetchFailed? {
        return;
      }
      prevCloses := BuildBaselines(response.results);
    }

    /** The tweets effect: an empty current watch-list or a non-ok HTTP
        response (`None`) clears the groups; otherwise the groups are rebuilt
        and the filter goes back to "*". A rejected `fetch` or unreadable JSON
        ends the effect before any update, which is this method not being
        called. */
    method OnTweets(response: Option<seq<Tweet>>)
      modifies this`tweetsBySymbol, this`tweetFilter
      ensures Current(watchlists, selected).symbols == [] || response.None? ==>
        tweetsBySymbol == Record([], map[]) && tweetFilter == old(tweetFilter)
      ensures Current(watchlists, selected).symbols != [] && response.Some? ==>
        tweetsBySymbol == Grouped(Current(watchlists, selected).symbols, response.value) && tweetFilter == Some("*")
    {
      var rows := Current(watchlists, selected).symbols;
      if rows == [] || response.None? {
        tweetsBySymbol := Record([], map[]);
        return;
      }
      tweetsBySymbol := GroupTweets(rows, response.value);
      tweetFilter := Some("*");
    }

    /** The load effects: a successful response replaces the cell (an empty
        stored list of watch-lists becomes one empty "Watchlist 1"). */
    method OnWatchlistsLoaded(response: Option<seq<Watchlist>>)
      modifies this`watchlists
      ensures response.None? ==> watchlists == old(watchlists)
      ensures response.Some? ==> watchlists == Edits.Loaded(response.value)
    {
      if response.Some? {
        watchlists := Edits.Loaded(response.value);
      }
    }

    method OnAlertsLoaded(response: Option<seq<PriceAlert>>)
      modifies this`alerts
      ensures alerts == if response.Some? then response.value else old(alerts)
    {
      if response.Some? {
        alerts := response.value;
      }
    }

    method OnTradesLoaded(response: Option<seq<TradePost>>)
      modifies this`tradePosts
      ensures tradePosts == if response.Some? then response.value else old(tradePosts)
    {
      if response.Some? {
        tradePosts := response.value;
      }
    }

    method OnFilingsLoaded(response: Option<seq<Filing>>)
      modifies this`rawFilings
      ensures rawFilings == if response.Some? then response.value else old(rawFilings)
    {
      if response.Some? {
        rawFilings := response.value;
      }
    }

    /** addWatchlist. */
    method AddWatchlist(name: string)
      modifies this`watchlists, this`selected
      ensures (watchlists, selected) == Edits.AddWatchlist(old(watchlists), old(selected), name)
    {
      watchlists, selected := Edits.AddWatchlist(watchlists, selected, name).0, Edits.AddWatchlist(watchlists, selected, name).1;
    }

    /** addSymbol. */
    method AddSymbol(text: string)
      modifies this`watchlists
      ensures watchlists == Edits.AddSymbol(old(watchlists), selected, text)
    {
      watchlists := Edits.AddSymbol(watchlists, selected, text);
    }

    /** deleteSymbol: the row goes and the tweet filter returns to "*". */
    method DeleteSymbol(id: int)
      modifies this`watchlists, this`tweetFilter
      ensures watchlists == Edits.DeleteSymbol(old(watchlists), selected, id)
      ensures tweetFilter == Some("*")
    {
      watchlists := Edits.DeleteSymbol(watchlists, selected, id);
      tweetFilter := Some("*");
    }

    /** toggleFlag (DashboardDemo). */
    method ToggleFlag(id: int)
      modifies this`watchlists
      ensures watchlists == Edits.ToggleFlag(old(watchlists), selected, id)
    {
      watchlists := Edits.ToggleFlag(watchlists, selected, id);
    }

    /** The watch-list selector; watchlistnew also resets the tweet filter. */
    method SelectWatchlist(index: nat, resetFilter: bool)
      modifies this`selected, this`tweetFilter
      ensures selected == index
      ensures tweetFilter == if resetFilter then Some("*") else old(tweetFilter)
    {
      selected := index;
      if resetFilter {
        tweetFilter := Some("*");
      }
    }

    /** "Hide All Tweets" / "Show All Tweets" (watchlistnew). */
    method ToggleAllTweets()
      modifies this`tweetFilter
      ensures old(tweetFilter) == Some("*") ==> tweetFilter == None
      ensures old(tweetFilter) != Some("*") ==> tweetFilter == Some("*")
    {
      tweetFilter := if tweetFilter == Some("*") then None else Some("*");
    }

    /** A row's "Show" / "Hide" tweets button (watchlistnew). */
    method ToggleSymbolTweets(symbol: string)
      modifies this`tweetFilter
      ensures old(tweetFilter) == Some(symbol) ==> tweetFilter == Some("*")
      ensures old(tweetFilter) != Some(symbol) ==> tweetFilter == Some(symbol)
    {
      tweetFilter := if tweetFilter == Some(symbol) then Some("*") else Some(symbol);
    }

    /** handleInlineInputChange: one field of one row's inputs is replaced. */
    method InlineInputChange(symbol: string, field: InlineField, value: string)
      modifies this`inlineInputs
      ensures inlineInputs.Keys == old(inlineInputs).Keys + {symbol}
      ensures forall s :: s in old(inlineInputs) && s != symbol ==> inlineInputs[s] == old(inlineInputs)[s]
      ensures var before := InlineFor(old(inlineInputs), symbol);
        inlineInputs[symbol] == match field
          case UpperInput => before.(upper := value)
          case LowerInput => before.(lower := value)
          case NoteInput => before.(note := value)
    {
      var before := InlineFor(inlineInputs, symbol);
      var after := match field
        case UpperInput => before.(upper := value)
        case LowerInput => before.(lower := value)
        case NoteInput => before.(note := value);
      inlineInputs := inlineInputs[symbol := after];
    }

    /** handleInlineKeyDown on the upper (Above) or lower (Below) input: on
        Enter with a non-empty input, the request for a new alert is returned
        with the target the input resolves to and the row's note, and that
        input and the note are cleared. Otherwise nothing happens. */
    method InlineKeyDown(key: string, symbol: string, direction: Direction) returns (request: Option<AlertRequest>)
      modifies this`inlineInputs
      ensures var raw := BoundText(InlineFor(old(inlineInputs), symbol), direction);
        key != "Enter" || raw == "" ==> request.None? && inlineInputs == old(inlineInputs)
      ensures var before := InlineFor(old(inlineInputs), symbol);
        var raw := BoundText(before, direction);
        key == "Enter" && raw != "" ==>
          && request == Some(AlertRequest(symbol, Alerts.Target(raw, symbol, watchlists), direction, before.note))
          && inlineInputs == old(inlineInputs)[symbol := InlineInput(
               if direction == Above then "" else before.upper,
               if direction == Below then "" else before.lower,
               "")]
    {
      var before := InlineFor(inlineInputs, symbol);
      var raw := BoundText(before, direction);
      if key != "Enter" || raw == "" {
        return None;
      }
      var target := Alerts.ComputeTarget(raw, symbol, watchlists);
      request := Some(AlertRequest(symbol, target, direction, before.note));
      inlineInputs := inlineInputs[symbol := InlineInput(
        if direction == Above then "" else before.upper,
        if direction == Below then "" else before.lower,
        "")];
    }

    /** handleAddAlert (DashboardDemo): no request when the symbol or the
        target input is empty; otherwise the target input is resolved. */
    method AddAlertRequest(symbol: string, targetText: string, direction: Direction, note: string)
      returns (request: Option<AlertRequest>)
      ensures symbol == "" || targetText == "" ==> request.None?
      ensures symbol != "" && targetText != "" ==>
        request == Some(AlertRequest(symbol, Alerts.Target(targetText, symbol, watchlists), direction, note))
    {
      if symbol == "" || targetText == "" {
        return None;
      }
      var target := Alerts.ComputeTarget(targetText, symbol, watchlists);
      return Some(AlertRequest(symbol, target, direction, note));
    }

    /** The alert the server saved is appended. */
    method AlertSaved(saved: PriceAlert)
      modifies this`alerts
      ensures alerts == old(alerts) + [saved]
    {
      alerts := alerts + [saved];
    }

    /** handleDeleteAlert / deletePriceAlert, once the DELETE request has
        completed, whatever its status. A missing id token or a rejected
        `fetch` ends the handler before the update, which is this method not
        being called. */
    method DeleteAlert(id: string)
      modifies this`alerts
      ensures alerts == Alerts.DeleteAlert(old(alerts), id)
    {
      alerts := Alerts.DeleteAlert(alerts, id);
    }

    /** A toast's close button: notification i goes, the others keep their order. */
    method DismissNotification(i: int)
      modifies this`notifications
      ensures notifications == RemoveAt(old(notifications), i)
    {
      notifications := RemoveAt(notifications, i);
    }
  }
}
