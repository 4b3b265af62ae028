/** The records both watch-list pages keep in their state. */
module Types {
  import opened Seqs
  import opened Numbers

  /** The text of a "Last" cell. */
  datatype Price =
    | Fixed2(x: real)       // `x.toFixed(2)` of a quote's last price (rounding abstracted)
    | PriceText(s: string)  // any other text: "0.00" for a new entry, or as loaded

  /** The text of a "% Change" cell. */
  datatype Change =
    | PercentOf(last: real, base: real)  // `${(((last - base) / base) * 100).toFixed(2)}%`
    | ChangeText(s: string)              // any other text: "+0.00%" for a new entry, or as loaded

  /** `parseFloat(lastPrice)`. A formatted price reads back as the price
      itself: the rounding of `toFixed(2)` is ignored, so a base that
      computeTarget reads from a row is the unrounded quote, where the page
      reads the two-decimal text. */
  function ParsePrice(p: Price): Num
  {
    match p
    case Fixed2(x) => Real(x)
    case PriceText(s) => ParseFloat(s)
  }

  /** One row of a watch-list; `flagged` is false when the field is absent. */
  datatype WatchlistSymbol = WatchlistSymbol(
    id: int, symbol: string, percentChange: Change, lastPrice: Price, flagged: bool)

  datatype Watchlist = Watchlist(name: string, symbols: seq<WatchlistSymbol>)

  /** One entry of a BroadcastQuotes batch: symbol `s`, last price `l`. */
  datatype Quote = Quote(s: string, l: real)

  datatype Direction = Above | Below

  datatype PriceAlert = PriceAlert(
    id: string, symbol: string, target: Num, direction: Direction, note: string, triggered: bool)

  /** The toast `🔔 ${symbol} is ${direction} ${target.toFixed(2)}`. */
  datatype Notification = AlertNotice(symbol: string, direction: Direction, target: Num)

  /** An alert the page asks the server to save (the body of the POST). */
  datatype AlertRequest = AlertRequest(symbol: string, target: Num, direction: Direction, note: string)

  datatype Tweet = Tweet(id: string, username: string, createdAt: string, text: string, symbol: Option<string>)

  datatype TradePost = TradePost(id: string, source: string, content: string, saveTime: string)

  datatype Filing = Filing(symbol: string, form: string, dcn: string, cik: int, saveTime: string, url: string)

  /** `watchlists[selectedWatchlistIndex] || { name: '', symbols: [] }`. */
  function Current(wls: seq<Watchlist>, sel: nat): Watchlist
  {
    if sel < |wls| then wls[sel] else Watchlist("", [])
  }
}
