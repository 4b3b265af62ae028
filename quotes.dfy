/** The BroadcastQuotes display merge and the previous-close (baseline) map. */
module Quotes {
  import opened Strings
  import opened Seqs
  import opened Types

  /** Quote k is the first in the batch whose symbol equals `symbol` ignoring case. */
  predicate FirstMatch(batch: seq<Quote>, symbol: string, k: int)
  {
    && 0 <= k < |batch|
    && Upper(batch[k].s) == Upper(symbol)
    && forall j :: 0 <= j < k ==> Upper(batch[j].s) != Upper(symbol)
  }

  /** No quote of the batch is for `symbol`, ignoring case. */
  predicate NoMatch(batch: seq<Quote>, symbol: string)
  {
    forall k :: 0 <= k < |batch| ==> Upper(batch[k].s) != Upper(symbol)
  }

  /** `data.find(q => q.s.toUpperCase() === symbol.toUpperCase())`, as the index found. */
  function FindQuote(batch: seq<Quote>, symbol: string): (r: Option<nat>)
    ensures r.Some? ==> FirstMatch(batch, symbol, r.value)
    ensures r.None? <==> NoMatch(batch, symbol)
  {
    if |batch| == 0 then None
    else if Upper(batch[0].s) == Upper(symbol) then Some(0)
    else match FindQuote(batch[1..], symbol)
      case None => None
      case Some(k) => Some(k + 1)
  }

  /** What the merge may not change in a row: everything but the two price cells. */
  predicate SameRow(x: WatchlistSymbol, y: WatchlistSymbol)
  {
    x.id == y.id && x.symbol == y.symbol && x.flagged == y.flagged
  }

  /** Same watch-lists, in the same order, with the same names and the same rows. */
  predicate SameShape(a: seq<Watchlist>, b: seq<Watchlist>)
  {
    && |a| == |b|
    && forall i :: 0 <= i < |a| ==>
         && a[i].name == b[i].name
         && |a[i].symbols| == |b[i].symbols|
         && forall j :: 0 <= j < |a[i].symbols| ==> SameRow(a[i].symbols[j], b[i].symbols[j])
  }

  /** One row of the merge: the first quote for the row's symbol (ignoring case)
      sets the last price; the percent change is set with it only when a
      baseline is stored under the upper-cased symbol. */
  function MergeSymbol(s: WatchlistSymbol, batch: seq<Quote>, baselines: map<string, real>): (r: WatchlistSymbol)
    ensures SameRow(s, r)
    ensures NoMatch(batch, s.symbol) ==> r == s
    ensures forall k :: FirstMatch(batch, s.symbol, k) ==>
      && r.lastPrice == Fixed2(batch[k].l)
      && r.percentChange == (if Upper(s.symbol) in baselines
                             then PercentOf(batch[k].l, baselines[Upper(s.symbol)])
                             else s.percentChange)
  {
    match FindQuote(batch, s.symbol)
    case None => s
    case Some(k) =>
      var q := batch[k];
      var key := Upper(q.s);
      if key !in baselines then s.(lastPrice := Fixed2(q.l))
      else s.(lastPrice := Fixed2(q.l), percentChange := PercentOf(q.l, baselines[key]))
  }

  /** The BroadcastQuotes update of the watch-lists: every row of every
      watch-list (not only the selected one) goes through MergeSymbol, and
      nothing but the price cells changes. */
  function MergeQuotes(wls: seq<Watchlist>, batch: seq<Quote>, baselines: map<string, real>): (r: seq<Watchlist>)
    ensures SameShape(wls, r)
    ensures forall i, j :: 0 <= i < |wls| && 0 <= j < |wls[i].symbols| ==>
      r[i].symbols[j] == MergeSymbol(wls[i].symbols[j], batch, baselines)
  {
    seq(|wls|, i requires 0 <= i < |wls| =>
      wls[i].(symbols := seq(|wls[i].symbols|, j requires 0 <= j < |wls[i].symbols| =>
        MergeSymbol(wls[i].symbols[j], batch, baselines))))
  }

  /** A batch delivered twice leaves the same display as delivering it once
      (last value wins; a missing baseline keeps the earlier percent change). */
  lemma MergeIdempotent(wls: seq<Watchlist>, batch: seq<Quote>, baselines: map<string, real>)
    ensures MergeQuotes(MergeQuotes(wls, batch, baselines), batch, baselines) == MergeQuotes(wls, batch, baselines)
  {
    var once := MergeQuotes(wls, batch, baselines);
    var twice := MergeQuotes(once, batch, baselines);
    forall i | 0 <= i < |wls| ensures twice[i] == once[i] {
      forall j | 0 <= j < |wls[i].symbols| ensures twice[i].symbols[j] == once[i].symbols[j] {
        var s := wls[i].symbols[j];
        var m := once[i].symbols[j];
        assert m.symbol == s.symbol;
        match FindQuote(batch, s.symbol)
        case None =>
        case Some(k) =>
          assert FirstMatch(batch, m.symbol, k);
      }
      assert twice[i].symbols == once[i].symbols;
    }
  }

  /** Appending a quote to a batch does not change the merge when an earlier
      quote of the batch already has its symbol (the first one wins). */
  lemma {:induction false} FindQuoteIgnoresLater(batch: seq<Quote>, q: Quote, symbol: string)
    requires FindQuote(batch, symbol).Some?
    ensures FindQuote(batch + [q], symbol) == FindQuote(batch, symbol)
  {
    var k := FindQuote(batch, symbol).value;
    assert FirstMatch(batch + [q], symbol, k);
  }

  /** A quote later in the batch for a symbol an earlier quote already has,
      or a quote for a symbol no watch-list holds, leaves the merge as it was. */
  lemma IgnoredQuote(wls: seq<Watchlist>, batch: seq<Quote>, q: Quote, baselines: map<string, real>)
    requires
      || (exists k :: 0 <= k < |batch| && Upper(batch[k].s) == Upper(q.s))
      || (forall i, j :: 0 <= i < |wls| && 0 <= j < |wls[i].symbols| ==> Upper(wls[i].symbols[j].symbol) != Upper(q.s))
    ensures MergeQuotes(wls, batch + [q], baselines) == MergeQuotes(wls, batch, baselines)
  {
    var a := MergeQuotes(wls, batch + [q], baselines);
    var b := MergeQuotes(wls, batch, baselines);
    forall i | 0 <= i < |wls| ensures a[i] == b[i] {
      forall j | 0 <= j < |wls[i].symbols| ensures a[i].symbols[j] == b[i].symbols[j] {
        var sym := wls[i].symbols[j].symbol;
        if FindQuote(batch, sym).Some? {
          FindQuoteIgnoresLater(batch, q, sym);
        } else {
          assert NoMatch(batch + [q], sym);
        }
      }
      assert a[i].symbols == b[i].symbols;
    }
  }

  /** One entry of the previous-close payload: `Ti` (absent as None) and `c`
      when `typeof c === 'number'` (otherwise None). */
  datatype PrevCloseItem = PrevCloseItem(ti: Option<string>, c: Option<real>)

  /** The outcome of the previous-close request: a failure (status, transport
      or JSON error) or a parsed body whose `results` may be missing. */
  datatype PrevCloseResponse = FetchFailed | Payload(results: Option<seq<PrevCloseItem>>)

  /** `item.Ti && typeof item.c === 'number'`, stored under `key`. */
  predicate KeptUnder(item: PrevCloseItem, key: string)
  {
    item.ti.Some? && item.ti.value != "" && item.c.Some? && Upper(item.ti.value) == key
  }

  /** The map the forEach builds: kept items under their upper-cased ticker,
      later items overwriting earlier ones. */
  function Baselines(items: seq<PrevCloseItem>): map<string, real>
  {
    if |items| == 0 then map[]
    else
      var m := Baselines(items[..|items| - 1]);
      var it := items[|items| - 1];
      if it.ti.Some? && it.ti.value != "" && it.c.Some? then m[Upper(it.ti.value) := it.c.value] else m
  }

  /** A key is in the map exactly when some kept item has that upper-cased ticker. */
  lemma {:induction false} BaselinesKeys(items: seq<PrevCloseItem>, key: string)
    ensures key in Baselines(items) <==> exists i :: 0 <= i < |items| && KeptUnder(items[i], key)
  {
    if |items| > 0 {
      var front := items[..|items| - 1];
      BaselinesKeys(front, key);
      if exists i :: 0 <= i < |front| && KeptUnder(front[i], key) {
        var i :| 0 <= i < |front| && KeptUnder(front[i], key);
        assert KeptUnder(items[i], key);
      }
      if exists i :: 0 <= i < |items| && KeptUnder(items[i], key) {
        var i :| 0 <= i < |items| && KeptUnder(items[i], key);
        if i < |front| { assert KeptUnder(front[i], key); }
      }
    }
  }

  /** The value under a key is the `c` of the last item kept under it. */
  lemma {:induction false} BaselinesLastWins(items: seq<PrevCloseItem>, key: string, i: nat)
    requires i < |items| && KeptUnder(items[i], key)
    requires forall j :: i < j < |items| ==> !KeptUnder(items[j], key)
    ensures key in Baselines(items) && Baselines(items)[key] == items[i].c.value
  {
    if i < |items| - 1 {
      var front := items[..|items| - 1];
      BaselinesLastWins(front, key, i);
    }
  }

  /** The `.then` callback: `json.results?.forEach(..)` fills a fresh map. */
  method BuildBaselines(results: Option<seq<PrevCloseItem>>) returns (m: map<string, real>)
    ensures results.None? ==> m == map[]
    ensures results.Some? ==> m == Baselines(results.value)
  {
    m := map[];
    if results.None? {
      return;
    }
    var items := results.value;
    var i := 0;
    while i < |items|
      invariant 0 <= i <= |items|
      invariant m == Baselines(items[..i])
    {
      var item := items[i];
      if item.ti.Some? && item.ti.value != "" && item.c.Some? {
        m := m[Upper(item.ti.value) := item.c.value];
      }
      assert items[..i + 1][..i] == items[..i];
      i := i + 1;
    }
    assert items[..i] == items;
  }
}
