/** Price alerts: the pass over a quote batch that triggers them, the target
    a user's input resolves to, and removing or listing alerts. */
module Alerts {
  import opened Seqs
  import opened Numbers
  import opened Types

  /** The test the BroadcastQuotes handler applies to an alert of the snapshot
      and a quote: untriggered, the symbol equal with `===` (case matters), and
      the last price at or beyond the target in the alert's direction. */
  predicate Fires(a: PriceAlert, q: Quote)
  {
    && !a.triggered
    && a.symbol == q.s
    && ((a.direction == Above && AtLeast(q.l, a.target)) || (a.direction == Below && AtMost(q.l, a.target)))
  }

  /** The alerts of the snapshot that fire for one quote, in snapshot order. */
  function FiringsFor(q: Quote, snapshot: seq<PriceAlert>): seq<PriceAlert>
  {
    if |snapshot| == 0 then []
    else
      var last := snapshot[|snapshot| - 1];
      FiringsFor(q, snapshot[..|snapshot| - 1]) + (if Fires(last, q) then [last] else [])
  }

  /** Every firing of a batch, in the order the nested forEach meets them:
      quote by quote, and for each quote alert by alert of the snapshot. */
  function Firings(batch: seq<Quote>, snapshot: seq<PriceAlert>): seq<PriceAlert>
  {
    if |batch| == 0 then []
    else Firings(batch[..|batch| - 1], snapshot) + FiringsFor(batch[|batch| - 1], snapshot)
  }

  /** `pa.map(a => a.id === id ? { ...a, triggered: true } : a)`. */
  function MarkTriggered(alerts: seq<PriceAlert>, id: string): (r: seq<PriceAlert>)
    ensures |r| == |alerts|
    ensures forall k :: 0 <= k < |alerts| ==>
      r[k] == if alerts[k].id == id then alerts[k].(triggered := true) else alerts[k]
  {
    seq(|alerts|, k requires 0 <= k < |alerts| =>
      if alerts[k].id == id then alerts[k].(triggered := true) else alerts[k])
  }

  /** The alert list after the queued updates of the given firings, in order. */
  function MarkAll(alerts: seq<PriceAlert>, fired: seq<PriceAlert>): seq<PriceAlert>
  {
    if |fired| == 0 then alerts
    else MarkTriggered(MarkAll(alerts, fired[..|fired| - 1]), fired[|fired| - 1].id)
  }

  function Notice(a: PriceAlert): Notification
  {
    AlertNotice(a.symbol, a.direction, a.target)
  }

  /** One toast per firing, in firing order. */
  function Notices(fired: seq<PriceAlert>): seq<Notification>
  {
    seq(|fired|, i requires 0 <= i < |fired| => Notice(fired[i]))
  }

  lemma MarkAllSnoc(alerts: seq<PriceAlert>, fired: seq<PriceAlert>, a: PriceAlert)
    ensures MarkAll(alerts, fired + [a]) == MarkTriggered(MarkAll(alerts, fired), a.id)
  {
    assert (fired + [a])[..|fired|] == fired;
  }

  lemma NoticesSnoc(fired: seq<PriceAlert>, a: PriceAlert)
    ensures Notices(fired + [a]) == Notices(fired) + [Notice(a)]
  {
  }

  /** Marking in two rounds is marking with the firings of both rounds, in order. */
  lemma {:induction false} MarkAllAppend(alerts: seq<PriceAlert>, first: seq<PriceAlert>, second: seq<PriceAlert>)
    ensures MarkAll(MarkAll(alerts, first), second) == MarkAll(alerts, first + second)
    decreases |second|
  {
    if |second| > 0 {
      var front := second[..|second| - 1];
      MarkAllAppend(alerts, first, front);
      assert (first + second)[..|first + second| - 1] == first + front;
      assert (first + second)[|first + second| - 1] == second[|second| - 1];
    } else {
      assert first + second == first;
    }
  }

  /** The inner forEach of the pass: the snapshot's alerts tested against one quote. */
  method FireQuote(q: Quote, snapshot: seq<PriceAlert>, alerts0: seq<PriceAlert>, queue0: seq<Notification>)
    returns (alerts: seq<PriceAlert>, queue: seq<Notification>)
    ensures alerts == MarkAll(alerts0, FiringsFor(q, snapshot))
    ensures queue == queue0 + Notices(FiringsFor(q, snapshot))
  {
    alerts, queue := alerts0, queue0;
    var j := 0;
    while j < |snapshot|
      invariant 0 <= j <= |snapshot|
      invariant alerts == MarkAll(alerts0, FiringsFor(q, snapshot[..j]))
      invariant queue == queue0 + Notices(FiringsFor(q, snapshot[..j]))
    {
      var alert := snapshot[j];
      assert snapshot[..j + 1][..j] == snapshot[..j];
      if !alert.triggered && alert.symbol == q.s
        && ((alert.direction == Above && AtLeast(q.l, alert.target))
            || (alert.direction == Below && AtMost(q.l, alert.target)))
      {
        MarkAllSnoc(alerts0, FiringsFor(q, snapshot[..j]), alert);
        NoticesSnoc(FiringsFor(q, snapshot[..j]), alert);
        assert FiringsFor(q, snapshot[..j + 1]) == FiringsFor(q, snapshot[..j]) + [alert];
        alerts := MarkTriggered(alerts, alert.id);
        queue := queue + [AlertNotice(alert.symbol, alert.direction, alert.target)];
      } else {
        assert FiringsFor(q, snapshot[..j + 1]) == FiringsFor(q, snapshot[..j]);
      }
      j := j + 1;
    }
    assert snapshot[..j] == snapshot;
  }

  lemma NoticesAppend(first: seq<PriceAlert>, second: seq<PriceAlert>)
    ensures Notices(first + second) == Notices(first) + Notices(second)
  {
  }

  lemma FiringsStep(batch: seq<Quote>, snapshot: seq<PriceAlert>, i: nat)
    requires i < |batch|
    ensures Firings(batch[..i + 1], snapshot) == Firings(batch[..i], snapshot) + FiringsFor(batch[i], snapshot)
  {
    assert batch[..i + 1][..i] == batch[..i];
  }

  /** The alert pass of the BroadcastQuotes handler. For every quote of the
      batch and every alert of `snapshot` (the list as it was before the
      batch) that fires, the alert's id is marked triggered in the current
      list and one notice is appended to the queue. The snapshot is not
      updated during the pass. */
  method AlertPass(batch: seq<Quote>, snapshot: seq<PriceAlert>, alerts0: seq<PriceAlert>, queue0: seq<Notification>)
    returns (alerts: seq<PriceAlert>, queue: seq<Notification>)
    ensures alerts == MarkAll(alerts0, Firings(batch, snapshot))
    ensures queue == queue0 + Notices(Firings(batch, snapshot))
  {
    alerts, queue := alerts0, queue0;
    var i := 0;
    while i < |batch|
      invariant 0 <= i <= |batch|
      invariant alerts == MarkAll(alerts0, Firings(batch[..i], snapshot))
      invariant queue == queue0 + Notices(Firings(batch[..i], snapshot))
    {
      var done := Firings(batch[..i], snapshot);
      var now := FiringsFor(batch[i], snapshot);
      alerts, queue := FireQuote(batch[i], snapshot, alerts, queue);
      MarkAllAppend(alerts0, done, now);
      NoticesAppend(done, now);
      FiringsStep(batch, snapshot, i);
      i := i + 1;
    }
    assert batch[..i] == batch;
  }

  /** An alert is among the firings for a quote exactly when it is in the
      snapshot and passes the test against that quote. */
  lemma {:induction false} FiringsForMembers(q: Quote, snapshot: seq<PriceAlert>, a: PriceAlert)
    ensures a in FiringsFor(q, snapshot) <==> a in snapshot && Fires(a, q)
  {
    if |snapshot| > 0 {
      var front := snapshot[..|snapshot| - 1];
      FiringsForMembers(q, front, a);
      assert snapshot == front + [snapshot[|snapshot| - 1]];
    }
  }

  /** An alert is among the firings of a batch exactly when it is in the
      snapshot and passes the test against some quote of the batch. */
  lemma {:induction false} FiringsMembers(batch: seq<Quote>, snapshot: seq<PriceAlert>, a: PriceAlert)
    ensures a in Firings(batch, snapshot) <==>
      a in snapshot && exists k :: 0 <= k < |batch| && Fires(a, batch[k])
  {
    if |batch| > 0 {
      var front := batch[..|batch| - 1];
      FiringsMembers(front, snapshot, a);
      FiringsForMembers(batch[|batch| - 1], snapshot, a);
      if exists k :: 0 <= k < |batch| && Fires(a, batch[k]) {
        var k :| 0 <= k < |batch| && Fires(a, batch[k]);
        if k < |batch| - 1 { assert Fires(a, front[k]); }
      }
      if exists k :: 0 <= k < |front| && Fires(a, front[k]) {
        var k :| 0 <= k < |front| && Fires(a, front[k]);
        assert Fires(a, batch[k]);
      }
    }
  }

  /** Some firing carries this id. */
  predicate FiredId(fired: seq<PriceAlert>, id: string)
  {
    exists i :: 0 <= i < |fired| && fired[i].id == id
  }

  /** Marking keeps the length and order of the list and changes no field but
      `triggered`, which becomes true exactly for the ids that fired. */
  lemma {:induction false} MarkAllEffect(alerts: seq<PriceAlert>, fired: seq<PriceAlert>)
    ensures |MarkAll(alerts, fired)| == |alerts|
    ensures forall k :: 0 <= k < |alerts| ==>
      MarkAll(alerts, fired)[k] == alerts[k].(triggered := alerts[k].triggered || FiredId(fired, alerts[k].id))
  {
    if |fired| > 0 {
      var front := fired[..|fired| - 1];
      var last := fired[|fired| - 1];
      MarkAllEffect(alerts, front);
      forall k | 0 <= k < |alerts|
        ensures MarkAll(alerts, fired)[k] == alerts[k].(triggered := alerts[k].triggered || FiredId(fired, alerts[k].id))
      {
        if FiredId(front, alerts[k].id) {
          var i :| 0 <= i < |front| && front[i].id == alerts[k].id;
          assert fired[i].id == alerts[k].id;
        }
        if FiredId(fired, alerts[k].id) && last.id != alerts[k].id {
          var i :| 0 <= i < |fired| && fired[i].id == alerts[k].id;
          assert front[i].id == alerts[k].id;
        }
      }
    }
  }

  /** After a pass the list has the same alerts in the same order; alert k is
      triggered exactly when it already was, or some alert of the snapshot
      with its id fired for some quote of the batch. */
  lemma PassEffect(batch: seq<Quote>, snapshot: seq<PriceAlert>, alerts0: seq<PriceAlert>, k: nat)
    requires k < |alerts0|
    ensures |MarkAll(alerts0, Firings(batch, snapshot))| == |alerts0|
    ensures MarkAll(alerts0, Firings(batch, snapshot))[k].(triggered := false) == alerts0[k].(triggered := false)
    ensures MarkAll(alerts0, Firings(batch, snapshot))[k].triggered <==>
      || alerts0[k].triggered
      || exists i, j :: 0 <= i < |batch| && 0 <= j < |snapshot| && snapshot[j].id == alerts0[k].id && Fires(snapshot[j], batch[i])
  {
    var fired := Firings(batch, snapshot);
    MarkAllEffect(alerts0, fired);
    var id := alerts0[k].id;
    if FiredId(fired, id) {
      var i, j := FiredIdWitness(batch, snapshot, id);
    }
    if exists i, j :: 0 <= i < |batch| && 0 <= j < |snapshot| && snapshot[j].id == id && Fires(snapshot[j], batch[i]) {
      var i, j :| 0 <= i < |batch| && 0 <= j < |snapshot| && snapshot[j].id == id && Fires(snapshot[j], batch[i]);
      FiresGivesFiredId(batch, snapshot, i, j);
    }
  }

  /** An id that fired in a pass belongs to a snapshot alert that passed the
      test against some quote of the batch. */
  lemma FiredIdWitness(batch: seq<Quote>, snapshot: seq<PriceAlert>, id: string) returns (i: nat, j: nat)
    requires FiredId(Firings(batch, snapshot), id)
    ensures i < |batch| && j < |snapshot| && snapshot[j].id == id && Fires(snapshot[j], batch[i])
  {
    var fired := Firings(batch, snapshot);
    var m :| 0 <= m < |fired| && fired[m].id == id;
    FiringsMembers(batch, snapshot, fired[m]);
    i :| 0 <= i < |batch| && Fires(fired[m], batch[i]);
    j :| 0 <= j < |snapshot| && snapshot[j] == fired[m];
  }

  /** A snapshot alert that passes the test against a quote of the batch has
      its id among those that fired. */
  lemma FiresGivesFiredId(batch: seq<Quote>, snapshot: seq<PriceAlert>, i: nat, j: nat)
    requires i < |batch| && j < |snapshot| && Fires(snapshot[j], batch[i])
    ensures FiredId(Firings(batch, snapshot), snapshot[j].id)
  {
    var fired := Firings(batch, snapshot);
    FiringsMembers(batch, snapshot, snapshot[j]);
    var m :| 0 <= m < |fired| && fired[m] == snapshot[j];
  }

  /** Ids are unique in a list of alerts. */
  predicate DistinctIds(alerts: seq<PriceAlert>)
  {
    forall i, j :: 0 <= i < j < |alerts| ==> alerts[i].id != alerts[j].id
  }

  lemma {:induction false} FiringsForDistinct(q: Quote, snapshot: seq<PriceAlert>)
    requires DistinctIds(snapshot)
    ensures DistinctIds(FiringsFor(q, snapshot))
  {
    if |snapshot| > 0 {
      var front := snapshot[..|snapshot| - 1];
      var last := snapshot[|snapshot| - 1];
      FiringsForDistinct(q, front);
      var f := FiringsFor(q, front);
      forall i | 0 <= i < |f| ensures f[i].id != last.id {
        FiringsForMembers(q, front, f[i]);
      }
    }
  }

  /** When no two quotes of the batch carry the same symbol (the feed's
      guarantee) and alert ids are unique, every alert fires at most once in a
      pass: the firings carry pairwise different ids. */
  lemma {:induction false} AtMostOncePerBatch(batch: seq<Quote>, snapshot: seq<PriceAlert>)
    requires forall i, j :: 0 <= i < j < |batch| ==> batch[i].s != batch[j].s
    requires DistinctIds(snapshot)
    ensures DistinctIds(Firings(batch, snapshot))
  {
    if |batch| > 0 {
      var front := batch[..|batch| - 1];
      var q := batch[|batch| - 1];
      AtMostOncePerBatch(front, snapshot);
      FiringsForDistinct(q, snapshot);
      var a := Firings(front, snapshot);
      var b := FiringsFor(q, snapshot);
      forall i, j | 0 <= i < |a| && 0 <= j < |b| ensures a[i].id != b[j].id {
        FiringsMembers(front, snapshot, a[i]);
        FiringsForMembers(q, snapshot, b[j]);
        var k :| 0 <= k < |front| && Fires(a[i], front[k]);
        assert a[i].symbol == front[k].s != q.s == b[j].symbol;
        var x :| 0 <= x < |snapshot| && snapshot[x] == a[i];
        var y :| 0 <= y < |snapshot| && snapshot[y] == b[j];
        assert x != y;
      }
    }
  }

  /** The snapshot is read, not updated, during a pass: two quotes for the same
      symbol in one batch fire the same alert twice and queue two notices. */
  lemma DuplicateQuoteFiresTwice()
    ensures
      var alert := PriceAlert("a1", "X", Real(50.0), Above, "", false);
      var batch := [Quote("X", 60.0), Quote("X", 70.0)];
      && Firings(batch, [alert]) == [alert, alert]
      && Notices(Firings(batch, [alert])) == [Notice(alert), Notice(alert)]
  {
    var alert := PriceAlert("a1", "X", Real(50.0), Above, "", false);
    var batch := [Quote("X", 60.0), Quote("X", 70.0)];
    assert [alert][..0] == [];
    assert FiringsFor(batch[0], [alert]) == [alert];
    assert FiringsFor(batch[1], [alert]) == [alert];
    assert batch[..1][..0] == [];
    assert Firings(batch[..1], [alert]) == [alert];
  }

  /** Across batches the flag suppresses repeats: no alert whose id fired in
      one pass fires in any later pass over the updated list. */
  lemma NoRefireAfterPass(first: seq<Quote>, next: seq<Quote>, alerts: seq<PriceAlert>, a: PriceAlert)
    requires a in Firings(next, MarkAll(alerts, Firings(first, alerts)))
    ensures !FiredId(Firings(first, alerts), a.id)
  {
    var after := MarkAll(alerts, Firings(first, alerts));
    FiringsMembers(next, after, a);
    MarkAllEffect(alerts, Firings(first, alerts));
    var k :| 0 <= k < |after| && after[k] == a;
  }

  /** `symbols.find(s => s.symbol === symbol)`, as the index of the row found. */
  function FindSymbol(symbols: seq<WatchlistSymbol>, symbol: string): (r: Option<nat>)
    ensures r.Some? ==> r.value < |symbols| && symbols[r.value].symbol == symbol
    ensures r.Some? ==> forall j :: 0 <= j < r.value ==> symbols[j].symbol != symbol
    ensures r.None? ==> forall j :: 0 <= j < |symbols| ==> symbols[j].symbol != symbol
  {
    if |symbols| == 0 then None
    else if symbols[0].symbol == symbol then Some(0)
    else match FindSymbol(symbols[1..], symbol)
      case None => None
      case Some(j) => Some(j + 1)
  }

  /** The base a watch-list offers for `symbol`: `parseFloat` of the last price
      of its first row with exactly that symbol; NaN when there is no such row. */
  function RowPrice(wl: Watchlist, symbol: string): Num
  {
    match FindSymbol(wl.symbols, symbol)
    case None => NaN
    case Some(j) => ParsePrice(wl.symbols[j].lastPrice)
  }

  /** The first watch-list, in order, whose RowPrice is a number. */
  function BaseIndex(wls: seq<Watchlist>, symbol: string): (r: Option<nat>)
    ensures r.Some? ==> r.value < |wls| && RowPrice(wls[r.value], symbol).Real?
    ensures r.Some? ==> forall j :: 0 <= j < r.value ==> RowPrice(wls[j], symbol).NaN?
    ensures r.None? ==> forall j :: 0 <= j < |wls| ==> RowPrice(wls[j], symbol).NaN?
  {
    if |wls| == 0 then None
    else if RowPrice(wls[0], symbol).Real? then Some(0)
    else
      match BaseIndex(wls[1..], symbol)
      case None => None
      case Some(j) => Some(j + 1)
  }

  /** Index i is the first watch-list with a numeric price for the symbol. */
  lemma BaseIndexAt(wls: seq<Watchlist>, symbol: string, i: nat)
    requires i < |wls| && RowPrice(wls[i], symbol).Real?
    requires forall j :: 0 <= j < i ==> RowPrice(wls[j], symbol).NaN?
    ensures BaseIndex(wls, symbol) == Some(i)
  {
  }

  /** The target an input denotes: a relative input ("+5", "-2.5") added to
      the base price when there is one; otherwise the input read as an
      absolute price (NaN when it does not start like a number). */
  function Target(input: string, symbol: string, wls: seq<Watchlist>): Num
  {
    if IsRelative(input) && BaseIndex(wls, symbol).Some?
    then Real(RowPrice(wls[BaseIndex(wls, symbol).value], symbol).v + RelativeValue(input))
    else ParseFloat(input)
  }

  /** The loop of computeTarget: the first watch-list, in order, whose row for
      the symbol has a numeric last price gives the base; none when there is
      no such watch-list. */
  method FindBase(symbol: string, wls: seq<Watchlist>) returns (base: Option<real>)
    ensures base.None? <==> BaseIndex(wls, symbol).None?
    ensures base.Some? ==> base.value == RowPrice(wls[BaseIndex(wls, symbol).value], symbol).v
  {
    var i := 0;
    while i < |wls|
      invariant 0 <= i <= |wls|
      invariant forall j :: 0 <= j < i ==> RowPrice(wls[j], symbol).NaN?
    {
      var price := RowPrice(wls[i], symbol);
      if price.Real? {
        BaseIndexAt(wls, symbol, i);
        return Some(price.v);
      }
      i := i + 1;
    }
    return None;
  }

  /** computeTarget: a relative input is added to the base when there is
      one; otherwise the input is read as an absolute price. */
  method ComputeTarget(input: string, symbol: string, wls: seq<Watchlist>) returns (t: Num)
    ensures t == Target(input, symbol, wls)
  {
    if IsRelative(input) {
      var delta := ParseFloat(input);
      var base := FindBase(symbol, wls);
      if base.Some? {
        TargetFromBase(input, symbol, wls);
        return Plus(base.value, delta);
      }
    }
    return ParseFloat(input);
  }

  /** With a relative input and a base price, the target is the base plus the
      parsed delta, and a number. */
  lemma TargetFromBase(input: string, symbol: string, wls: seq<Watchlist>)
    requires IsRelative(input) && BaseIndex(wls, symbol).Some?
    ensures var base := RowPrice(wls[BaseIndex(wls, symbol).value], symbol).v;
      Target(input, symbol, wls) == Plus(base, ParseFloat(input)) && Plus(base, ParseFloat(input)).Real?
  {
    RelativeParses(input);
  }

  /** A relative input resolves to a number whenever some watch-list has a
      numeric price for the symbol; an absolute input ignores the watch-lists. */
  lemma TargetCases(input: string, symbol: string, wls: seq<Watchlist>)
    ensures IsRelative(input) && BaseIndex(wls, symbol).Some? ==> Target(input, symbol, wls).Real?
    ensures !IsRelative(input) ==> Target(input, symbol, wls) == Target(input, symbol, [])
    ensures IsRelative(input) ==> Target(input, symbol, []) == Real(RelativeValue(input))
    ensures IsRelative(input) && BaseIndex(wls, symbol).None? ==>
      Target(input, symbol, wls) == Real(RelativeValue(input))
  {
    if IsRelative(input) { RelativeParses(input); }
  }

  /** `pa.filter(a => a.id !== id)`: exactly the alerts with that id go, the
      rest keep their order. */
  function DeleteAlert(alerts: seq<PriceAlert>, id: string): (r: seq<PriceAlert>)
    ensures forall a :: a in r <==> a in alerts && a.id != id
    ensures forall a :: multiset(r)[a] == if a.id != id then multiset(alerts)[a] else 0
    ensures IsSubseq(r, alerts)
  {
    FilterIsSubseq(alerts, (a: PriceAlert) => a.id != id);
    FilterCounts(alerts, (a: PriceAlert) => a.id != id);
    Filter(alerts, (a: PriceAlert) => a.id != id)
  }

  /** The alerts the edit dialog lists for one symbol (exact match), in order. */
  function AlertsFor(alerts: seq<PriceAlert>, symbol: string): (r: seq<PriceAlert>)
    ensures forall a :: a in r <==> a in alerts && a.symbol == symbol
    ensures forall a :: multiset(r)[a] == if a.symbol == symbol then multiset(alerts)[a] else 0
    ensures IsSubseq(r, alerts)
  {
    FilterIsSubseq(alerts, (a: PriceAlert) => a.symbol == symbol);
    FilterCounts(alerts, (a: PriceAlert) => a.symbol == symbol);
    Filter(alerts, (a: PriceAlert) => a.symbol == symbol)
  }
}
