/** The side panels of the pages: filings for the current watch-list, tweets
    grouped by symbol and the tweet view, the trade-exchange posts, the
    flagged-first ordering of all three, and the flagged symbols. */
module Feeds {
  import opened Strings
  import opened Seqs
  import opened Types

  // ─── Filings ────────────────────────────────────────────────────────────────

  /** `new Set(current.symbols.map(s => s.symbol))`. */
  function Allowed(rows: seq<WatchlistSymbol>): set<string>
  {
    set i | 0 <= i < |rows| :: rows[i].symbol
  }

  /** `f.symbol.split(',').some(sym => allowed.has(sym.trim()))`. */
  predicate FilingMatches(f: Filing, allowed: set<string>)
  {
    var parts := Split(f.symbol, ',');
    exists k :: 0 <= k < |parts| && Trim(parts[k]) in allowed
  }

  /** The filings panel: the received filings that name a symbol of the
      current watch-list, in the order received. */
  function FilterFilings(raw: seq<Filing>, rows: seq<WatchlistSymbol>): (r: seq<Filing>)
    ensures IsSubseq(r, raw)
    ensures forall f :: f in r <==> f in raw && FilingMatches(f, Allowed(rows))
    ensures forall f :: multiset(r)[f] == if FilingMatches(f, Allowed(rows)) then multiset(raw)[f] else 0
  {
    var allowed := Allowed(rows);
    FilterIsSubseq(raw, (f: Filing) => FilingMatches(f, allowed));
    FilterCounts(raw, (f: Filing) => FilingMatches(f, allowed));
    Filter(raw, (f: Filing) => FilingMatches(f, allowed))
  }

  /** A filing for a single symbol is shown exactly when its symbol field,
      trimmed, is a symbol of the current watch-list. */
  lemma SingleSymbolFiling(f: Filing, rows: seq<WatchlistSymbol>)
    requires ',' !in f.symbol
    ensures FilingMatches(f, Allowed(rows)) <==> Trim(f.symbol) in Allowed(rows)
  {
    SplitWithoutSeparator(f.symbol, ',');
    var parts := Split(f.symbol, ',');
    if Trim(f.symbol) in Allowed(rows) {
      assert Trim(parts[0]) in Allowed(rows);
    }
  }

  /** A filing that names two companies ("AAPL, MSFT") is shown when either
      one, trimmed, is a symbol of the current watch-list. */
  lemma TwoSymbolFiling(f: Filing, a: string, b: string, rows: seq<WatchlistSymbol>)
    requires f.symbol == a + [','] + b && ',' !in a && ',' !in b
    ensures FilingMatches(f, Allowed(rows)) <==> Trim(a) in Allowed(rows) || Trim(b) in Allowed(rows)
  {
    SplitAtSeparator(a, b, ',');
    var parts := Split(f.symbol, ',');
    var allowed := Allowed(rows);
    assert parts == [a, b];
    if Trim(a) in allowed {
      assert Trim(parts[0]) in allowed;
    }
    if Trim(b) in allowed {
      assert Trim(parts[1]) in allowed;
    }
  }

  // ─── Tweets ─────────────────────────────────────────────────────────────────

  /** `t.text.includes(`$${sym}`)`. */
  predicate Mentions(t: Tweet, sym: string)
  {
    Contains(t.text, "$" + sym)
  }

  /** The tweets that mention `$sym`, in the order received. */
  function Mentioning(all: seq<Tweet>, sym: string): (m: seq<Tweet>)
    ensures forall i :: 0 <= i < |m| ==> m[i] in all && Mentions(m[i], sym)
    ensures forall i :: 0 <= i < |all| && Mentions(all[i], sym) ==> all[i] in m
    ensures forall t :: multiset(m)[t] == if Mentions(t, sym) then multiset(all)[t] else 0
    ensures IsSubseq(m, all)
  {
    FilterIsSubseq(all, (t: Tweet) => Mentions(t, sym));
    FilterCounts(all, (t: Tweet) => Mentions(t, sym));
    Filter(all, (t: Tweet) => Mentions(t, sym))
  }

  /** One group of `bySym`: the last six tweets mentioning `$sym`, newest first. */
  function TweetsFor(all: seq<Tweet>, sym: string): (r: seq<Tweet>)
    ensures |r| <= 6
    ensures forall i :: 0 <= i < |r| ==> r[i] in all && Mentions(r[i], sym)
    ensures var m := Mentioning(all, sym);
      && |r| == (if |m| < 6 then |m| else 6)
      && forall i :: 0 <= i < |r| ==> r[i] == m[|m| - 1 - i]
  {
    NewestFirst(Mentioning(all, sym), 6)
  }

  /** A JavaScript object used as a dictionary: its string keys in insertion
      order, and the value under each. */
  datatype Record<V> = Record(keys: seq<string>, values: map<string, V>)

  /** The keys listed are exactly the keys mapped, each listed once. */
  ghost predicate ValidRecord<V>(rec: Record<V>)
  {
    && (forall k :: k in rec.values <==> k in rec.keys)
    && (forall i, j :: 0 <= i < j < |rec.keys| ==> rec.keys[i] != rec.keys[j])
  }

  /** `obj[k] = v`: a new key goes to the end; an existing key keeps its place. */
  function Put<V>(rec: Record<V>, k: string, v: V): (r: Record<V>)
    ensures ValidRecord(rec) ==> ValidRecord(r)
  {
    Record(if k in rec.values then rec.keys else rec.keys + [k], rec.values[k := v])
  }

  /** The record the tweets effect builds, row by row of the current watch-list. */
  function Grouped(rows: seq<WatchlistSymbol>, all: seq<Tweet>): Record<seq<Tweet>>
  {
    if |rows| == 0 then Record([], map[])
    else
      var last := rows[|rows| - 1];
      Put(Grouped(rows[..|rows| - 1], all), last.symbol, TweetsFor(all, last.symbol))
  }

  /** The symbols of the rows, in order. */
  function Names(rows: seq<WatchlistSymbol>): (r: seq<string>)
    ensures |r| == |rows| && forall i :: 0 <= i < |rows| ==> r[i] == rows[i].symbol
  {
    seq(|rows|, i requires 0 <= i < |rows| => rows[i].symbol)
  }

  /** `bySym` has one key per distinct symbol of the current watch-list, in
      the order the symbols first appear, and under each key that symbol's
      tweets. */
  lemma {:induction false} GroupedShape(rows: seq<WatchlistSymbol>, all: seq<Tweet>)
    ensures ValidRecord(Grouped(rows, all))
    ensures Grouped(rows, all).keys == Dedup(Names(rows))
    ensures forall k :: k in Grouped(rows, all).values ==> Grouped(rows, all).values[k] == TweetsFor(all, k)
  {
    GroupedKeys(rows, all);
    GroupedValues(rows, all);
  }

  lemma {:induction false} GroupedKeys(rows: seq<WatchlistSymbol>, all: seq<Tweet>)
    ensures ValidRecord(Grouped(rows, all))
    ensures Grouped(rows, all).keys == Dedup(Names(rows))
  {
    if |rows| > 0 {
      var n := |rows| - 1;
      var front := rows[..n];
      GroupedKeys(front, all);
      var g := Grouped(front, all);
      var sym := rows[n].symbol;
      assert Names(rows)[..n] == Names(front);
      assert Names(rows)[n] == sym;
      assert sym in g.values <==> sym in g.keys;
    }
  }

  lemma {:induction false} GroupedValues(rows: seq<WatchlistSymbol>, all: seq<Tweet>)
    ensures forall k :: k in Grouped(rows, all).values ==> Grouped(rows, all).values[k] == TweetsFor(all, k)
  {
    if |rows| > 0 {
      GroupedValues(rows[..|rows| - 1], all);
    }
  }

  /** The tweets effect's loop: `bySym[s.symbol] = ...` for every row in turn. */
  method GroupTweets(rows: seq<WatchlistSymbol>, all: seq<Tweet>) returns (bySym: Record<seq<Tweet>>)
    ensures bySym == Grouped(rows, all)
  {
    bySym := Record([], map[]);
    var i := 0;
    while i < |rows|
      invariant 0 <= i <= |rows|
      invariant bySym == Grouped(rows[..i], all)
    {
      var s := rows[i];
      bySym := Put(bySym, s.symbol, TweetsFor(all, s.symbol));
      assert rows[..i + 1][..i] == rows[..i];
      i := i + 1;
    }
    assert rows[..i] == rows;
  }

  /** `arr.map(t => ({ ...t, symbol: sym }))`. */
  function Tagged(ts: seq<Tweet>, sym: string): (r: seq<Tweet>)
    ensures |r| == |ts|
    ensures forall i :: 0 <= i < |ts| ==> r[i] == ts[i].(symbol := Some(sym))
  {
    seq(|ts|, i requires 0 <= i < |ts| => ts[i].(symbol := Some(sym)))
  }

  /** `t` is some tweet of the group under its own tag, re-tagged. */
  predicate FromGroup(t: Tweet, values: map<string, seq<Tweet>>)
  {
    && t.symbol.Some? && t.symbol.value in values
    && exists j :: 0 <= j < |values[t.symbol.value]| && t == values[t.symbol.value][j].(symbol := t.symbol)
  }

  /** Every entry of a tagged group comes from that group. */
  lemma TaggedFromGroup(k: string, values: map<string, seq<Tweet>>)
    ensures k in values ==>
      forall i :: 0 <= i < |values[k]| ==> FromGroup(Tagged(values[k], k)[i], values)
  {
    forall i | k in values && 0 <= i < |values[k]| ensures FromGroup(Tagged(values[k], k)[i], values) {
      var t := Tagged(values[k], k)[i];
      assert t == values[k][i].(symbol := t.symbol);
    }
  }

  /** `Object.entries(obj).flatMap(([sym, arr]) => tagged arr)`, in key order. */
  function AllEntries(keys: seq<string>, values: map<string, seq<Tweet>>): (r: seq<Tweet>)
    ensures keys == [] ==> r == []
    ensures forall i :: 0 <= i < |r| ==>
      r[i].symbol.Some? && r[i].symbol.value in keys && FromGroup(r[i], values)
    ensures forall k, j :: k in keys && k in values && 0 <= j < |values[k]| ==>
      values[k][j].(symbol := Some(k)) in r
  {
    if |keys| == 0 then []
    else
      var head := if keys[0] in values then Tagged(values[keys[0]], keys[0]) else [];
      TaggedFromGroup(keys[0], values);
      head + AllEntries(keys[1..], values)
  }

  /** The entries of one more key follow those of the keys before it, so the
      view lists whole groups in key order. */
  lemma {:induction false} AllEntriesSnoc(keys: seq<string>, k: string, values: map<string, seq<Tweet>>)
    ensures AllEntries(keys + [k], values) ==
      AllEntries(keys, values) + (if k in values then Tagged(values[k], k) else [])
  {
    if |keys| > 0 {
      assert (keys + [k])[1..] == keys[1..] + [k];
      AllEntriesSnoc(keys[1..], k, values);
    } else {
      assert keys + [k] == [k];
    }
  }

  /** The key the tweet filter looks up: `null` becomes the key "null". */
  function FilterKey(filter: Option<string>): string
  {
    match filter
    case None => "null"
    case Some(k) => k
  }

  /** displayedTweets: for the filter "*" every group, tagged with its key;
      for any other filter (a symbol, or null when hidden) the group under
      that key, or nothing. */
  function DisplayedTweets(filter: Option<string>, bySym: Record<seq<Tweet>>): (r: seq<Tweet>)
    ensures filter == Some("*") ==> r == AllEntries(bySym.keys, bySym.values)
    ensures filter == Some("*") ==> forall i :: 0 <= i < |r| ==>
      r[i].symbol.Some? && r[i].symbol.value in bySym.keys && FromGroup(r[i], bySym.values)
    ensures filter == Some("*") ==> forall k, j ::
      k in bySym.keys && k in bySym.values && 0 <= j < |bySym.values[k]| ==>
      bySym.values[k][j].(symbol := Some(k)) in r
    ensures filter != Some("*") && FilterKey(filter) !in bySym.values ==> r == []
    ensures filter != Some("*") && FilterKey(filter) in bySym.values ==>
      var group := bySym.values[FilterKey(filter)];
      |r| == |group| && forall i :: 0 <= i < |r| ==> r[i] == group[i].(symbol := Some(FilterKey(filter)))
  {
    if filter == Some("*") then AllEntries(bySym.keys, bySym.values)
    else
      var k := FilterKey(filter);
      if k in bySym.values then Tagged(bySym.values[k], k) else []
  }

  /** watchlistnew's variant: the "*" view shows only its first twelve tweets. */
  function DisplayedTweetsCapped(filter: Option<string>, bySym: Record<seq<Tweet>>): (r: seq<Tweet>)
    ensures filter == Some("*") ==> r <= DisplayedTweets(filter, bySym)
    ensures filter == Some("*") ==>
      |r| == if |DisplayedTweets(filter, bySym)| < 12 then |DisplayedTweets(filter, bySym)| else 12
    ensures filter != Some("*") ==> r == DisplayedTweets(filter, bySym)
  {
    if filter == Some("*") then Take(DisplayedTweets(filter, bySym), 12) else DisplayedTweets(filter, bySym)
  }

  /** Every group mentions its own key. */
  predicate GroupsMention(values: map<string, seq<Tweet>>)
  {
    forall k, j :: k in values && 0 <= j < |values[k]| ==> Mentions(values[k][j], k)
  }

  lemma {:induction false} AllEntriesMention(keys: seq<string>, values: map<string, seq<Tweet>>)
    requires GroupsMention(values)
    ensures forall i :: 0 <= i < |AllEntries(keys, values)| ==>
      var t := AllEntries(keys, values)[i];
      t.symbol.Some? && t.symbol.value in keys && Mentions(t, t.symbol.value)
  {
    if |keys| > 0 {
      AllEntriesMention(keys[1..], values);
    }
  }

  /** Every group of `bySym` mentions its key, and every key is a watched symbol. */
  lemma GroupedMention(rows: seq<WatchlistSymbol>, all: seq<Tweet>)
    ensures GroupsMention(Grouped(rows, all).values)
    ensures forall k :: k in Grouped(rows, all).keys ==> k in Names(rows)
  {
    var g := Grouped(rows, all);
    GroupedShape(rows, all);
    forall k | k in g.keys ensures k in Names(rows) {
      var i :| 0 <= i < |g.keys| && g.keys[i] == k;
    }
  }

  /** Every tweet shown carries a symbol of the current watch-list and
      mentions it as `$symbol`; a single-symbol view shows at most six. */
  lemma DisplayedTweetsMention(filter: Option<string>, rows: seq<WatchlistSymbol>, all: seq<Tweet>)
    ensures var shown := DisplayedTweets(filter, Grouped(rows, all));
      && (filter != Some("*") ==> |shown| <= 6)
      && forall i :: 0 <= i < |shown| ==>
           shown[i].symbol.Some? && shown[i].symbol.value in Names(rows) && Mentions(shown[i], shown[i].symbol.value)
  {
    var g := Grouped(rows, all);
    GroupedMention(rows, all);
    if filter == Some("*") {
      AllEntriesMention(g.keys, g.values);
    } else {
      GroupedShape(rows, all);
    }
  }

  /** Hiding the tweets (filter null) shows nothing unless a watched symbol is
      literally "null"; addSymbol upper-cases, so it can only come from a load. */
  lemma HiddenShowsNothing(rows: seq<WatchlistSymbol>, all: seq<Tweet>)
    requires forall i :: 0 <= i < |rows| ==> rows[i].symbol != "null"
    ensures DisplayedTweets(None, Grouped(rows, all)) == []
  {
    GroupedKeys(rows, all);
    GroupedMention(rows, all);
    assert "null" !in Names(rows);
  }

  // ─── Trade exchange ─────────────────────────────────────────────────────────

  /** The posts at least five UTF-16 code units long, in the order received. */
  function LongPosts(posts: seq<TradePost>): (m: seq<TradePost>)
    ensures forall i :: 0 <= i < |m| ==> m[i] in posts && Utf16Length(m[i].content) >= 5
    ensures forall i :: 0 <= i < |posts| && Utf16Length(posts[i].content) >= 5 ==> posts[i] in m
    ensures forall p :: multiset(m)[p] == if Utf16Length(p.content) >= 5 then multiset(posts)[p] else 0
    ensures IsSubseq(m, posts)
  {
    FilterIsSubseq(posts, (p: TradePost) => Utf16Length(p.content) >= 5);
    FilterCounts(posts, (p: TradePost) => Utf16Length(p.content) >= 5);
    Filter(posts, (p: TradePost) => Utf16Length(p.content) >= 5)
  }

  /** displayedTrades: the last six posts at least five UTF-16 code units long, newest first. */
  function DisplayedTrades(posts: seq<TradePost>): (r: seq<TradePost>)
    ensures |r| <= 6
    ensures forall i :: 0 <= i < |r| ==> r[i] in posts && Utf16Length(r[i].content) >= 5
    ensures var m := LongPosts(posts);
      && |r| == (if |m| < 6 then |m| else 6)
      && forall i :: 0 <= i < |r| ==> r[i] == m[|m| - 1 - i]
  {
    NewestFirst(LongPosts(posts), 6)
  }

  // ─── Flagged ────────────────────────────────────────────────────────────────

  /** flaggedSymbols: the symbols of the flagged rows of the current watch-list. */
  function FlaggedSymbols(current: Watchlist): (r: set<string>)
    ensures forall s :: s in r <==> s in Names(Filter(current.symbols, IsFlagged))
  {
    var rows := current.symbols;
    var r := set i | 0 <= i < |rows| && rows[i].flagged :: rows[i].symbol;
    assert forall s :: s in r <==> exists j :: 0 <= j < |rows| && IsFlagged(rows[j]) && rows[j].symbol == s;
    assert forall s :: s in r <==> s in Names(Filter(rows, IsFlagged)) by {
      forall s { FlaggedRowNames(rows, s); }
    }
    r
  }

  /** The current watch-list's flagged symbols are among flaggedAllSymbols. */
  lemma FlaggedSymbolsInAll(wls: seq<Watchlist>, sel: nat)
    requires sel < |wls|
    ensures forall s :: s in FlaggedSymbols(wls[sel]) ==> s in FlaggedAllSymbols(wls)
  {
    forall s | s in FlaggedSymbols(wls[sel]) ensures s in FlaggedAllSymbols(wls) {
      var j := FlaggedNameHasRow(wls[sel].symbols, s);
      assert FlaggedAt(wls, s, sel, j);
    }
  }

  /** A tweet counts as flagged when its symbol is flagged. */
  function TweetFlagged(flagged: set<string>): Tweet -> bool
  {
    (t: Tweet) => t.symbol.Some? && t.symbol.value in flagged
  }

  /** A post counts as flagged when its ticker is flagged. */
  function TradeFlagged(flagged: set<string>): TradePost -> bool
  {
    (p: TradePost) => TickerIn(p.content) in flagged
  }

  /** A filing counts as flagged when its whole symbol field is flagged. */
  function FilingFlagged(flagged: set<string>): Filing -> bool
  {
    (f: Filing) => f.symbol in flagged
  }

  /** reorderedTweets: the same tweets, those of flagged symbols first, each
      part in the order shown. */
  function ReorderTweets(shown: seq<Tweet>, flagged: set<string>): (r: seq<Tweet>)
    ensures multiset(r) == multiset(shown)
    ensures forall i, j :: 0 <= i < j < |r| && !TweetFlagged(flagged)(r[i]) ==> !TweetFlagged(flagged)(r[j])
    ensures Filter(r, TweetFlagged(flagged)) == Filter(shown, TweetFlagged(flagged))
    ensures Filter(r, Not(TweetFlagged(flagged))) == Filter(shown, Not(TweetFlagged(flagged)))
  {
    FlaggedFirst(shown, TweetFlagged(flagged))
  }

  /** reorderedTrades: the same posts, those whose ticker is flagged first,
      each part in the order shown. */
  function ReorderTrades(shown: seq<TradePost>, flagged: set<string>): (r: seq<TradePost>)
    ensures multiset(r) == multiset(shown)
    ensures forall i, j :: 0 <= i < j < |r| && !TradeFlagged(flagged)(r[i]) ==> !TradeFlagged(flagged)(r[j])
    ensures Filter(r, TradeFlagged(flagged)) == Filter(shown, TradeFlagged(flagged))
    ensures Filter(r, Not(TradeFlagged(flagged))) == Filter(shown, Not(TradeFlagged(flagged)))
  {
    FlaggedFirst(shown, TradeFlagged(flagged))
  }

  /** reorderedFilings: the same filings, those whose whole symbol field is
      flagged first, each part in the order shown. */
  function ReorderFilings(shown: seq<Filing>, flagged: set<string>): (r: seq<Filing>)
    ensures multiset(r) == multiset(shown)
    ensures forall i, j :: 0 <= i < j < |r| && !FilingFlagged(flagged)(r[i]) ==> !FilingFlagged(flagged)(r[j])
    ensures Filter(r, FilingFlagged(flagged)) == Filter(shown, FilingFlagged(flagged))
    ensures Filter(r, Not(FilingFlagged(flagged))) == Filter(shown, Not(FilingFlagged(flagged)))
  {
    FlaggedFirst(shown, FilingFlagged(flagged))
  }

  predicate IsFlagged(row: WatchlistSymbol)
  {
    row.flagged
  }

  /** The flagged symbols of every watch-list, in order, with repeats. */
  function FlaggedNames(wls: seq<Watchlist>): seq<string>
  {
    if |wls| == 0 then []
    else FlaggedNames(wls[..|wls| - 1]) + Names(Filter(wls[|wls| - 1].symbols, IsFlagged))
  }

  /** The row at (i, j) exists and is flagged under the symbol `s`. */
  predicate FlaggedAt(wls: seq<Watchlist>, s: string, i: int, j: int)
  {
    0 <= i < |wls| && 0 <= j < |wls[i].symbols| && wls[i].symbols[j].flagged && wls[i].symbols[j].symbol == s
  }

  /** A symbol is among the flagged names of one watch-list's rows exactly
      when some flagged row carries it. */
  lemma FlaggedRowNames(rows: seq<WatchlistSymbol>, s: string)
    ensures s in Names(Filter(rows, IsFlagged)) <==>
      exists j :: 0 <= j < |rows| && IsFlagged(rows[j]) && rows[j].symbol == s
  {
    if s in Names(Filter(rows, IsFlagged)) {
      var j := FlaggedNameHasRow(rows, s);
    }
    if exists j :: 0 <= j < |rows| && IsFlagged(rows[j]) && rows[j].symbol == s {
      var j :| 0 <= j < |rows| && IsFlagged(rows[j]) && rows[j].symbol == s;
      FlaggedRowHasName(rows, j);
    }
  }

  lemma FlaggedNameHasRow(rows: seq<WatchlistSymbol>, s: string) returns (j: int)
    requires s in Names(Filter(rows, IsFlagged))
    ensures 0 <= j < |rows| && IsFlagged(rows[j]) && rows[j].symbol == s
  {
    var kept := Filter(rows, IsFlagged);
    var k :| 0 <= k < |kept| && Names(kept)[k] == s;
    var row := kept[k];
    assert IsFlagged(row) && row.symbol == s && row in rows;
    j :| 0 <= j < |rows| && rows[j] == row;
  }

  lemma FlaggedRowHasName(rows: seq<WatchlistSymbol>, j: int)
    requires 0 <= j < |rows| && IsFlagged(rows[j])
    ensures rows[j].symbol in Names(Filter(rows, IsFlagged))
  {
    var kept := Filter(rows, IsFlagged);
    assert rows[j] in kept;
    var k :| 0 <= k < |kept| && kept[k] == rows[j];
    assert Names(kept)[k] == rows[j].symbol;
  }

  /** A flagged row of the watch-lists is one of the front's or one of the last's. */
  lemma FlaggedAtSplit(wls: seq<Watchlist>, s: string, front: seq<Watchlist>, rows: seq<WatchlistSymbol>)
    requires |wls| > 0 && front == wls[..|wls| - 1] && rows == wls[|wls| - 1].symbols
    ensures (exists i, j :: FlaggedAt(wls, s, i, j)) <==>
      (exists i, j :: FlaggedAt(front, s, i, j)) ||
      (exists j :: 0 <= j < |rows| && IsFlagged(rows[j]) && rows[j].symbol == s)
  {
    var n := |wls| - 1;
    if exists i, j :: FlaggedAt(wls, s, i, j) {
      var i, j :| FlaggedAt(wls, s, i, j);
      if i < n {
        assert FlaggedAt(front, s, i, j);
      } else {
        assert IsFlagged(rows[j]);
      }
    }
    if exists i, j :: FlaggedAt(front, s, i, j) {
      var i, j :| FlaggedAt(front, s, i, j);
      assert FlaggedAt(wls, s, i, j);
    }
    if exists j :: 0 <= j < |rows| && IsFlagged(rows[j]) && rows[j].symbol == s {
      var j :| 0 <= j < |rows| && IsFlagged(rows[j]) && rows[j].symbol == s;
      assert FlaggedAt(wls, s, n, j);
    }
  }

  lemma {:induction false} FlaggedNamesMembers(wls: seq<Watchlist>, s: string)
    ensures s in FlaggedNames(wls) <==> exists i, j :: FlaggedAt(wls, s, i, j)
  {
    if |wls| > 0 {
      var front, rows := wls[..|wls| - 1], wls[|wls| - 1].symbols;
      FlaggedNamesMembers(front, s);
      FlaggedRowNames(rows, s);
      FlaggedAtSplit(wls, s, front, rows);
    }
  }

  /** flaggedAllSymbols: every symbol flagged in some watch-list, once each,
      in the order the flagged rows are met. */
  function FlaggedAllSymbols(wls: seq<Watchlist>): (r: seq<string>)
    ensures forall i, j :: 0 <= i < j < |r| ==> r[i] != r[j]
    ensures forall s :: s in r <==> exists i, j :: FlaggedAt(wls, s, i, j)
    ensures InFirstOrder(r, FlaggedNames(wls))
  {
    var names := FlaggedNames(wls);
    var r := Dedup(names);
    DedupFirstOrder(names);
    forall s ensures s in r <==> exists i, j :: FlaggedAt(wls, s, i, j) {
      FlaggedNamesMembers(wls, s);
      if s in names {
        var k :| 0 <= k < |names| && names[k] == s;
      }
    }
    r
  }
}
