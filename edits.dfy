/** The watch-list edits of both pages: adding a watch-list, adding and
    deleting a symbol of the selected watch-list, and flipping a row's flag. */
module Edits {
  import opened Strings
  import opened Seqs
  import opened Types

  /** addWatchlist: a blank name (after trimming) changes nothing; otherwise an
      empty watch-list with the trimmed name is appended and selected. The
      result is the new list and the new selection. */
  function AddWatchlist(wls: seq<Watchlist>, sel: nat, name: string): (r: (seq<Watchlist>, nat))
    ensures Trim(name) == "" ==> r == (wls, sel)
    ensures Trim(name) != "" ==> r.0 == wls + [Watchlist(Trim(name), [])] && r.1 == |wls|
  {
    var nm := Trim(name);
    if nm == "" then (wls, sel) else (wls + [Watchlist(nm, [])], |wls|)
  }

  /** After adding a watch-list with a non-blank name, the selected watch-list
      is the new one: empty, named without surrounding white space, and every
      earlier watch-list is where it was. */
  lemma AddWatchlistSelectsIt(wls: seq<Watchlist>, sel: nat, name: string)
    requires exists i :: 0 <= i < |name| && !IsSpace(name[i])
    ensures var (w, s) := AddWatchlist(wls, sel, name);
      && Current(w, s).symbols == []
      && Current(w, s).name != ""
      && !IsSpace(Current(w, s).name[0])
      && !IsSpace(Current(w, s).name[|Current(w, s).name| - 1])
      && w[..|wls|] == wls
  {
    var (w, s) := AddWatchlist(wls, sel, name);
    assert w[..|wls|] == wls;
  }

  /** The id a new row gets: one more than the id of the last row, or 1. */
  function NextId(symbols: seq<WatchlistSymbol>): (id: int)
    ensures |symbols| == 0 ==> id == 1
    ensures |symbols| > 0 ==> id == symbols[|symbols| - 1].id + 1
  {
    if |symbols| > 0 then symbols[|symbols| - 1].id + 1 else 1
  }

  /** Row ids strictly increase along the list. */
  predicate IdsIncreasing(symbols: seq<WatchlistSymbol>)
  {
    forall i, j :: 0 <= i < j < |symbols| ==> symbols[i].id < symbols[j].id
  }

  /** The row addSymbol creates (no flag field: not flagged). */
  function NewRow(id: int, txt: string): WatchlistSymbol
  {
    WatchlistSymbol(id, txt, ChangeText("+0.00%"), PriceText("0.00"), false)
  }

  /** addSymbol: the text is trimmed and upper-cased; when nothing is left the
      watch-lists are unchanged. Otherwise one row is appended to the selected
      watch-list only, with the next id; other watch-lists are not touched. */
  function AddSymbol(wls: seq<Watchlist>, sel: nat, text: string): (r: seq<Watchlist>)
    ensures |r| == |wls|
    ensures forall i :: 0 <= i < |wls| && i != sel ==> r[i] == wls[i]
    ensures Trim(text) == "" ==> r == wls
    ensures Trim(text) != "" && sel < |wls| ==>
      && r[sel].name == wls[sel].name
      && r[sel].symbols == wls[sel].symbols + [NewRow(NextId(wls[sel].symbols), Upper(Trim(text)))]
  {
    var txt := Upper(Trim(text));
    if txt == "" then wls
    else
      var id := NextId(Current(wls, sel).symbols);
      seq(|wls|, i requires 0 <= i < |wls| =>
        if i == sel then wls[i].(symbols := wls[i].symbols + [NewRow(id, txt)]) else wls[i])
  }

  /** Under increasing ids the next id is above every id already used. */
  lemma NextIdAboveAll(rows: seq<WatchlistSymbol>)
    requires IdsIncreasing(rows)
    ensures forall k :: 0 <= k < |rows| ==> rows[k].id < NextId(rows)
  {
    forall k | 0 <= k < |rows| ensures rows[k].id < NextId(rows) {
      if k < |rows| - 1 {
        assert rows[k].id < rows[|rows| - 1].id;
      }
    }
  }

  /** Appending a row with the next id keeps ids increasing. */
  lemma SnocKeepsIncreasing(rows: seq<WatchlistSymbol>, row: WatchlistSymbol)
    requires IdsIncreasing(rows) && row.id == NextId(rows)
    ensures IdsIncreasing(rows + [row])
  {
    NextIdAboveAll(rows);
    var now := rows + [row];
    forall i, j | 0 <= i < j < |now| ensures now[i].id < now[j].id {
      assert now[i] == rows[i];
    }
  }

  /** Ids that strictly increase still do after addSymbol, and the new row's
      id is different from every id the selected watch-list had. */
  lemma AddSymbolKeepsIdsIncreasing(wls: seq<Watchlist>, sel: nat, text: string)
    requires sel < |wls| && IdsIncreasing(wls[sel].symbols)
    requires Trim(text) != ""
    ensures IdsIncreasing(AddSymbol(wls, sel, text)[sel].symbols)
    ensures forall k :: 0 <= k < |wls[sel].symbols| ==>
      wls[sel].symbols[k].id != NextId(wls[sel].symbols)
  {
    var rows := wls[sel].symbols;
    NextIdAboveAll(rows);
    SnocKeepsIncreasing(rows, NewRow(NextId(rows), Upper(Trim(text))));
  }

  /** `symbols.filter(s => s.id !== id)`. */
  function WithoutId(rows: seq<WatchlistSymbol>, id: int): (r: seq<WatchlistSymbol>)
    ensures IsSubseq(r, rows)
    ensures forall s :: s in r <==> s in rows && s.id != id
    ensures forall s :: multiset(r)[s] == if s.id != id then multiset(rows)[s] else 0
  {
    FilterIsSubseq(rows, (s: WatchlistSymbol) => s.id != id);
    FilterCounts(rows, (s: WatchlistSymbol) => s.id != id);
    Filter(rows, (s: WatchlistSymbol) => s.id != id)
  }

  /** Removing an id from a list extended by one row removes it from the
      list, then keeps the row only when its id is another. */
  lemma WithoutIdSnoc(rows: seq<WatchlistSymbol>, row: WatchlistSymbol, id: int)
    ensures WithoutId(rows + [row], id) == WithoutId(rows, id) + (if row.id != id then [row] else [])
  {
    FilterSnoc(rows, row, (s: WatchlistSymbol) => s.id != id);
  }

  /** deleteSymbol: the selected watch-list keeps exactly its rows with another
      id, in their order; every other watch-list is unchanged. */
  function DeleteSymbol(wls: seq<Watchlist>, sel: nat, id: int): (r: seq<Watchlist>)
    ensures |r| == |wls|
    ensures forall i :: 0 <= i < |wls| && i != sel ==> r[i] == wls[i]
    ensures sel < |wls| ==>
      && r[sel].name == wls[sel].name
      && IsSubseq(r[sel].symbols, wls[sel].symbols)
      && (forall s :: s in r[sel].symbols <==> s in wls[sel].symbols && s.id != id)
      && (forall s :: multiset(r[sel].symbols)[s] == if s.id != id then multiset(wls[sel].symbols)[s] else 0)
  {
    seq(|wls|, i requires 0 <= i < |wls| =>
      if i == sel then wls[i].(symbols := WithoutId(wls[i].symbols, id)) else wls[i])
  }

  /** Removing the next id from rows with increasing ids and one row with that
      id appended gives back the rows. */
  lemma WithoutNextId(rows: seq<WatchlistSymbol>, row: WatchlistSymbol)
    requires IdsIncreasing(rows) && row.id == NextId(rows)
    ensures WithoutId(rows + [row], row.id) == rows
  {
    var id := row.id;
    NextIdAboveAll(rows);
    WithoutIdSnoc(rows, row, id);
    FilterKeepsAll(rows, (s: WatchlistSymbol) => s.id != id);
  }

  /** Deleting the row just added (by its id) gives back the watch-lists as
      they were, when the selected watch-list's ids were increasing. */
  lemma DeleteUndoesAdd(wls: seq<Watchlist>, sel: nat, text: string)
    requires sel < |wls| && IdsIncreasing(wls[sel].symbols)
    requires Trim(text) != ""
    ensures DeleteSymbol(AddSymbol(wls, sel, text), sel, NextId(wls[sel].symbols)) == wls
  {
    var rows := wls[sel].symbols;
    var row := NewRow(NextId(rows), Upper(Trim(text)));
    var added := AddSymbol(wls, sel, text);
    assert added[sel].symbols == rows + [row];
    WithoutNextId(rows, row);
    var r := DeleteSymbol(added, sel, row.id);
    assert r[sel] == wls[sel];
    assert forall i :: 0 <= i < |wls| ==> r[i] == wls[i];
  }

  /** toggleFlag: the rows of the selected watch-list with that id have their
      flag flipped; nothing else changes anywhere. */
  function ToggleFlag(wls: seq<Watchlist>, sel: nat, id: int): (r: seq<Watchlist>)
    ensures |r| == |wls|
    ensures forall i :: 0 <= i < |wls| && i != sel ==> r[i] == wls[i]
    ensures sel < |wls| ==>
      && r[sel].name == wls[sel].name
      && |r[sel].symbols| == |wls[sel].symbols|
      && forall j :: 0 <= j < |wls[sel].symbols| ==>
           r[sel].symbols[j] == (var s := wls[sel].symbols[j];
                                 if s.id == id then s.(flagged := !s.flagged) else s)
  {
    seq(|wls|, i requires 0 <= i < |wls| =>
      if i == sel then
        wls[i].(symbols := seq(|wls[i].symbols|, j requires 0 <= j < |wls[i].symbols| =>
          var s := wls[i].symbols[j];
          if s.id == id then s.(flagged := !s.flagged) else s))
      else wls[i])
  }

  /** Flagging the same row twice restores the watch-lists. */
  lemma ToggleFlagTwice(wls: seq<Watchlist>, sel: nat, id: int)
    ensures ToggleFlag(ToggleFlag(wls, sel, id), sel, id) == wls
  {
    var r := ToggleFlag(ToggleFlag(wls, sel, id), sel, id);
    if sel < |wls| {
      assert r[sel].symbols == wls[sel].symbols;
    }
    assert forall i :: 0 <= i < |wls| ==> r[i] == wls[i];
  }

  /** The watch-lists a load installs: the stored ones, or a single empty
      "Watchlist 1" when none are stored. */
  function Loaded(stored: seq<Watchlist>): (r: seq<Watchlist>)
    ensures |r| >= 1
    ensures |stored| > 0 ==> r == stored
    ensures |stored| == 0 ==> r == [Watchlist("Watchlist 1", [])]
  {
    if |stored| > 0 then stored else [Watchlist("Watchlist 1", [])]
  }
}
