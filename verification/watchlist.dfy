/**
 * Watchlists (src/hooks/useWatchlist.ts): how a stored item is shown with the
 * quote of its symbol, the decision of `addToWatchlist` (which list, whether
 * the symbol is already there), the list state after an insert, and the
 * result of `createWatchlist`. The quote list is defined in a module that is
 * not part of this model, so it is a parameter.
 */
module Watchlist {
  import opened Common

  datatype StockQuote = StockQuote(symbol: string, name: string, price: real, change: real, changePercent: real)

  /** A stored `watchlist_items` row. */
  datatype ItemRow = ItemRow(id: string, symbol: string, addedAt: string)

  datatype Item = Item(id: string, symbol: string, name: string, price: real, change: real, changePercent: real, addedAt: string)

  datatype List = List(id: string, name: string, items: seq<Item>)

  function FindQuote(quotes: seq<StockQuote>, symbol: string): (r: Option<StockQuote>)
    ensures r.Some? ==> r.value in quotes && r.value.symbol == symbol
    ensures r.None? ==> forall q :: q in quotes ==> q.symbol != symbol
  {
    if |quotes| == 0 then None
    else if quotes[0].symbol == symbol then Some(quotes[0])
    else FindQuote(quotes[1..], symbol)
  }

  /** An item row shown with its symbol's quote; an unknown symbol shows its symbol as name and zero figures. */
  function ShowItem(quotes: seq<StockQuote>, row: ItemRow): (it: Item)
    ensures it.id == row.id && it.symbol == row.symbol && it.addedAt == row.addedAt
    ensures FindQuote(quotes, row.symbol).None? ==>
              it.name == row.symbol && it.price == 0.0 && it.change == 0.0 && it.changePercent == 0.0
    ensures FindQuote(quotes, row.symbol).Some? && FindQuote(quotes, row.symbol).value.name != "" ==>
              it.name == FindQuote(quotes, row.symbol).value.name
  {
    var q := FindQuote(quotes, row.symbol);
    Item(
      row.id, row.symbol,
      OrStr(if q.Some? then Some(q.value.name) else None, row.symbol),
      OrReal(if q.Some? then Some(q.value.price) else None, 0.0),
      OrReal(if q.Some? then Some(q.value.change) else None, 0.0),
      OrReal(if q.Some? then Some(q.value.changePercent) else None, 0.0),
      row.addedAt)
  }

  function FindList(lists: seq<List>, id: string): (r: Option<List>)
    ensures r.Some? ==> r.value in lists && r.value.id == id
    ensures r.None? ==> forall l :: l in lists ==> l.id != id
  {
    if |lists| == 0 then None
    else if lists[0].id == id then Some(lists[0])
    else FindList(lists[1..], id)
  }

  predicate HasSymbol(items: seq<Item>, symbol: string) {
    exists i :: 0 <= i < |items| && items[i].symbol == symbol
  }

  /** The decision of `addToWatchlist`: the insert to make, if any, and the value returned. */
  datatype AddOutcome = AddOutcome(insert: Option<(string, string)>, added: bool)

  /** The list id the add aims at: the given id unless empty, else the first list's; empty when there is none. */
  function Target(lists: seq<List>, listId: Option<string>): (t: string)
    ensures listId.Some? && listId.value != "" ==> t == listId.value
    ensures (listId.None? || listId.value == "") && |lists| > 0 ==> t == lists[0].id
    ensures (listId.None? || listId.value == "") && |lists| == 0 ==> t == ""
  {
    if OrStr(listId, "") != "" then listId.value else if |lists| > 0 then lists[0].id else ""
  }

  /**
   * `addToWatchlist`: without a user nothing happens; the target is the given
   * list id or else the first list, and with neither nothing happens; a
   * symbol already in the target list is not inserted again; otherwise one
   * item (target, symbol) is inserted and the call reports success. The
   * insert's own store error is not inspected by the source, so it does not
   * change the result.
   */
  function AddToWatchlist(signedIn: bool, lists: seq<List>, symbol: string, listId: Option<string>): (r: AddOutcome)
    ensures r.added <==> r.insert.Some?
    ensures r.insert.Some? ==> r.insert.value == (Target(lists, listId), symbol)
    ensures r.added <==>
              && signedIn
              && Target(lists, listId) != ""
              && !(FindList(lists, Target(lists, listId)).Some?
                   && HasSymbol(FindList(lists, Target(lists, listId)).value.items, symbol))
  {
    if !signedIn then AddOutcome(None, false)
    else
      var target := Target(lists, listId);
      if target == "" then AddOutcome(None, false)
      else
        var list := FindList(lists, target);
        if list.Some? && HasSymbol(list.value.items, symbol) then AddOutcome(None, false)
        else AddOutcome(Some((target, symbol)), true)
  }

  /** The lists after the store adds an item to the list `target`, newest first as the refetch orders them. */
  function WithItem(lists: seq<List>, target: string, item: Item): (r: seq<List>)
    ensures |r| == |lists|
    ensures forall i :: 0 <= i < |r| ==> r[i].id == lists[i].id && r[i].name == lists[i].name
    ensures forall i :: 0 <= i < |r| ==>
              r[i].items == (if lists[i].id == target then [item] + lists[i].items else lists[i].items)
  {
    seq(|lists|, i requires 0 <= i < |lists| =>
      if lists[i].id == target then lists[i].(items := [item] + lists[i].items) else lists[i])
  }

  /** No symbol appears twice in a list. */
  predicate NoDuplicates(items: seq<Item>) {
    forall i, j :: 0 <= i < j < |items| ==> items[i].symbol != items[j].symbol
  }

  predicate DistinctIds(lists: seq<List>) {
    forall i, j :: 0 <= i < j < |lists| ==> lists[i].id != lists[j].id
  }

  /** With distinct ids, looking a list up by its id finds that list. */
  lemma {:induction false} FindListAt(lists: seq<List>, i: nat)
    requires DistinctIds(lists) && i < |lists|
    ensures FindList(lists, lists[i].id) == Some(lists[i])
    decreases i
  {
    if i > 0 {
      assert lists[0].id != lists[i].id;
      assert DistinctIds(lists[1..]);
      assert lists[1..][i - 1] == lists[i];
      FindListAt(lists[1..], i - 1);
    }
  }

  /** Putting an item of a new symbol in front keeps a list free of duplicates. */
  lemma PrependKeepsDistinct(items: seq<Item>, item: Item)
    requires NoDuplicates(items) && !HasSymbol(items, item.symbol)
    ensures NoDuplicates([item] + items)
  {
    var r := [item] + items;
    forall a, b | 0 <= a < b < |r|
      ensures r[a].symbol != r[b].symbol
    {
      assert r[b] == items[b - 1];
      if a > 0 {
        assert r[a] == items[a - 1];
      }
    }
  }

  /**
   * Adding through `addToWatchlist` never creates a duplicate: when the lists
   * have distinct ids and no list repeats a symbol, the same holds once the
   * inserted item is stored.
   */
  lemma AddKeepsListsDuplicateFree(lists: seq<List>, symbol: string, listId: Option<string>, item: Item)
    requires DistinctIds(lists)
    requires forall i :: 0 <= i < |lists| ==> NoDuplicates(lists[i].items)
    requires AddToWatchlist(true, lists, symbol, listId).added
    requires item.symbol == symbol
    ensures var after := WithItem(lists, Target(lists, listId), item);
            forall i :: 0 <= i < |after| ==> NoDuplicates(after[i].items)
  {
    var target := Target(lists, listId);
    var after := WithItem(lists, target, item);
    forall i | 0 <= i < |after|
      ensures NoDuplicates(after[i].items)
    {
      if lists[i].id == target {
        FindListAt(lists, i);
        PrependKeepsDistinct(lists[i].items, item);
      }
    }
  }

  /** `createWatchlist`: the new list's id, or nothing without a user or when the store fails. */
  function CreateWatchlist(signedIn: bool, inserted: Result<string>): (r: Option<string>)
    ensures r.Some? <==> signedIn && inserted.Ok?
    ensures r.Some? ==> r.value == inserted.value
  {
    if !signedIn then None
    else if inserted.Failed? then None
    else Some(inserted.value)
  }

  /** The lists after a created list is stored: the new list, empty, after the existing ones. */
  function WithNewList(lists: seq<List>, id: string, name: string): (r: seq<List>)
    ensures |r| == |lists| + 1 && r[..|lists|] == lists && r[|lists|] == List(id, name, [])
  {
    lists + [List(id, name, [])]
  }

  /** Looking up an id no earlier list has finds the list appended with it. */
  lemma {:induction false} FindAppended(lists: seq<List>, l: List)
    requires forall k :: 0 <= k < |lists| ==> lists[k].id != l.id
    ensures FindList(lists + [l], l.id) == Some(l)
    decreases |lists|
  {
    if |lists| > 0 {
      assert (lists + [l])[1..] == lists[1..] + [l];
      FindAppended(lists[1..], l);
    }
  }

  /**
   * A created list can be used at once: with a fresh, non-empty id from the
   * store, the refreshed lists hold it under that id with no items, and
   * adding any symbol to it is accepted.
   */
  lemma CreatedListIsUsable(lists: seq<List>, name: string, inserted: Result<string>, symbol: string)
    requires CreateWatchlist(true, inserted).Some?
    requires inserted.value != "" && forall k :: 0 <= k < |lists| ==> lists[k].id != inserted.value
    ensures var id := CreateWatchlist(true, inserted).value;
            var after := WithNewList(lists, id, name);
            && FindList(after, id) == Some(List(id, name, []))
            && AddToWatchlist(true, after, symbol, Some(id)).insert == Some((id, symbol))
  {
    var id := inserted.value;
    FindAppended(lists, List(id, name, []));
  }
}
