/**
 * The shopping-list page: the list of added items with their checkboxes, the
 * running total, and the two input fields of the add form. Amounts are whole
 * pence; the list is a sequence of entries in display order.
 */
module ShoppingList {
  import opened Wrappers
  import opened Sequences
  import opened JsText
  import opened Pounds

  /** One `<li>` of the list: the item text, its quantity, the line total in pence, and its checkbox. */
  datatype Entry = Entry(item: string, quantity: int, lineTotal: int, checked: bool)

  /** The comparator `reorderItems` gives to `sort`: checked entries after unchecked ones, ties kept. */
  function Compare(a: Entry, b: Entry): (c: int)
    ensures c == 0 <==> a.checked == b.checked
    ensures c < 0 <==> !a.checked && b.checked
    ensures -1 <= c <= 1
  {
    if a.checked == b.checked then 0 else if a.checked then 1 else -1
  }

  /** The unchecked entries of `s`, in their order. */
  function Unchecked(s: seq<Entry>): (r: seq<Entry>)
    ensures forall i :: 0 <= i < |r| ==> !r[i].checked
  {
    if s == [] then [] else (if s[0].checked then [] else [s[0]]) + Unchecked(s[1..])
  }

  /** The checked entries of `s`, in their order. */
  function CheckedOnes(s: seq<Entry>): (r: seq<Entry>)
    ensures forall i :: 0 <= i < |r| ==> r[i].checked
  {
    if s == [] then [] else (if s[0].checked then [s[0]] else []) + CheckedOnes(s[1..])
  }

  /** Every entry passes exactly one of the two filters. */
  lemma {:induction false} FiltersPartition(s: seq<Entry>)
    ensures multiset(Unchecked(s)) + multiset(CheckedOnes(s)) == multiset(s)
  {
    if s != [] {
      FiltersPartition(s[1..]);
      assert s == [s[0]] + s[1..];
    }
  }

  /**
   * What the stable `sort` with `Compare` makes of `s`: the unchecked
   * entries, then the checked ones. It is a permutation of `s`.
   */
  function SortedByChecked(s: seq<Entry>): (r: seq<Entry>)
    ensures multiset(r) == multiset(s)
    ensures |r| == |s|
  {
    FiltersPartition(s);
    assert |multiset(Unchecked(s) + CheckedOnes(s))| == |multiset(s)|;
    Unchecked(s) + CheckedOnes(s)
  }

  /** No pair of entries is out of order for `Compare`. */
  ghost predicate OrderedByChecked(s: seq<Entry>) {
    forall i, j :: 0 <= i < j < |s| ==> Compare(s[i], s[j]) <= 0
  }

  /** The sum of the line totals, in pence. */
  function Total(s: seq<Entry>): int {
    if s == [] then 0 else s[0].lineTotal + Total(s[1..])
  }

  lemma {:induction false} UncheckedAppend(a: seq<Entry>, b: seq<Entry>)
    ensures Unchecked(a + b) == Unchecked(a) + Unchecked(b)
  {
    if a == [] {
      assert a + b == b;
    } else {
      assert (a + b)[1..] == a[1..] + b;
      UncheckedAppend(a[1..], b);
    }
  }

  lemma {:induction false} CheckedOnesAppend(a: seq<Entry>, b: seq<Entry>)
    ensures CheckedOnes(a + b) == CheckedOnes(a) + CheckedOnes(b)
  {
    if a == [] {
      assert a + b == b;
    } else {
      assert (a + b)[1..] == a[1..] + b;
      CheckedOnesAppend(a[1..], b);
    }
  }

  /** Both filters distribute over concatenation. */
  lemma FiltersAppend(a: seq<Entry>, b: seq<Entry>)
    ensures Unchecked(a + b) == Unchecked(a) + Unchecked(b)
    ensures CheckedOnes(a + b) == CheckedOnes(a) + CheckedOnes(b)
  {
    UncheckedAppend(a, b);
    CheckedOnesAppend(a, b);
  }

  lemma {:induction false} TotalAppend(a: seq<Entry>, b: seq<Entry>)
    ensures Total(a + b) == Total(a) + Total(b)
  {
    if a == [] {
      assert a + b == b;
    } else {
      assert (a + b)[1..] == a[1..] + b;
      TotalAppend(a[1..], b);
    }
  }

  /** Filtering an already filtered sequence changes nothing, and the other filter finds nothing. */
  lemma {:induction false} FiltersOfFilters(s: seq<Entry>)
    ensures Unchecked(Unchecked(s)) == Unchecked(s) && CheckedOnes(Unchecked(s)) == []
    ensures CheckedOnes(CheckedOnes(s)) == CheckedOnes(s) && Unchecked(CheckedOnes(s)) == []
  {
    if s != [] {
      FiltersOfFilters(s[1..]);
      var u := if s[0].checked then [] else [s[0]];
      var c := if s[0].checked then [s[0]] else [];
      FiltersAppend(u, Unchecked(s[1..]));
      FiltersAppend(c, CheckedOnes(s[1..]));
      assert Unchecked(u) == u && CheckedOnes(u) == [] by {
        assert u == [] || u[1..] == [];
      }
      assert CheckedOnes(c) == c && Unchecked(c) == [] by {
        assert c == [] || c[1..] == [];
      }
    }
  }

  /** Moving entries around leaves the sum of the line totals alone. */
  lemma {:induction false} SortedKeepsTotal(s: seq<Entry>)
    ensures Total(SortedByChecked(s)) == Total(s)
  {
    if s != [] {
      SortedKeepsTotal(s[1..]);
      var u := if s[0].checked then [] else [s[0]];
      var c := if s[0].checked then [s[0]] else [];
      TotalAppend(u, Unchecked(s[1..]));
      TotalAppend(c, CheckedOnes(s[1..]));
      TotalAppend(Unchecked(s), CheckedOnes(s));
      TotalAppend(Unchecked(s[1..]), CheckedOnes(s[1..]));
      assert Total([s[0]]) == s[0].lineTotal;
    }
  }

  /** After the sort no checked entry comes before an unchecked one. */
  lemma SortedIsOrdered(s: seq<Entry>)
    ensures OrderedByChecked(SortedByChecked(s))
  {
    var u, c := Unchecked(s), CheckedOnes(s);
    var r := u + c;
    forall i, j | 0 <= i < j < |r|
      ensures Compare(r[i], r[j]) <= 0
    {
      if j < |u| {
        assert !r[i].checked && !r[j].checked;
      } else if i >= |u| {
        assert r[i] == c[i - |u|] && r[j] == c[j - |u|];
      } else {
        assert !r[i].checked;
      }
    }
  }

  /** The sort is stable: entries with the same checked state keep their relative order. */
  lemma SortedIsStable(s: seq<Entry>)
    ensures Unchecked(SortedByChecked(s)) == Unchecked(s)
    ensures CheckedOnes(SortedByChecked(s)) == CheckedOnes(s)
  {
    FiltersAppend(Unchecked(s), CheckedOnes(s));
    FiltersOfFilters(s);
  }

  /** Entries all checked pass the checked filter whole. */
  lemma {:induction false} AllChecked(t: seq<Entry>)
    requires forall i :: 0 <= i < |t| ==> t[i].checked
    ensures Unchecked(t) == [] && CheckedOnes(t) == t
  {
    if t != [] {
      AllChecked(t[1..]);
    }
  }

  /** An ordered sequence is its unchecked entries followed by its checked ones. */
  lemma {:induction false} OrderedSplits(t: seq<Entry>)
    requires OrderedByChecked(t)
    ensures t == Unchecked(t) + CheckedOnes(t)
  {
    if t != [] {
      if t[0].checked {
        assert forall j :: 0 <= j < |t| ==> t[j].checked by {
          forall j | 0 < j < |t| ensures t[j].checked {
            assert Compare(t[0], t[j]) <= 0;
          }
        }
        AllChecked(t);
      } else {
        assert OrderedByChecked(t[1..]) by {
          forall i, j | 0 <= i < j < |t[1..]| ensures Compare(t[1..][i], t[1..][j]) <= 0 {
            assert t[1..][i] == t[i + 1] && t[1..][j] == t[j + 1];
          }
        }
        OrderedSplits(t[1..]);
        assert t == [t[0]] + t[1..];
      }
    }
  }

  /**
   * The sort's result is determined: any ordered sequence that keeps the
   * order within the unchecked and within the checked entries of `s` is the
   * sorted `s`, so `SortedByChecked` is what a stable sort with `Compare` returns.
   */
  lemma SortIsUnique(s: seq<Entry>, t: seq<Entry>)
    requires OrderedByChecked(t)
    requires Unchecked(t) == Unchecked(s) && CheckedOnes(t) == CheckedOnes(s)
    ensures t == SortedByChecked(s)
  {
    OrderedSplits(t);
  }

  /** Reordering an ordered list changes nothing, so reordering twice is reordering once. */
  lemma SortIdempotent(s: seq<Entry>)
    ensures SortedByChecked(SortedByChecked(s)) == SortedByChecked(s)
  {
    SortedIsStable(s);
  }

  /** A new unchecked entry lands after the unchecked entries and before the checked ones. */
  lemma AddedLandsBeforeChecked(s: seq<Entry>, e: Entry)
    requires !e.checked
    ensures SortedByChecked(s + [e]) == Unchecked(s) + [e] + CheckedOnes(s)
  {
    SingleFilters(e);
    UncheckedAppend(s, [e]);
    CheckedOnesAppend(s, [e]);
  }

  /** A one-entry list passes the filter of its entry's state whole, and the other filter not at all. */
  lemma SingleFilters(e: Entry)
    ensures Unchecked([e]) == (if e.checked then [] else [e])
    ensures CheckedOnes([e]) == (if e.checked then [e] else [])
  {
    assert [e][1..] == [];
  }

  /** What the page keeps true: the list is shown unchecked-first, and the total shown is the sum of the line totals. */
  predicate Consistent(s: seq<Entry>, totalText: string) {
    s == SortedByChecked(s) && ParseTotal(totalText) == Total(s)
  }

  /** Adding an entry and reordering adds its line total to the sum. */
  lemma AddedTotal(s: seq<Entry>, e: Entry)
    ensures Total(SortedByChecked(s + [e])) == Total(s) + e.lineTotal
  {
    SortedKeepsTotal(s + [e]);
    TotalAppend(s, [e]);
    assert Total([e]) == e.lineTotal;
  }

  /**
   * Adding an entry and reordering, and showing the sum of the old entries
   * plus the new line total, makes a consistent page.
   */
  lemma AddKeepsConsistent(s: seq<Entry>, e: Entry, total: int, s': seq<Entry>, totalText': string)
    requires total == Total(s) + e.lineTotal
    requires s' == SortedByChecked(s + [e]) && totalText' == FormatPounds(total)
    ensures Consistent(s', totalText')
  {
    ParseTotalOfFormat(total);
    AddedTotal(s, e);
    SortIdempotent(s + [e]);
  }

  /** Changing a checkbox leaves the sum of the line totals alone. */
  lemma {:induction false} ToggleKeepsTotal(s: seq<Entry>, i: nat, checked: bool)
    requires i < |s|
    ensures Total(s[i := s[i].(checked := checked)]) == Total(s)
  {
    var t := s[i := s[i].(checked := checked)];
    if i > 0 {
      assert t[1..] == s[1..][i - 1 := s[i].(checked := checked)];
      ToggleKeepsTotal(s[1..], i - 1, checked);
    } else {
      assert t[1..] == s[1..];
    }
  }

  /** Changing one checkbox and reordering makes a consistent page of one whose total matched its entries. */
  lemma ToggleKeepsConsistent(s: seq<Entry>, totalText: string, i: nat, checked: bool)
    requires ParseTotal(totalText) == Total(s) && i < |s|
    ensures Consistent(SortedByChecked(s[i := s[i].(checked := checked)]), totalText)
  {
    var t := s[i := s[i].(checked := checked)];
    ToggleKeepsTotal(s, i, checked);
    SortIdempotent(t);
    SortedKeepsTotal(t);
  }

  /** One `appendChild` of the reordering loop: the node leaves the part not yet moved and goes last. */
  lemma AppendChildStep(pending: seq<Entry>, moved: seq<Entry>, node: Entry)
    requires node in pending
    ensures AppendChild(pending + moved, node) == RemoveFirst(pending, node) + (moved + [node])
    ensures multiset(RemoveFirst(pending, node)) == multiset(pending) - multiset{node}
  {
    RemoveFirstAppend(pending, moved, node);
    RemoveFirstMultiset(pending, node);
  }

  /** `list.appendChild(node)` for a node already in the list: it moves to the end. */
  function AppendChild(list: seq<Entry>, node: Entry): seq<Entry> {
    RemoveFirst(list, node) + [node]
  }

  /**
   * `order.forEach(node => list.appendChild(node))` where `order` holds the
   * nodes of `list`: each node in turn moves to the end, so the list ends up
   * in the order of `order`.
   */
  method AppendEach(list: seq<Entry>, order: seq<Entry>) returns (result: seq<Entry>)
    requires multiset(order) == multiset(list)
    ensures result == order
  {
    result := list;
    ghost var pending := list;
    var i := 0;
    while i < |order|
      invariant 0 <= i <= |order|
      invariant result == pending + order[..i]
      invariant multiset(pending) == multiset(order[i..])
    {
      var node := order[i];
      assert order[i..] == [node] + order[i + 1..];
      assert node in multiset(pending);
      AppendChildStep(pending, order[..i], node);
      result := AppendChild(result, node);
      pending := RemoveFirst(pending, node);
      assert order[..i + 1] == order[..i] + [node];
      i := i + 1;
    }
    assert order[..i] == order;
    assert pending == [] by {
      assert |multiset(pending)| == 0;
    }
  }

  /** `reorderItems` on the children of the list: sort a copy with `Compare`, then append each node again, in that order. */
  method ReorderItems(list: seq<Entry>) returns (result: seq<Entry>)
    ensures result == SortedByChecked(list)
  {
    var sorted := SortedByChecked(list);
    result := AppendEach(list, sorted);
  }

  const InvalidInputMessage := "Please enter a valid item and quantity."
  const InvalidPriceMessage := "Invalid price received from server."
  const DefaultErrorMessage := "An error occurred."
  const FetchErrorMessage := "Error fetching price. Please try again later."

  /**
   * What the price request came back with: the fetch or the JSON parse
   * threw, or a response with its `ok` flag, the price `parseFloat` read from
   * its `price` field (None for NaN, pence otherwise) and its `error` field.
   */
  datatype Answer = Thrown | Response(ok: bool, price: Option<int>, error: Option<string>)

  /** An add request waiting for its answer: the store and the trimmed item sent, and the parsed quantity. */
  datatype Pending = Pending(store: string, item: string, quantity: int)

  /** The add form's input passes the check: a non-blank item and a quantity that parses to a non-zero number. */
  predicate ValidInput(itemText: string, quantityText: string) {
    Trim(itemText) != [] && ParseInt(quantityText).Some? && ParseInt(quantityText).value != 0
  }

  /** The answer carries a price, so the item is added. */
  predicate Adds(a: Answer) {
    a.Response? && a.ok && a.price.Some?
  }

  /** The notification shown for an answer that adds nothing. */
  function Notice(a: Answer): (m: string)
    requires !Adds(a)
    ensures a.Thrown? ==> m == FetchErrorMessage
    ensures a.Response? && a.ok ==> m == InvalidPriceMessage
    ensures a.Response? && !a.ok ==>
      m == if a.error.Some? && a.error.value != [] then a.error.value else DefaultErrorMessage
    ensures m != []
  {
    match a
    case Thrown => FetchErrorMessage
    case Response(ok, _, error) =>
      if ok then InvalidPriceMessage
      else if error.Some? && error.value != [] then error.value
      else DefaultErrorMessage
  }

  /** With the quantity field filtered to digits, the input is valid exactly when the item is not blank and some digit is not `0`. */
  lemma FilteredInputValid(itemText: string, quantityText: string)
    ensures ValidInput(itemText, DigitsOnly(quantityText))
      <==> Trim(itemText) != [] && exists i :: 0 <= i < |DigitsOnly(quantityText)| && DigitsOnly(quantityText)[i] != '0'
  {
    FilteredQuantity(quantityText);
  }

  class ShoppingPage {
    /** The `<li>` entries of the list, in display order. */
    var items: seq<Entry>
    /** The text of the total element. */
    var totalText: string
    /** The item input's value. */
    var itemField: string
    /** The quantity input's value. */
    var quantityField: string

    /** The list is shown unchecked-first, and the total shown is the sum of the line totals. */
    predicate Valid()
      reads this
    {
      Consistent(items, totalText)
    }

    /** A page with an empty list, a total of £0.00, and the form at its defaults. */
    constructor ()
      ensures items == [] && totalText == FormatPounds(0)
      ensures itemField == [] && quantityField == "1"
      ensures Valid()
    {
      items := [];
      totalText := FormatPounds(0);
      itemField := [];
      quantityField := "1";
      ParseTotalOfFormat(0);
    }

    /** `reorderItems`, applied to the list element. */
    method Reorder()
      modifies this
      ensures items == SortedByChecked(old(items))
      ensures totalText == old(totalText) && itemField == old(itemField) && quantityField == old(quantityField)
    {
      items := ReorderItems(items);
    }

    /** `addItemToList`: append the entry, add its line total to the shown total, then reorder. */
    method AddItemToList(item: string, quantity: int, price: int)
      modifies this
      ensures items == SortedByChecked(old(items) + [Entry(item, quantity, price * quantity, false)])
      ensures totalText == FormatPounds(ParseTotal(old(totalText)) + price * quantity)
      ensures |items| == |old(items)| + 1
      ensures itemField == old(itemField) && quantityField == old(quantityField)
      ensures old(Valid()) ==> Valid()
    {
      var lineTotal := price * quantity;
      var entry := Entry(item, quantity, lineTotal, false);
      var newTotal := ParseTotal(totalText) + lineTotal;
      ghost var before, beforeText := items, totalText;
      totalText := FormatPounds(newTotal);
      ghost var shown := totalText;
      items := items + [entry];
      Reorder();
      assert totalText == shown;
      if Consistent(before, beforeText) {
        AddKeepsConsistent(before, entry, newTotal, items, shown);
      }
    }

    /** The reset button: an empty list and a total of £0.00. */
    method Reset()
      modifies this
      ensures items == [] && totalText == FormatPounds(0)
      ensures itemField == old(itemField) && quantityField == old(quantityField)
      ensures Valid()
    {
      items := [];
      totalText := FormatPounds(0);
      ParseTotalOfFormat(0);
    }

    /** A checkbox change: the entry at `i` takes the new state, then the list is reordered. */
    method SetChecked(i: nat, checked: bool)
      requires i < |items|
      modifies this
      ensures items == SortedByChecked(old(items)[i := old(items)[i].(checked := checked)])
      ensures totalText == old(totalText) && itemField == old(itemField) && quantityField == old(quantityField)
      ensures old(Valid()) ==> Valid()
    {
      items := items[i := items[i].(checked := checked)];
      Reorder();
      if old(Valid()) {
        ToggleKeepsConsistent(old(items), totalText, i, checked);
      }
    }

    /** The quantity input's `input` handler: everything but the digits is removed. */
    method OnQuantityInput()
      modifies this
      ensures quantityField == DigitsOnly(old(quantityField))
      ensures items == old(items) && totalText == old(totalText) && itemField == old(itemField)
    {
      quantityField := DigitsOnly(quantityField);
    }

    /**
     * The add button, up to the `await` of the price request: check the
     * input, clear the form, and return the request to send. `pending` holds
     * what the rest of the handler needs when the answer comes back.
     */
    method ClickAddItem(store: string) returns (notice: Option<string>, pending: Option<Pending>)
      modifies this
      ensures !ValidInput(old(itemField), old(quantityField)) ==>
        notice == Some(InvalidInputMessage) && pending == None &&
        itemField == old(itemField) && quantityField == old(quantityField)
      ensures ValidInput(old(itemField), old(quantityField)) ==>
        notice == None && pending == Some(Pending(store, Trim(old(itemField)), ParseInt(old(quantityField)).value)) &&
        itemField == [] && quantityField == "1"
      ensures items == old(items) && totalText == old(totalText)
    {
      var item := Trim(itemField);
      var quantity := ParseInt(quantityField);
      if item == [] || quantity.None? || quantity.value == 0 {
        return Some(InvalidInputMessage), None;
      }
      itemField := [];
      quantityField := "1";
      notice, pending := None, Some(Pending(store, item, quantity.value));
    }

    /** The add button's handler after the `await`: add the item at the price received, or notify. */
    method ReceiveAnswer(pending: Pending, answer: Answer) returns (notice: Option<string>)
      modifies this
      ensures Adds(answer) ==>
        notice == None &&
        items == SortedByChecked(old(items) + [Entry(pending.item, pending.quantity, answer.price.value * pending.quantity, false)]) &&
        totalText == FormatPounds(ParseTotal(old(totalText)) + answer.price.value * pending.quantity)
      ensures !Adds(answer) ==>
        notice == Some(Notice(answer)) && items == old(items) && totalText == old(totalText)
      ensures itemField == old(itemField) && quantityField == old(quantityField)
      ensures old(Valid()) ==> Valid()
    {
      if Adds(answer) {
        AddItemToList(pending.item, pending.quantity, answer.price.value);
        notice := None;
      } else {
        notice := Some(Notice(answer));
      }
    }
  }
}
