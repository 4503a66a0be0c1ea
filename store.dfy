/**
 * The record store: the decoded contents of the backing JSON file, an ordered
 * sequence of items, and the in-memory steps the add, remove and findById
 * handlers of main.go perform on it between loading and rewriting the file.
 */
module Store {

  /** One record of the store; Go's `Item{Id, Email, Age}`. */
  datatype Item = Item(id: string, email: string, age: int)

  /**
   * The range of Go's platform-sized `int` on a 64-bit target: the only ages
   * `json.Unmarshal` can store in an `Item`.
   */
  predicate GoInt(a: int) {
    -0x8000_0000_0000_0000 <= a < 0x8000_0000_0000_0000
  }

  /** Every item's age fits Go's `int`. */
  predicate GoAges(items: seq<Item>) {
    forall it :: it in items ==> GoInt(it.age)
  }

  datatype Option<T> = None | Some(value: T)

  /**
   * What a handler leaves behind when it succeeds: the text it wrote to the
   * output writer, and the sequence it handed to `json.Marshal` and
   * `ioutil.WriteFile` (None when the file is not rewritten).
   */
  datatype Effect = Effect(output: string, written: Option<seq<Item>>)

  /** Some item of `items` carries `id`. */
  predicate HasId(items: seq<Item>, id: string) {
    exists k :: 0 <= k < |items| && items[k].id == id
  }

  /** The store invariant that add maintains: no two items share an id. */
  ghost predicate UniqueIds(items: seq<Item>) {
    forall i, j :: 0 <= i < j < |items| ==> items[i].id != items[j].id
  }

  /**
   * The index of the first item whose id is `id`, or -1 when there is none:
   * what `findIdOfElement` computes.
   */
  function FirstIndex(items: seq<Item>, id: string): (r: int)
    ensures -1 <= r < |items|
    ensures r == -1 <==> !HasId(items, id)
    ensures r >= 0 ==> items[r].id == id
    ensures forall k :: 0 <= k < r ==> items[k].id != id
  {
    if |items| == 0 then -1
    else if items[0].id == id then 0
    else
      var t := FirstIndex(items[1..], id);
      if t == -1 then
        assert forall k :: 1 <= k < |items| ==> items[k] == items[1..][k - 1];
        -1
      else
        assert forall k :: 1 <= k <= t + 1 ==> items[k] == items[1..][k - 1];
        t + 1
  }

  /** The linear scan of `findIdOfElement`, returning early on the first hit. */
  method FindIdOfElement(items: seq<Item>, id: string) returns (index: int)
    ensures index == FirstIndex(items, id)
  {
    var i := 0;
    while i < |items|
      invariant 0 <= i <= |items|
      invariant forall k :: 0 <= k < i ==> items[k].id != id
    {
      if items[i].id == id {
        return i;
      }
      i := i + 1;
    }
    return -1;
  }

  /**
   * The in-memory part of `addItem`: an id already present is reported and the
   * store is left alone, otherwise the item goes at the end of the store.
   */
  function AddRecord(items: seq<Item>, newItem: Item): (e: Effect)
    ensures HasId(items, newItem.id) ==>
      e == Effect("Item with id " + newItem.id + " already exists", None)
    ensures !HasId(items, newItem.id) ==> e.output == "" && e.written.Some?
    ensures e.written.Some? ==>
      |e.written.value| == |items| + 1 &&
      e.written.value[..|items|] == items &&
      e.written.value[|items|] == newItem
  {
    if FirstIndex(items, newItem.id) != -1 then
      Effect("Item with id " + newItem.id + " already exists", None)
    else
      Effect("", Some(items + [newItem]))
  }

  /**
   * The in-memory part of `removeItem`: an absent id is reported, otherwise the
   * first item carrying it is cut out of the store.
   */
  function RemoveRecord(items: seq<Item>, id: string): (e: Effect)
    ensures !HasId(items, id) ==> e == Effect("Item with id " + id + " not found", None)
    ensures HasId(items, id) ==> e.output == "" && e.written.Some?
    ensures e.written.Some? ==> |e.written.value| == |items| - 1
    ensures e.written.Some? ==> forall j :: 0 <= j < FirstIndex(items, id) ==> e.written.value[j] == items[j]
    ensures e.written.Some? ==> forall j :: FirstIndex(items, id) <= j < |e.written.value| ==> e.written.value[j] == items[j + 1]
  {
    var k := FirstIndex(items, id);
    if k == -1 then
      Effect("Item with id " + id + " not found", None)
    else
      Effect("", Some(items[..k] + items[k + 1..]))
  }

  /**
   * The in-memory part of `findItem`: the JSON text of the first item carrying
   * `id`, or nothing at all; the store is never rewritten.
   */
  function FindRecord(items: seq<Item>, id: string, encode: Item -> string): (e: Effect)
    ensures e.written == None
    ensures !HasId(items, id) ==> e.output == ""
    ensures HasId(items, id) ==>
      exists k :: 0 <= k < |items| && items[k].id == id && e.output == encode(items[k]) &&
        forall j :: 0 <= j < k ==> items[j].id != id
  {
    var k := FirstIndex(items, id);
    if k == -1 then Effect("", None) else Effect(encode(items[k]), None)
  }

  // ---------------------------------------------------------------------
  // Properties relating the operations to each other and to the store
  // invariant.
  // ---------------------------------------------------------------------

  /** Add keeps ids unique: the store invariant holds after every add. */
  lemma AddPreservesUniqueIds(items: seq<Item>, newItem: Item)
    requires UniqueIds(items)
    ensures AddRecord(items, newItem).written.Some? ==>
      UniqueIds(AddRecord(items, newItem).written.value)
  {
  }

  /** Adding the same item twice: the second add only reports the duplicate. */
  lemma AddTwiceReportsDuplicate(items: seq<Item>, x: Item)
    requires AddRecord(items, x).written.Some?
    ensures AddRecord(AddRecord(items, x).written.value, x) ==
      Effect("Item with id " + x.id + " already exists", None)
  {
  }

  /** Removing exactly one occurrence: the multiset of items loses the removed one. */
  lemma RemoveTakesOutOneItem(items: seq<Item>, id: string)
    requires HasId(items, id)
    ensures var k := FirstIndex(items, id);
      multiset(RemoveRecord(items, id).written.value) + multiset{items[k]} == multiset(items)
  {
    var k := FirstIndex(items, id);
    var s := RemoveRecord(items, id).written.value;
    assert s == items[..k] + items[k + 1..];
    assert items == items[..k] + [items[k]] + items[k + 1..];
  }

  /** Remove keeps ids unique, and with unique ids the removed id is gone. */
  lemma RemovePreservesUniqueIds(items: seq<Item>, id: string)
    requires UniqueIds(items)
    ensures RemoveRecord(items, id).written.Some? ==>
      var s := RemoveRecord(items, id).written.value;
      UniqueIds(s) && !HasId(s, id)
  {
  }

  /** Add with a fresh id followed by remove of that id restores the store. */
  lemma RemoveUndoesAdd(items: seq<Item>, x: Item)
    requires !HasId(items, x.id)
    ensures AddRecord(items, x).written == Some(items + [x])
    ensures RemoveRecord(items + [x], x.id) == Effect("", Some(items))
  {
    var s := items + [x];
    assert s[|items|].id == x.id;
    assert forall k :: 0 <= k < |items| ==> s[k] == items[k];
    assert FirstIndex(s, x.id) == |items|;
    assert s[..|items|] + s[|items| + 1..] == items;
  }

  /** Find after add with a fresh id answers with the encoding of the new item. */
  lemma FindSeesAddedItem(items: seq<Item>, x: Item, encode: Item -> string)
    requires !HasId(items, x.id)
    ensures FindRecord(AddRecord(items, x).written.value, x.id, encode).output == encode(x)
  {
  }

  /** In a store with unique ids, find answers with the one item carrying the id. */
  lemma FindUniqueMatch(items: seq<Item>, j: nat, encode: Item -> string)
    requires UniqueIds(items)
    requires j < |items|
    ensures FindRecord(items, items[j].id, encode).output == encode(items[j])
  {
  }

  /**
   * A session on an initially empty store: add, a duplicate add, find, remove,
   * and a second remove.
   */
  lemma EmptyStoreSession(encode: Item -> string)
    ensures var a := Item("1", "a@b.com", 30);
      var b := Item("1", "x@y.com", 99);
      var s1 := AddRecord([], a);
      s1 == Effect("", Some([a])) &&
      AddRecord([a], b) == Effect("Item with id 1 already exists", None) &&
      FindRecord([a], "1", encode).output == encode(a) &&
      RemoveRecord([a], "1") == Effect("", Some([])) &&
      RemoveRecord([], "1") == Effect("Item with id 1 not found", None)
  {
  }
}
