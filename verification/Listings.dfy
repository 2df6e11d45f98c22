/** Lists of a store's items, newest first. */
module Listings {
  import opened Prelude
  import ItemIds

  /** An item id as its rank: `ItemIds.TextOrderIsTimeOrder` shows that ranks
      are ordered as ids are and name each id once, and `ItemIds.RankIsOnto`
      that ranks below 2^80 are all in use. */
  type Id = nat

  /** An item's metadata: its id, its creation time in nanoseconds, and all
      the rest. */
  datatype Item = Item(id: Id, createdAt: int, details: string)

  function SecondOf(id: Id): nat {
    ItemIds.RankSeconds(id)
  }

  /** Strictly newest first, so no id twice. */
  predicate NewestFirst(items: seq<Item>) {
    forall i, j :: 0 <= i < j < |items| ==> items[i].id > items[j].id
  }

  predicate DistinctIds(items: seq<Item>) {
    forall i, j :: 0 <= i < j < |items| ==> items[i].id != items[j].id
  }

  function Ids(items: seq<Item>): (ids: seq<Id>)
    ensures |ids| == |items| && forall k :: 0 <= k < |ids| ==> ids[k] == items[k].id
  {
    seq(|items|, k requires 0 <= k < |items| => items[k].id)
  }

  predicate HasId(items: seq<Item>, id: Id) {
    exists k :: 0 <= k < |items| && items[k].id == id
  }

  lemma HeadIsNew(items: seq<Item>)
    requires DistinctIds(items) && items != []
    ensures forall x :: x in items[1..] ==> x.id != items[0].id
  {
    assert forall k :: 0 <= k < |items[1..]| ==> items[1..][k] == items[k + 1];
  }

  /** `item` placed before the first item that is not newer. */
  function Insert(item: Item, items: seq<Item>): seq<Item> {
    if items == [] || items[0].id <= item.id then [item] + items
    else [items[0]] + Insert(item, items[1..])
  }

  /** Sorted by id, newest first; items of one id keep their order. */
  function Sort(items: seq<Item>): seq<Item> {
    if items == [] then [] else Insert(items[0], Sort(items[1..]))
  }

  lemma {:induction false} InsertMembers(item: Item, items: seq<Item>)
    ensures forall x :: x in Insert(item, items) <==> x == item || x in items
    ensures |Insert(item, items)| == |items| + 1
  {
    if items != [] && items[0].id > item.id {
      InsertMembers(item, items[1..]);
      assert items == [items[0]] + items[1..];
    }
  }

  lemma {:induction false} InsertKeepsOrder(item: Item, items: seq<Item>)
    requires NewestFirst(items) && !HasId(items, item.id)
    ensures NewestFirst(Insert(item, items))
  {
    if items != [] && items[0].id > item.id {
      assert forall k :: 0 <= k < |items[1..]| ==> items[1..][k] == items[k + 1];
      InsertKeepsOrder(item, items[1..]);
      var tail := Insert(item, items[1..]);
      InsertMembers(item, items[1..]);
      forall k | 0 <= k < |tail| ensures items[0].id > tail[k].id {
        assert tail[k] in tail;
      }
    } else {
      assert items != [] ==> items[0].id != item.id;
    }
  }

  /** Sorting keeps the members and puts distinct ids strictly in order. */
  lemma {:induction false} SortSorts(items: seq<Item>)
    ensures |Sort(items)| == |items|
    ensures forall x :: x in Sort(items) <==> x in items
    ensures DistinctIds(items) ==> NewestFirst(Sort(items))
  {
    if items != [] {
      SortSorts(items[1..]);
      InsertMembers(items[0], Sort(items[1..]));
      assert items == [items[0]] + items[1..];
      if DistinctIds(items) {
        var tail := Sort(items[1..]);
        forall k | 0 <= k < |tail| ensures tail[k].id != items[0].id {
          assert tail[k] in tail;
          HeadIsNew(items);
        }
        InsertKeepsOrder(items[0], Sort(items[1..]));
      }
    }
  }

  /** A newest-first list is determined by its members. */
  lemma {:induction false} SameMembers(a: seq<Item>, b: seq<Item>)
    requires NewestFirst(a) && NewestFirst(b)
    requires forall x :: x in a <==> x in b
    ensures a == b
  {
    assert b != [] ==> b[0] in b && b[0] in a;
    if a == [] {
    } else {
      assert a[0] in b;
      assert a[0] == b[0];
      forall x ensures x in a[1..] <==> x in b[1..] {
        assert x in a[1..] <==> x in a && x != a[0] by { TailMembers(a, x); }
        assert x in b[1..] <==> x in b && x != b[0] by { TailMembers(b, x); }
      }
      SameMembers(a[1..], b[1..]);
      assert a == [a[0]] + a[1..] && b == [b[0]] + b[1..];
    }
  }

  lemma TailMembers(a: seq<Item>, x: Item)
    requires NewestFirst(a) && a != []
    ensures x in a[1..] <==> x in a && x != a[0]
  {
    if x in a && x != a[0] {
      var k :| 0 <= k < |a| && a[k] == x;
      assert a[1..][k - 1] == x;
    }
    if x in a[1..] {
      var k :| 0 <= k < |a[1..]| && a[1..][k] == x;
      assert a[k + 1] == x;
    }
  }

  /** A newer item in front of a newest-first list. */
  lemma ConsNewest(item: Item, tail: seq<Item>)
    requires NewestFirst(tail) && forall x :: x in tail ==> item.id > x.id
    ensures NewestFirst([item] + tail)
    ensures forall x :: x in [item] + tail <==> x == item || x in tail
    ensures Ids([item] + tail) == [item.id] + Ids(tail)
  {
    assert forall k :: 0 <= k < |tail| ==> tail[k] in tail;
  }

  lemma HeadIsNewest(items: seq<Item>)
    requires NewestFirst(items) && items != []
    ensures NewestFirst(items[1..])
    ensures forall x :: x in items[1..] ==> items[0].id > x.id
    ensures forall x :: x in items <==> x == items[0] || x in items[1..]
  {
    assert forall k :: 0 <= k < |items[1..]| ==> items[1..][k] == items[k + 1];
    assert items == [items[0]] + items[1..];
  }

  /** In particular the order items come in does not matter. */
  lemma SortOfNewestFirst(items: seq<Item>, sorted: seq<Item>)
    requires NewestFirst(sorted) && DistinctIds(items)
    requires forall x :: x in items <==> x in sorted
    ensures Sort(items) == sorted
  {
    SortSorts(items);
    SameMembers(Sort(items), sorted);
  }

  /** `items` without the item `id` names. */
  function Without(items: seq<Item>, id: Id): seq<Item> {
    if items == [] then []
    else if items[0].id == id then Without(items[1..], id)
    else [items[0]] + Without(items[1..], id)
  }

  lemma {:induction false} WithoutMembers(items: seq<Item>, id: Id)
    ensures forall x :: x in Without(items, id) <==> x in items && x.id != id
    ensures NewestFirst(items) ==> NewestFirst(Without(items, id))
  {
    if items != [] {
      WithoutMembers(items[1..], id);
      assert items == [items[0]] + items[1..];
      if NewestFirst(items) && items[0].id != id {
        var tail := Without(items[1..], id);
        forall k | 0 <= k < |tail| ensures items[0].id > tail[k].id {
          assert tail[k] in tail;
        }
      }
    }
  }
}
