/** Choosing the items `prune` deletes, and deleting them. */
module Retention {
  import opened Prelude
  import ItemIds
  import opened Listings

  // ---------- the choice ----------

  /** Before when an item must have been created to be old enough: `age`
      before `now`, or the earliest time there is when that is later. */
  function Cutoff(now: int, age: nat, earliest: int): int {
    if now - age < earliest then earliest else now - age
  }

  /** What both rules need of the item at `index` of the newest-first list. */
  predicate Selected(item: Item, index: nat, cutoff: Option<int>, keep: Option<nat>) {
    && (keep.Some? ==> index >= keep.value)
    && (cutoff.Some? ==> item.createdAt < cutoff.value)
  }

  /** The selected ids of a newest-first list whose first index is `index`. */
  function SelectFrom(sorted: seq<Item>, index: nat, cutoff: Option<int>, keep: Option<nat>): seq<Id> {
    if sorted == [] then []
    else
      (if Selected(sorted[0], index, cutoff, keep) then [sorted[0].id] else [])
      + SelectFrom(sorted[1..], index + 1, cutoff, keep)
  }

  /** The ids to delete, newest first. */
  function Select(items: seq<Item>, now: int, olderThan: Option<nat>, keep: Option<nat>, earliest: int): seq<Id> {
    if olderThan.None? && keep.None? then []
    else
      var cutoff := if olderThan.Some? then Some(Cutoff(now, olderThan.value, earliest)) else None;
      SelectFrom(Sort(items), 0, cutoff, keep)
  }

  /** The order the items are given in does not matter. */
  lemma SelectIgnoresOrder(a: seq<Item>, b: seq<Item>, now: int, olderThan: Option<nat>, keep: Option<nat>, earliest: int)
    requires DistinctIds(a) && DistinctIds(b) && forall x :: x in a <==> x in b
    ensures Select(a, now, olderThan, keep, earliest) == Select(b, now, olderThan, keep, earliest)
  {
    SortSorts(a);
    SortSorts(b);
    SameMembers(Sort(a), Sort(b));
  }

  /** An item is selected exactly when neither rule protects it. */
  lemma {:induction false} SelectedExactly(
      sorted: seq<Item>, index: nat, cutoff: Option<int>, keep: Option<nat>, k: nat)
    requires NewestFirst(sorted) && k < |sorted|
    ensures sorted[k].id in SelectFrom(sorted, index, cutoff, keep)
       <==> Selected(sorted[k], index + k, cutoff, keep)
  {
    var tail := SelectFrom(sorted[1..], index + 1, cutoff, keep);
    if k == 0 {
      HeadIsNew(sorted);
      if sorted[0].id in tail {
        SelectsItsOwn(sorted[1..], index + 1, cutoff, keep, sorted[0].id);
      }
    } else {
      SelectedExactly(sorted[1..], index + 1, cutoff, keep, k - 1);
      assert sorted[k].id != sorted[0].id;
    }
  }

  /** In the rules' own terms: the item at index `k` of the newest-first list
      is deleted exactly when it is not among the newest `keep` and more than
      `olderThan` has passed since it was made. Times never come before
      `earliest`, so taking it for a cutoff out of range changes nothing. */
  lemma SelectedByRules(items: seq<Item>, now: int, olderThan: Option<nat>, keep: Option<nat>, earliest: int, k: nat)
    requires DistinctIds(items) && k < |items| && (olderThan.Some? || keep.Some?)
    requires forall x :: x in items ==> earliest <= x.createdAt
    ensures |Sort(items)| == |items|
    ensures Sort(items)[k].id in Select(items, now, olderThan, keep, earliest)
       <==> (keep.Some? ==> k >= keep.value) && (olderThan.Some? ==> now - Sort(items)[k].createdAt > olderThan.value)
  {
    SortSorts(items);
    var cutoff := if olderThan.Some? then Some(Cutoff(now, olderThan.value, earliest)) else None;
    SelectedExactly(Sort(items), 0, cutoff, keep, k);
    assert Sort(items)[k] in Sort(items);
  }

  lemma {:induction false} SelectsItsOwn(sorted: seq<Item>, index: nat, cutoff: Option<int>, keep: Option<nat>, id: Id)
    requires id in SelectFrom(sorted, index, cutoff, keep)
    ensures HasId(sorted, id)
  {
    if sorted[0].id != id {
      SelectsItsOwn(sorted[1..], index + 1, cutoff, keep, id);
      var j :| 0 <= j < |sorted[1..]| && sorted[1..][j].id == id;
      assert sorted[j + 1].id == id;
    }
  }

  /** The newest `keep` items survive, whatever their age. */
  lemma NewestSurvive(items: seq<Item>, now: int, olderThan: Option<nat>, keep: nat, earliest: int, k: nat)
    requires DistinctIds(items) && k < keep && k < |items|
    ensures |Sort(items)| == |items|
    ensures Sort(items)[k].id !in Select(items, now, olderThan, Some(keep), earliest)
  {
    SortSorts(items);
    var cutoff := if olderThan.Some? then Some(Cutoff(now, olderThan.value, earliest)) else None;
    SelectedExactly(Sort(items), 0, cutoff, Some(keep), k);
  }

  // ---------- a cut of the list ----------

  /** Every item records its id's own time, as `finish_keyed` makes it. */
  predicate TimedByIds(items: seq<Item>) {
    forall k :: 0 <= k < |items| ==> items[k].createdAt == SecondOf(items[k].id) * ItemIds.NANOS
  }

  /** How many items at the front of the list are too young. */
  function Young(sorted: seq<Item>, cutoff: int): nat {
    if sorted == [] || sorted[0].createdAt < cutoff then 0 else 1 + Young(sorted[1..], cutoff)
  }

  /** How many of the newest items survive both rules. */
  function Survivors(sorted: seq<Item>, cutoff: Option<int>, keep: Option<nat>): (n: nat)
    ensures n <= |sorted|
  {
    YoungBound(sorted, cutoff);
    var kept := match keep case Some(k) => if k < |sorted| then k else |sorted| case None => 0;
    var young := if cutoff.Some? then Young(sorted, cutoff.value) else 0;
    if kept > young then kept else young
  }

  lemma {:induction false} YoungBound(sorted: seq<Item>, cutoff: Option<int>)
    ensures cutoff.Some? ==> Young(sorted, cutoff.value) <= |sorted|
  {
    if sorted != [] { YoungBound(sorted[1..], cutoff); }
  }

  lemma {:induction false} YoungIsAPrefix(sorted: seq<Item>, cutoff: int, k: nat)
    requires NewestFirst(sorted) && TimedByIds(sorted) && k < |sorted|
    ensures sorted[k].createdAt >= cutoff <==> k < Young(sorted, cutoff)
  {
    if k == 0 {
    } else {
      assert TimedByIds(sorted[1..]) by {
        forall j | 0 <= j < |sorted[1..]| ensures sorted[1..][j] == sorted[j + 1] {}
      }
      YoungIsAPrefix(sorted[1..], cutoff, k - 1);
      assert sorted[0].id > sorted[k].id;
      SecondsFollowIds(sorted[0].id, sorted[k].id);
    }
  }

  lemma SecondsFollowIds(a: Id, b: Id)
    requires a > b
    ensures SecondOf(a) * ItemIds.NANOS >= SecondOf(b) * ItemIds.NANOS
  {
  }

  lemma {:induction false} SelectFromCut(sorted: seq<Item>, index: nat, cutoff: Option<int>, keep: Option<nat>, cut: nat)
    requires index + |sorted| >= cut
    requires forall k :: 0 <= k < |sorted| ==> (Selected(sorted[k], index + k, cutoff, keep) <==> index + k >= cut)
    ensures SelectFrom(sorted, index, cutoff, keep)
         == Ids(sorted[if index < cut then cut - index else 0..])
  {
    hide Selected;
    if sorted != [] {
      forall k | 0 <= k < |sorted[1..]|
        ensures Selected(sorted[1..][k], index + 1 + k, cutoff, keep) <==> index + 1 + k >= cut
      {
        assert Selected(sorted[k + 1], index + (k + 1), cutoff, keep) <==> index + (k + 1) >= cut;
      }
      SelectFromCut(sorted[1..], index + 1, cutoff, keep, cut);
      assert Selected(sorted[0], index + 0, cutoff, keep) <==> index + 0 >= cut;
      var tail := SelectFrom(sorted[1..], index + 1, cutoff, keep);
      if index >= cut {
        assert sorted[0..] == sorted && sorted[1..][0..] == sorted[1..];
        assert Ids(sorted) == [sorted[0].id] + Ids(sorted[1..]);
      } else {
        assert [] + tail == tail;
        assert sorted[1..][cut - index - 1..] == sorted[cut - index..];
      }
    }
  }

  /** When items record their ids' times, the selection is exactly what
      follows the survivors in the newest-first list. */
  lemma SelectionIsASuffix(items: seq<Item>, now: int, olderThan: Option<nat>, keep: Option<nat>, earliest: int)
    requires DistinctIds(items) && TimedByIds(items)
    requires olderThan.Some? || keep.Some?
    ensures var cutoff := if olderThan.Some? then Some(Cutoff(now, olderThan.value, earliest)) else None;
      Select(items, now, olderThan, keep, earliest) == Ids(Sort(items)[Survivors(Sort(items), cutoff, keep)..])
  {
    var sorted := Sort(items);
    SortSorts(items);
    var cutoff := if olderThan.Some? then Some(Cutoff(now, olderThan.value, earliest)) else None;
    var cut := Survivors(sorted, cutoff, keep);
    assert TimedByIds(sorted) by {
      forall k | 0 <= k < |sorted| ensures sorted[k].createdAt == SecondOf(sorted[k].id) * ItemIds.NANOS {
        assert sorted[k] in items;
      }
    }
    forall k | 0 <= k < |sorted| ensures Selected(sorted[k], 0 + k, cutoff, keep) <==> 0 + k >= cut {
      if cutoff.Some? { YoungIsAPrefix(sorted, cutoff.value, k); }
    }
    SelectFromCut(sorted, 0, cutoff, keep, cut);
    assert cut == 0 ==> sorted[0..] == sorted;
  }

  // ---------- prune ----------

  /** A store, as `prune` uses it: what it lists, newest first, and the ids
      whose deletion its backend will refuse. */
  class Store {
    var items: seq<Item>
    const broken: set<Id>

    ghost predicate Valid()
      reads this
    {
      NewestFirst(items)
    }

    constructor (items: seq<Item>, broken: set<Id>)
      requires NewestFirst(items)
      ensures Valid() && this.items == items && this.broken == broken
    {
      this.items, this.broken := items, broken;
    }

    method Delete(id: Id) returns (deleted: bool)
      requires Valid()
      modifies this
      ensures Valid()
      ensures deleted <==> HasId(old(items), id) && id !in broken
      ensures items == if deleted then Without(old(items), id) else old(items)
    {
      if id in broken || !HasId(items, id) {
        return false;
      }
      WithoutMembers(items, id);
      items := Without(items, id);
      return true;
    }
  }

  datatype Options = Options(olderThan: Option<nat>, keep: Option<nat>, dryRun: bool, yes: bool)

  datatype Outcome =
    | NoRule
    | NothingToPrune
    | DryRun
    | NeedsYes
    | NotConfirmed
    | Failed(deleted: nat)
    | Pruned(deleted: nat)

  function WithoutAll(items: seq<Item>, ids: seq<Id>): seq<Item> {
    if ids == [] then items else Without(WithoutAll(items, ids[..|ids| - 1]), ids[|ids| - 1])
  }

  lemma {:induction false} WithoutAllMembers(items: seq<Item>, ids: seq<Id>)
    requires NewestFirst(items)
    ensures forall x :: x in WithoutAll(items, ids) <==> x in items && x.id !in ids
    ensures NewestFirst(WithoutAll(items, ids))
  {
    if ids != [] {
      WithoutAllMembers(items, ids[..|ids| - 1]);
      WithoutMembers(WithoutAll(items, ids[..|ids| - 1]), ids[|ids| - 1]);
      assert ids == ids[..|ids| - 1] + [ids[|ids| - 1]];
    }
  }

  /** The items of the listing that were selected, in its order. */
  function Filtered(items: seq<Item>, ids: seq<Id>): seq<Item> {
    if items == [] then []
    else (if items[0].id in ids then [items[0]] else []) + Filtered(items[1..], ids)
  }

  /** Deletes `selected` one by one until a deletion fails, and says how many
      were deleted. */
  method DeleteEach(store: Store, selected: seq<Item>) returns (deleted: nat)
    requires store.Valid() && NewestFirst(selected)
    requires forall x :: x in selected ==> x in store.items
    modifies store
    ensures store.Valid() && deleted <= |selected|
    ensures store.items == WithoutAll(old(store.items), Ids(selected)[..deleted])
    ensures forall k :: 0 <= k < deleted ==> selected[k].id !in store.broken
    ensures deleted < |selected| ==> selected[deleted].id in store.broken
  {
    hide WithoutAll, Without, NewestFirst, HasId;
    ghost var ids := Ids(selected);
    deleted := 0;
    WithoutNone(store.items, ids);
    while deleted < |selected|
      invariant deleted <= |selected|
      invariant store.Valid()
      invariant store.items == WithoutAll(old(store.items), ids[..deleted])
      invariant forall j :: 0 <= j < deleted ==> selected[j].id !in store.broken
    {
      NextIsThere(old(store.items), selected, deleted);
      var done := store.Delete(selected[deleted].id);
      if !done {
        return;
      }
      WithoutNext(old(store.items), ids, deleted);
      deleted := deleted + 1;
    }
  }

  lemma WithoutNone(items: seq<Item>, ids: seq<Id>)
    ensures WithoutAll(items, ids[..0]) == items
  {
  }

  lemma WithoutNext(items: seq<Item>, ids: seq<Id>, k: nat)
    requires k < |ids|
    ensures WithoutAll(items, ids[..k + 1]) == Without(WithoutAll(items, ids[..k]), ids[k])
  {
    assert ids[..k + 1][..k] == ids[..k];
  }

  /** An item is not gone before its turn. */
  lemma NextIsThere(items: seq<Item>, selected: seq<Item>, k: nat)
    requires NewestFirst(items) && NewestFirst(selected) && k < |selected| && selected[k] in items
    ensures HasId(WithoutAll(items, Ids(selected)[..k]), selected[k].id)
  {
    var left := WithoutAll(items, Ids(selected)[..k]);
    WithoutAllMembers(items, Ids(selected)[..k]);
    assert selected[k].id !in Ids(selected)[..k];
    assert selected[k] in left;
  }

  /** `prune`: select, ask, then delete one by one, stopping at the first
      deletion that fails. */
  method Prune(store: Store, options: Options, now: int, interactive: bool, confirmed: bool, earliest: int)
    returns (outcome: Outcome)
    requires store.Valid()
    modifies store
    ensures store.Valid()
    ensures outcome.NoRule? <==> options.olderThan.None? && options.keep.None?
    ensures !outcome.NoRule? ==>
      var ids := Select(old(store.items), now, options.olderThan, options.keep, earliest);
      var mayDelete := !options.dryRun && (options.yes || (interactive && confirmed));
      && (outcome.NothingToPrune? <==> ids == [])
      && (outcome.DryRun? <==> ids != [] && options.dryRun)
      && (outcome.NeedsYes? <==> ids != [] && !options.dryRun && !options.yes && !interactive)
      && (outcome.NotConfirmed? <==> ids != [] && !options.dryRun && !options.yes && interactive && !confirmed)
      && (outcome.Pruned? || outcome.Failed? <==> ids != [] && mayDelete)
      && (outcome.Pruned? ==> outcome.deleted == |ids| && forall k :: 0 <= k < |ids| ==> ids[k] !in store.broken)
      && (outcome.Failed? ==> outcome.deleted < |ids| && ids[outcome.deleted] in store.broken)
    ensures outcome.Pruned? || outcome.Failed? ==>
      var ids := Select(old(store.items), now, options.olderThan, options.keep, earliest);
      outcome.deleted <= |ids| && store.items == WithoutAll(old(store.items), ids[..outcome.deleted])
    ensures !outcome.Pruned? && !outcome.Failed? ==> store.items == old(store.items)
  {
    hide Select, Filtered, Cutoff;
    if options.olderThan.None? && options.keep.None? {
      return NoRule;
    }
    var items := store.items;
    var ids := Select(items, now, options.olderThan, options.keep, earliest);
    var selected := Filtered(items, ids);
    FilteredIsSelection(items, now, options.olderThan, options.keep, earliest);
    if selected == [] {
      return NothingToPrune;
    }
    if options.dryRun {
      return DryRun;
    }
    if !options.yes {
      if !interactive { return NeedsYes; }
      if !confirmed { return NotConfirmed; }
    }
    var deleted := DeleteEach(store, selected);
    outcome := if deleted < |selected| then Failed(deleted) else Pruned(deleted);
  }

  lemma {:induction false} FilteredMembers(sorted: seq<Item>, ids: seq<Id>)
    requires NewestFirst(sorted)
    ensures forall x :: x in Filtered(sorted, ids) <==> x in sorted && x.id in ids
    ensures NewestFirst(Filtered(sorted, ids))
  {
    if sorted != [] {
      HeadIsNewest(sorted);
      FilteredMembers(sorted[1..], ids);
      if sorted[0].id in ids {
        ConsNewest(sorted[0], Filtered(sorted[1..], ids));
      }
    }
  }

  lemma {:induction false} FilteredFrom(sorted: seq<Item>, index: nat, cutoff: Option<int>, keep: Option<nat>, ids: seq<Id>)
    requires forall k :: 0 <= k < |sorted| ==>
      (sorted[k].id in ids <==> Selected(sorted[k], index + k, cutoff, keep))
    ensures Ids(Filtered(sorted, ids)) == SelectFrom(sorted, index, cutoff, keep)
  {
    hide Selected;
    if sorted != [] {
      forall k | 0 <= k < |sorted[1..]|
        ensures sorted[1..][k].id in ids <==> Selected(sorted[1..][k], index + 1 + k, cutoff, keep)
      {
        assert sorted[k + 1].id in ids <==> Selected(sorted[k + 1], index + (k + 1), cutoff, keep);
      }
      FilteredFrom(sorted[1..], index + 1, cutoff, keep, ids);
      var tail := Filtered(sorted[1..], ids);
      assert sorted[0].id in ids <==> Selected(sorted[0], index + 0, cutoff, keep);
      assert Ids([sorted[0]] + tail) == [sorted[0].id] + Ids(tail);
      assert [] + tail == tail && [] + Ids(tail) == Ids(tail);
    }
  }

  /** What `prune` shows and deletes is the selection, in its order. */
  lemma FilteredIsSelection(items: seq<Item>, now: int, olderThan: Option<nat>, keep: Option<nat>, earliest: int)
    requires NewestFirst(items) && (olderThan.Some? || keep.Some?)
    ensures var ids := Select(items, now, olderThan, keep, earliest);
      && Ids(Filtered(items, ids)) == ids
      && (forall x :: x in Filtered(items, ids) ==> x in items)
      && NewestFirst(Filtered(items, ids))
  {
    var ids := Select(items, now, olderThan, keep, earliest);
    var cutoff := if olderThan.Some? then Some(Cutoff(now, olderThan.value, earliest)) else None;
    SortOfNewestFirst(items, items);
    forall k | 0 <= k < |items| ensures items[k].id in ids <==> Selected(items[k], 0 + k, cutoff, keep) {
      SelectedExactly(items, 0, cutoff, keep, k);
    }
    FilteredFrom(items, 0, cutoff, keep, ids);
    FilteredMembers(items, ids);
  }

  // ---------- pruning again ----------

  /** The items a selection leaves. */
  function Left(sorted: seq<Item>, index: nat, cutoff: Option<int>, keep: Option<nat>): seq<Item> {
    if sorted == [] then []
    else
      (if Selected(sorted[0], index, cutoff, keep) then [] else [sorted[0]])
      + Left(sorted[1..], index + 1, cutoff, keep)
  }

  lemma {:induction false} NothingLeftToSelect(
      sorted: seq<Item>, index: nat, again: nat, cutoff: Option<int>, keep: Option<nat>)
    requires again <= index
    ensures SelectFrom(Left(sorted, index, cutoff, keep), again, cutoff, keep) == []
  {
    if sorted != [] {
      var tail := Left(sorted[1..], index + 1, cutoff, keep);
      if Selected(sorted[0], index, cutoff, keep) {
        NothingLeftToSelect(sorted[1..], index + 1, again, cutoff, keep);
        assert [] + tail == tail;
      } else {
        NothingLeftToSelect(sorted[1..], index + 1, again + 1, cutoff, keep);
        assert ([sorted[0]] + tail)[1..] == tail;
      }
    }
  }

  /** The first item, and what is left of the others. */
  lemma LeftStep(sorted: seq<Item>, index: nat, cutoff: Option<int>, keep: Option<nat>)
    requires sorted != []
    ensures var tail := Left(sorted[1..], index + 1, cutoff, keep);
      Left(sorted, index, cutoff, keep) == if Selected(sorted[0], index, cutoff, keep) then tail else [sorted[0]] + tail
  {
    var tail := Left(sorted[1..], index + 1, cutoff, keep);
    assert [] + tail == tail;
  }

  lemma {:induction false} LeftMembers(sorted: seq<Item>, index: nat, cutoff: Option<int>, keep: Option<nat>, k: nat)
    requires NewestFirst(sorted) && k < |sorted|
    ensures sorted[k] in Left(sorted, index, cutoff, keep) <==> !Selected(sorted[k], index + k, cutoff, keep)
  {
    HeadIsNewest(sorted);
    LeftStep(sorted, index, cutoff, keep);
    if k == 0 {
      LeftInOrder(sorted[1..], index + 1, cutoff, keep);
    } else {
      assert sorted[1..][k - 1] == sorted[k] && sorted[k] in sorted[1..];
      hide Left, Selected, NewestFirst;
      LeftMembers(sorted[1..], index + 1, cutoff, keep, k - 1);
      assert index + 1 + (k - 1) == index + k;
    }
  }

  lemma {:induction false} LeftInOrder(sorted: seq<Item>, index: nat, cutoff: Option<int>, keep: Option<nat>)
    requires NewestFirst(sorted)
    ensures forall x :: x in Left(sorted, index, cutoff, keep) ==> x in sorted
    ensures NewestFirst(Left(sorted, index, cutoff, keep))
  {
    if sorted != [] {
      hide Left, Selected, NewestFirst;
      HeadIsNewest(sorted);
      LeftStep(sorted, index, cutoff, keep);
      LeftInOrder(sorted[1..], index + 1, cutoff, keep);
      ConsNewest(sorted[0], Left(sorted[1..], index + 1, cutoff, keep));
    }
  }

  /** After the selection is deleted, selecting again at the same time with
      the same rules gives nothing, whatever times the items record. */
  lemma PruningAgainSelectsNothing(items: seq<Item>, now: int, olderThan: Option<nat>, keep: Option<nat>, earliest: int)
    requires NewestFirst(items)
    ensures var ids := Select(items, now, olderThan, keep, earliest);
      Select(WithoutAll(items, ids), now, olderThan, keep, earliest) == []
  {
    if olderThan.Some? || keep.Some? {
      var ids := Select(items, now, olderThan, keep, earliest);
      var cutoff := if olderThan.Some? then Some(Cutoff(now, olderThan.value, earliest)) else None;
      SortOfNewestFirst(items, items);
      WithoutAllMembers(items, ids);
      LeftInOrder(items, 0, cutoff, keep);
      var left := Left(items, 0, cutoff, keep);
      forall x ensures x in left <==> x in items && x.id !in ids {
        if x in items {
          var k :| 0 <= k < |items| && items[k] == x;
          LeftMembers(items, 0, cutoff, keep, k);
          SelectedExactly(items, 0, cutoff, keep, k);
        }
      }
      SameMembers(WithoutAll(items, ids), left);
      SortOfNewestFirst(left, left);
      NothingLeftToSelect(items, 0, 0, cutoff, keep);
    }
  }
}
