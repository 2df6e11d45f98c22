/** The local copy of a store's list: refreshing it, and replaying a
    command's own changes into it. */
module ListCaches {
  import opened Prelude
  import opened Listings

  datatype StoreError = Unreachable

  /** What asking the store for one id's metadata gives. */
  datatype Reply = Found(item: Item) | NotFound | Corrupt | Failed(error: StoreError)

  /** A store that answers with the item it was asked for. */
  ghost predicate Faithful(answer: Id -> Reply) {
    forall id :: answer(id).Found? ==> answer(id).item.id == id
  }

  // ---------- refreshing ----------

  /** The cached items that are still listed. */
  function Kept(items: seq<Item>, ids: seq<Id>): seq<Item> {
    if items == [] then []
    else (if items[0].id in ids then [items[0]] else []) + Kept(items[1..], ids)
  }

  /** The listed ids that are not among `known`, in the listing's order. */
  function Unknown(ids: seq<Id>, known: seq<Item>): seq<Id> {
    if ids == [] then []
    else (if HasId(known, ids[0]) then [] else [ids[0]]) + Unknown(ids[1..], known)
  }

  /** The metadata of `ids`; ids gone or damaged by now are passed over, and
      any other failure ends it. */
  function Fetched(ids: seq<Id>, answer: Id -> Reply): Result<seq<Item>, StoreError> {
    if ids == [] then Ok([])
    else
      match answer(ids[0])
      case Failed(error) => Err(error)
      case Found(item) =>
        (match Fetched(ids[1..], answer)
         case Ok(rest) => Ok([item] + rest)
         case Err(error) => Err(error))
      case _ => Fetched(ids[1..], answer)
  }

  function Refreshed(items: seq<Item>, ids: seq<Id>, answer: Id -> Reply): Result<seq<Item>, StoreError> {
    var kept := Kept(items, ids);
    match Fetched(Unknown(ids, kept), answer)
    case Ok(found) => Ok(Sort(kept + found))
    case Err(error) => Err(error)
  }

  function Failure<T>(result: Result<T, StoreError>): Option<StoreError> {
    match result case Ok(_) => None case Err(error) => Some(error)
  }

  /** A cache as it is written to its file. */
  datatype Saved = Saved(store: string, checkedAt: int, items: seq<Item>)

  function ApplyPut(items: seq<Item>, item: Item): seq<Item> {
    if HasId(items, item.id) then items else Sort(items + [item])
  }

  function ApplyDelete(items: seq<Item>, id: Id): seq<Item> {
    Without(items, id)
  }

  /** Asks for the listed ids that are not cached, one after another, until
      asking fails. */
  method FetchNew(ids: seq<Id>, kept: seq<Item>, answer: Id -> Reply)
    returns (news: seq<Item>, failed: Option<StoreError>, asked: seq<Id>)
    ensures asked <= Unknown(ids, kept)
    ensures Fetched(Unknown(ids, kept), answer) == if failed.Some? then Err(failed.value) else Ok(news)
    ensures failed.None? ==> asked == Unknown(ids, kept)
  {
    hide HasId, Fetched;
    news, failed, asked := [], None, [];
    ghost var all := Unknown(ids, kept);
    assert ids[0..] == ids && [] + all == all;
    BeforeNothing(Fetched(all, answer));
    for k := 0 to |ids|
      invariant all == asked + Unknown(ids[k..], kept)
      invariant Fetched(all, answer) == Before(news, Fetched(Unknown(ids[k..], kept), answer))
    {
      assert ids[k..][0] == ids[k] && ids[k..][1..] == ids[k + 1..];
      ghost var rest := Unknown(ids[k + 1..], kept);
      if HasId(kept, ids[k]) {
        assert [] + rest == rest;
      } else {
        BeforeFetched(news, ids[k], rest, answer);
        assert asked + ([ids[k]] + rest) == asked + [ids[k]] + rest;
        asked := asked + [ids[k]];
        var reply := answer(ids[k]);
        if reply.Failed? {
          failed := Some(reply.error);
          return;
        } else if reply.Found? {
          news := news + [reply.item];
        }
      }
    }
    assert ids[|ids|..] == [] && news + [] == news && asked + [] == asked;
    FetchedNothing(answer);
  }

  lemma FetchedNothing(answer: Id -> Reply)
    ensures Fetched([], answer) == Ok([])
  {
  }

  /** The cache in memory: which store it lists, and when it was checked. */
  class ListCache {
    var store: string
    var checkedAt: int
    var items: seq<Item>

    constructor (store: string, checkedAt: int, items: seq<Item>)
      ensures this.store == store && this.checkedAt == checkedAt && this.items == Sort(items)
    {
      this.store, this.checkedAt, this.items := store, checkedAt, Sort(items);
    }

    /** A saved cache, as it was saved. */
    constructor Load(saved: Saved)
      ensures Value() == saved
    {
      store, checkedAt, items := saved.store, saved.checkedAt, saved.items;
    }

    function Value(): Saved
      reads this
    {
      Saved(store, checkedAt, items)
    }

    /** A refresh from a listing of ids. `asked` are the ids whose metadata was
        requested. */
    method Refresh(listing: Result<seq<Id>, StoreError>, answer: Id -> Reply, now: int)
      returns (result: Option<StoreError>, asked: seq<Id>)
      modifies this`items, this`checkedAt
      ensures result.Some? ==> items == old(items) && checkedAt == old(checkedAt)
      ensures result == if listing.Err? then Some(listing.error) else Failure(Refreshed(old(items), listing.value, answer))
      ensures result.None? ==>
        && items == Refreshed(old(items), listing.value, answer).value && checkedAt == now
        && asked == Unknown(listing.value, Kept(old(items), listing.value))
      ensures listing.Ok? ==> asked <= Unknown(listing.value, Kept(old(items), listing.value))
    {
      hide Sort, Kept;
      if listing.Err? {
        return Some(listing.error), [];
      }
      var kept := Kept(items, listing.value);
      var news, failed;
      news, failed, asked := FetchNew(listing.value, kept, answer);
      if failed.Some? {
        return failed, asked;
      }
      items := Sort(kept + news);
      checkedAt := now;
      return None, asked;
    }

    /** After a put of this device's own. */
    method Put(item: Item)
      modifies this`items
      ensures items == ApplyPut(old(items), item)
    {
      if !HasId(items, item.id) {
        items := Sort(items + [item]);
      }
    }

    /** After a deletion of this device's own. */
    method Delete(id: Id)
      modifies this`items
      ensures items == ApplyDelete(old(items), id)
    {
      items := Without(items, id);
    }
  }

  /** `found`, then what is still to come. */
  function Before(found: seq<Item>, rest: Result<seq<Item>, StoreError>): Result<seq<Item>, StoreError> {
    match rest
    case Ok(items) => Ok(found + items)
    case Err(error) => Err(error)
  }

  lemma BeforeNothing(rest: Result<seq<Item>, StoreError>)
    ensures Before([], rest) == rest
  {
    assert rest.Ok? ==> [] + rest.value == rest.value;
  }

  lemma BeforeFetched(found: seq<Item>, id: Id, rest: seq<Id>, answer: Id -> Reply)
    ensures Before(found, Fetched([id] + rest, answer)) ==
      if answer(id).Failed? then Err(answer(id).error)
      else if answer(id).Found? then Before(found + [answer(id).item], Fetched(rest, answer))
      else Before(found, Fetched(rest, answer))
  {
    assert ([id] + rest)[1..] == rest;
    if answer(id).Found? && Fetched(rest, answer).Ok? {
      assert found + ([answer(id).item] + Fetched(rest, answer).value)
          == found + [answer(id).item] + Fetched(rest, answer).value;
    }
  }

  // ---------- what a refresh gives ----------

  lemma {:induction false} KeptMembers(items: seq<Item>, ids: seq<Id>)
    requires NewestFirst(items)
    ensures forall x :: x in Kept(items, ids) <==> x in items && x.id in ids
    ensures NewestFirst(Kept(items, ids))
  {
    if items != [] {
      HeadIsNewest(items);
      KeptMembers(items[1..], ids);
      var tail := Kept(items[1..], ids);
      ConsNewest(items[0], tail);
      assert [] + tail == tail;
    }
  }

  lemma {:induction false} UnknownMembers(ids: seq<Id>, known: seq<Item>)
    ensures forall id :: id in Unknown(ids, known) <==> id in ids && !HasId(known, id)
    ensures NoDuplicates(ids) ==> NoDuplicates(Unknown(ids, known))
  {
    hide HasId;
    if ids != [] {
      UnknownMembers(ids[1..], known);
      assert ids == [ids[0]] + ids[1..];
      assert forall k :: 0 <= k < |ids[1..]| ==> ids[1..][k] == ids[k + 1];
      assert NoDuplicates(ids) ==> ids[0] !in ids[1..];
    }
  }

  lemma {:induction false} FetchedMembers(ids: seq<Id>, answer: Id -> Reply)
    requires Faithful(answer) && NoDuplicates(ids)
    ensures Fetched(ids, answer).Err? <==> exists id :: id in ids && answer(id).Failed?
    ensures Fetched(ids, answer).Ok? ==>
      && (forall x :: x in Fetched(ids, answer).value <==> x.id in ids && answer(x.id) == Found(x))
      && DistinctIds(Fetched(ids, answer).value)
  {
    if ids != [] {
      assert ids == [ids[0]] + ids[1..];
      assert forall k :: 0 <= k < |ids[1..]| ==> ids[1..][k] == ids[k + 1];
      assert ids[0] !in ids[1..];
      FetchedMembers(ids[1..], answer);
      var rest := Fetched(ids[1..], answer);
      if rest.Ok? && answer(ids[0]).Found? {
        forall k | 0 <= k < |rest.value| ensures rest.value[k].id != ids[0] {
          assert rest.value[k] in rest.value;
        }
      }
    }
  }

  /** Whatever other devices do between the calls, the refreshed list is
      strictly newest first and holds exactly the listed items: as cached
      where the id was cached, and otherwise as the store answered; ids gone
      or damaged when asked for are left out. It fails exactly when asking
      for a new id fails otherwise. */
  lemma RefreshedExactly(items: seq<Item>, ids: seq<Id>, answer: Id -> Reply)
    requires NewestFirst(items) && NoDuplicates(ids) && Faithful(answer)
    ensures Refreshed(items, ids, answer).Err?
       <==> exists id :: id in ids && !HasId(items, id) && answer(id).Failed?
    ensures Refreshed(items, ids, answer).Ok? ==>
      var list := Refreshed(items, ids, answer).value;
      && NewestFirst(list)
      && forall x :: x in list <==>
           x.id in ids && (x in items || (!HasId(items, x.id) && answer(x.id) == Found(x)))
  {
    hide Sort, Fetched, Kept, Unknown, Insert;
    var kept := Kept(items, ids);
    var unknown := Unknown(ids, kept);
    KeptMembers(items, ids);
    UnknownMembers(ids, kept);
    FetchedMembers(unknown, answer);
    forall id | id in ids ensures HasId(kept, id) <==> HasId(items, id) {
      KeptIds(items, ids, id);
    }
    if Fetched(unknown, answer).Ok? {
      var found := Fetched(unknown, answer).value;
      forall i, j | 0 <= i < |kept| && 0 <= j < |found| ensures kept[i].id != found[j].id {
        assert found[j] in found;
      }
      assert DistinctIds(kept + found);
      SortSorts(kept + found);
    }
  }

  lemma KeptIds(items: seq<Item>, ids: seq<Id>, id: Id)
    requires NewestFirst(items) && id in ids
    ensures HasId(Kept(items, ids), id) <==> HasId(items, id)
  {
    KeptMembers(items, ids);
    var kept := Kept(items, ids);
    if HasId(items, id) {
      var k :| 0 <= k < |items| && items[k].id == id;
      assert items[k] in kept;
    }
    if HasId(kept, id) {
      var k :| 0 <= k < |kept| && kept[k].id == id;
      assert kept[k] in items;
    }
  }

  // ---------- agreement with a full reading ----------

  /** What a store holds under an id. */
  datatype Stored = Good(item: Item) | Damaged

  type StoreState = map<Id, Stored>

  ghost predicate WellFormed(state: StoreState) {
    forall id :: id in state && state[id].Good? ==> state[id].item.id == id
  }

  /** `items` is the store's full listing: its readable items, newest first. */
  ghost predicate IsListing(items: seq<Item>, state: StoreState) {
    && NewestFirst(items)
    && forall x :: x in items <==> x.id in state && state[x.id] == Good(x)
  }

  function AnswerOf(state: StoreState, id: Id): Reply {
    if id !in state then NotFound
    else match state[id] case Good(item) => Found(item) case Damaged => Corrupt
  }

  /** The store's answers while nothing changes. */
  function Answers(state: StoreState): Id -> Reply {
    (id: Id) => AnswerOf(state, id)
  }

  /** A refresh gives the same list as reading every item exactly when the
      cached entries of stored ids still are what the store holds. */
  lemma RefreshAgreesWithRead(items: seq<Item>, ids: seq<Id>, state: StoreState, full: seq<Item>)
    requires NewestFirst(items) && WellFormed(state) && IsListing(full, state)
    requires NoDuplicates(ids) && forall id :: id in ids <==> id in state
    ensures Refreshed(items, ids, Answers(state)) == Ok(full)
       <==> forall x :: x in items && x.id in state ==> state[x.id] == Good(x)
  {
    RefreshedExactly(items, ids, Answers(state));
    var list := Refreshed(items, ids, Answers(state)).value;
    if forall x :: x in items && x.id in state ==> state[x.id] == Good(x) {
      forall x ensures x in list <==> x in full {
        if x in full && HasId(items, x.id) {
          var k :| 0 <= k < |items| && items[k].id == x.id;
          assert items[k] in items;
        }
      }
      SameMembers(list, full);
    } else {
      var x :| x in items && x.id in state && state[x.id] != Good(x);
      assert x in list && x !in full;
    }
  }

  // ---------- recording a command's changes ----------

  /** What a recorder notes of a call. */
  datatype Change = PutChange(item: Item) | Deleted(id: Id)

  /** How a call fails: not at all, without effect, or only its answer. */
  datatype Fault = NoFault | Refused | AnswerLost

  datatype Call = PutCall(item: Item, fault: Fault) | DeleteCall(id: Id, fault: Fault)

  /** Items of one content share their content key. */
  function ContentKey(id: Id): nat {
    id % ItemIds.KEYS
  }

  /** The first item listed with `key`. */
  function FindContent(items: seq<Item>, key: nat): Option<Item> {
    if items == [] then None
    else if ContentKey(items[0].id) == key then Some(items[0])
    else FindContent(items[1..], key)
  }

  /** The list once `call` took effect: content already stored is not stored
      again. */
  function Effect(items: seq<Item>, call: Call): seq<Item> {
    match call
    case PutCall(item, _) =>
      if FindContent(items, ContentKey(item.id)).Some? then items else Insert(item, items)
    case DeleteCall(id, _) => Without(items, id)
  }

  function After(items: seq<Item>, call: Call): seq<Item> {
    if call.fault == Refused then items else Effect(items, call)
  }

  /** What the recorder notes of `call`: what a successful put returned, and
      a successful deletion. */
  function Noted(items: seq<Item>, call: Call): seq<Change> {
    if call.fault != NoFault then []
    else
      match call
      case PutCall(item, _) =>
        (match FindContent(items, ContentKey(item.id))
         case Some(existing) => [PutChange(existing)]
         case None => [PutChange(item)])
      case DeleteCall(id, _) => if HasId(items, id) then [Deleted(id)] else []
  }

  /** The shared store, listed newest first. */
  class SharedStore {
    var items: seq<Item>

    constructor (items: seq<Item>)
      ensures this.items == items
    {
      this.items := items;
    }

    method Put(item: Item, fault: Fault) returns (stored: Option<Item>)
      modifies this
      ensures items == After(old(items), PutCall(item, fault))
      ensures stored.Some? <==> fault == NoFault
      ensures stored.Some? ==> Noted(old(items), PutCall(item, fault)) == [PutChange(stored.value)]
    {
      var existing := FindContent(items, ContentKey(item.id));
      if fault != Refused && existing.None? {
        items := Insert(item, items);
      }
      stored := if fault != NoFault then None else if existing.Some? then existing else Some(item);
    }

    method Delete(id: Id, fault: Fault) returns (deleted: bool)
      modifies this
      ensures items == After(old(items), DeleteCall(id, fault))
      ensures Noted(old(items), DeleteCall(id, fault)) == if deleted then [Deleted(id)] else []
    {
      deleted := fault == NoFault && HasId(items, id);
      if fault != Refused {
        items := Without(items, id);
      }
    }
  }

  /** A store that notes what is put and deleted through it. */
  class Recording {
    const inner: SharedStore
    var changes: seq<Change>

    constructor (inner: SharedStore)
      ensures this.inner == inner && changes == []
    {
      this.inner, changes := inner, [];
    }

    method Perform(call: Call)
      modifies this`changes, inner
      ensures inner.items == After(old(inner.items), call)
      ensures changes == old(changes) + Noted(old(inner.items), call)
    {
      match call
      case PutCall(item, fault) =>
        var stored := inner.Put(item, fault);
        if stored.Some? {
          changes := changes + [PutChange(stored.value)];
        } else {
          assert changes == old(changes) + [];
        }
      case DeleteCall(id, fault) =>
        var deleted := inner.Delete(id, fault);
        if deleted {
          changes := changes + [Deleted(id)];
        } else {
          assert changes == old(changes) + [];
        }
    }

    /** A whole command. */
    method PerformAll(calls: seq<Call>)
      modifies this`changes, inner
      ensures inner.items == AfterAll(old(inner.items), calls)
      ensures changes == old(changes) + NotedAll(old(inner.items), calls)
    {
      hide After, Noted;
      ghost var before, notes := changes, NotedAll(inner.items, calls);
      assert calls[0..] == calls && before + notes == changes + notes;
      for k := 0 to |calls|
        invariant AfterAll(old(inner.items), calls) == AfterAll(inner.items, calls[k..])
        invariant before + notes == changes + NotedAll(inner.items, calls[k..])
      {
        ghost var was, items := changes, inner.items;
        assert calls[k..][0] == calls[k] && calls[k..][1..] == calls[k + 1..];
        Perform(calls[k]);
        ghost var rest := NotedAll(inner.items, calls[k + 1..]);
        assert was + (Noted(items, calls[k]) + rest) == was + Noted(items, calls[k]) + rest;
      }
      assert calls[|calls|..] == [] && changes + [] == changes;
    }
  }

  function AfterAll(items: seq<Item>, calls: seq<Call>): seq<Item>
    decreases |calls|
  {
    if calls == [] then items else AfterAll(After(items, calls[0]), calls[1..])
  }

  function NotedAll(items: seq<Item>, calls: seq<Call>): seq<Change>
    decreases |calls|
  {
    if calls == [] then [] else Noted(items, calls[0]) + NotedAll(After(items, calls[0]), calls[1..])
  }

  function ApplyChange(items: seq<Item>, change: Change): seq<Item> {
    match change
    case PutChange(item) => ApplyPut(items, item)
    case Deleted(id) => ApplyDelete(items, id)
  }

  function ApplyAll(items: seq<Item>, changes: seq<Change>): seq<Item>
    decreases |changes|
  {
    if changes == [] then items else ApplyAll(ApplyChange(items, changes[0]), changes[1..])
  }

  lemma {:induction false} FindsContent(items: seq<Item>, key: nat)
    ensures var content := FindContent(items, key);
      if content.Some? then content.value in items && ContentKey(content.value.id) == key
      else forall x :: x in items ==> ContentKey(x.id) != key
  {
    if items != [] {
      FindsContent(items[1..], key);
      assert items == [items[0]] + items[1..];
    }
  }

  lemma {:induction false} WithoutAbsent(items: seq<Item>, id: Id)
    ensures Without(items, id) == items <==> !HasId(items, id)
  {
    if items != [] {
      WithoutAbsent(items[1..], id);
      assert items == [items[0]] + items[1..];
      WithoutShrinks(items[1..], id);
      if HasId(items, id) && items[0].id != id {
        var k :| 0 <= k < |items| && items[k].id == id;
        assert items[1..][k - 1].id == id;
      }
      if HasId(items[1..], id) {
        var k :| 0 <= k < |items[1..]| && items[1..][k].id == id;
        assert items[k + 1].id == id;
      }
      if items[0].id != id {
        assert ([items[0]] + Without(items[1..], id))[1..] == Without(items[1..], id);
      }
    }
  }

  lemma {:induction false} WithoutShrinks(items: seq<Item>, id: Id)
    ensures |Without(items, id)| <= |items|
  {
    if items != [] { WithoutShrinks(items[1..], id); }
  }

  lemma AfterIsNewestFirst(items: seq<Item>, call: Call)
    requires NewestFirst(items)
    ensures NewestFirst(After(items, call))
  {
    match call
    case PutCall(item, _) =>
      FindsContent(items, ContentKey(item.id));
      if FindContent(items, ContentKey(item.id)).None? {
        assert forall k :: 0 <= k < |items| ==> items[k] in items;
        InsertKeepsOrder(item, items);
      }
    case DeleteCall(id, _) => WithoutMembers(items, id);
  }

  /** Replaying what was noted of one call into a cache that agreed with the
      store makes it agree again, unless the call took effect, changed the
      list, and only its answer was lost. */
  lemma ReplayOne(items: seq<Item>, call: Call)
    requires NewestFirst(items)
    ensures ApplyAll(items, Noted(items, call)) == After(items, call)
       <==> call.fault != AnswerLost || Effect(items, call) == items
  {
    if call.fault == NoFault {
      if call.PutCall? {
        var content := FindContent(items, ContentKey(call.item.id));
        FindsContent(items, ContentKey(call.item.id));
        if content.Some? {
          var k :| 0 <= k < |items| && items[k] == content.value;
          assert HasId(items, content.value.id);
          ApplySingle(items, PutChange(content.value));
        } else {
          assert forall k :: 0 <= k < |items| ==> items[k] in items;
          PutIsInsert(items, call.item);
          ApplySingle(items, PutChange(call.item));
        }
      } else {
        WithoutAbsent(items, call.id);
        ApplySingle(items, Deleted(call.id));
      }
    }
  }

  lemma ApplySingle(items: seq<Item>, change: Change)
    ensures ApplyAll(items, [change]) == ApplyChange(items, change)
  {
    assert [change][1..] == [];
  }

  lemma PutIsInsert(items: seq<Item>, item: Item)
    requires NewestFirst(items) && !HasId(items, item.id)
    ensures ApplyPut(items, item) == Insert(item, items)
  {
    hide Sort, Insert;
    InsertMembers(item, items);
    InsertKeepsOrder(item, items);
    SortSorts(items + [item]);
    assert DistinctIds(items + [item]);
    SameMembers(Sort(items + [item]), Insert(item, items));
  }

  lemma {:induction false} ApplyAllConcat(items: seq<Item>, a: seq<Change>, b: seq<Change>)
    ensures ApplyAll(items, a + b) == ApplyAll(ApplyAll(items, a), b)
    decreases |a|
  {
    if a == [] {
      assert a + b == b;
    } else {
      assert (a + b)[1..] == a[1..] + b;
      ApplyAllConcat(ApplyChange(items, a[0]), a[1..], b);
    }
  }

  /** A cache that was the store's list before a command is its list after
      it, whatever the command put and deleted, content stored already,
      refused calls, and one id deleted and put again included. */
  lemma {:induction false} ReplayFollowsTheStore(items: seq<Item>, calls: seq<Call>)
    requires NewestFirst(items)
    requires forall k :: 0 <= k < |calls| ==> calls[k].fault != AnswerLost
    ensures ApplyAll(items, NotedAll(items, calls)) == AfterAll(items, calls)
    ensures NewestFirst(AfterAll(items, calls))
    decreases |calls|
  {
    if calls != [] {
      var next := After(items, calls[0]);
      AfterIsNewestFirst(items, calls[0]);
      ReplayOne(items, calls[0]);
      ApplyAllConcat(items, Noted(items, calls[0]), NotedAll(next, calls[1..]));
      ReplayFollowsTheStore(next, calls[1..]);
    }
  }

  lemma {:induction false} AfterAllSnoc(items: seq<Item>, calls: seq<Call>, last: Call)
    ensures AfterAll(items, calls + [last]) == After(AfterAll(items, calls), last)
    ensures NotedAll(items, calls + [last]) == NotedAll(items, calls) + Noted(AfterAll(items, calls), last)
    decreases |calls|
  {
    if calls == [] {
      assert [last][1..] == [] && calls + [last] == [last];
      assert Noted(items, last) + [] == Noted(items, last) && [] + Noted(items, last) == Noted(items, last);
    } else {
      assert (calls + [last])[1..] == calls[1..] + [last];
      AfterAllSnoc(After(items, calls[0]), calls[1..], last);
      var first, rest := Noted(items, calls[0]), NotedAll(After(items, calls[0]), calls[1..]);
      assert first + (rest + Noted(AfterAll(items, calls), last)) == first + rest + Noted(AfterAll(items, calls), last);
    }
  }

  /** A command stops at the first call that fails, so only its last answer can
      be lost. The cache then follows the store exactly unless that call took
      effect and changed the list. */
  lemma CommandFollowsExactly(items: seq<Item>, answered: seq<Call>, last: Call)
    requires NewestFirst(items)
    requires forall k :: 0 <= k < |answered| ==> answered[k].fault != AnswerLost
    ensures var calls, before := answered + [last], AfterAll(items, answered);
      ApplyAll(items, NotedAll(items, calls)) == AfterAll(items, calls)
      <==> last.fault != AnswerLost || Effect(before, last) == before
  {
    var before := AfterAll(items, answered);
    ReplayFollowsTheStore(items, answered);
    AfterAllSnoc(items, answered, last);
    ApplyAllConcat(items, NotedAll(items, answered), Noted(before, last));
    ReplayOne(before, last);
  }

  /** A lost answer leaves the cache behind. */
  lemma LostAnswerLeavesTheCacheBehind(item: Item)
    ensures var calls := [PutCall(item, AnswerLost)];
      ApplyAll([], NotedAll([], calls)) != AfterAll([], calls)
  {
    var calls := [PutCall(item, AnswerLost)];
    assert calls[1..] == [];
    assert AfterAll([], calls) == [item] + [];
  }

  // ---------- the cache file ----------

  /** The saved cache of the store named `identity`, as a command uses it. */
  class CacheFile {
    const identity: string
    var file: Option<Saved>

    constructor (identity: string, file: Option<Saved>)
      ensures this.identity == identity && this.file == file
    {
      this.identity, this.file := identity, file;
    }

    /** The file's cache, if it is of this store. */
    function Load(): Option<Saved>
      reads this
    {
      if file.Some? && file.value.store == identity then file else None
    }

    /** Replays what a command did into the file's cache, if it lists this
        store; when it was last checked stays as it was. */
    method Apply(changes: seq<Change>, writable: bool)
      modifies this
      ensures file ==
        if writable && old(file).Some? && old(file).value.store == identity then
          Some(Saved(identity, old(file).value.checkedAt, ApplyAll(old(file).value.items, changes)))
        else old(file)
    {
      if changes == [] || Load().None? {
        return;
      }
      var saved := Load().value;
      var items := saved.items;
      for k := 0 to |changes|
        invariant ApplyAll(saved.items, changes) == ApplyAll(items, changes[k..])
      {
        assert changes[k..][0] == changes[k] && changes[k..][1..] == changes[k + 1..];
        items := ApplyChange(items, changes[k]);
      }
      assert changes[|changes|..] == [];
      if writable {
        file := Some(saved.(items := items));
      }
    }

    /** Refreshes the file's cache, if it lists this store; otherwise, and when
        the store fails, the file stays as it is. */
    method Refresh(listing: Result<seq<Id>, StoreError>, answer: Id -> Reply, now: int, writable: bool)
      modifies this
      ensures file ==
        if && writable && old(file).Some? && old(file).value.store == identity
           && listing.Ok? && Refreshed(old(file).value.items, listing.value, answer).Ok? then
          Some(Saved(identity, now, Refreshed(old(file).value.items, listing.value, answer).value))
        else old(file)
    {
      hide Refreshed;
      if Load().None? {
        return;
      }
      var cache := new ListCache.Load(Load().value);
      var failed, _ := cache.Refresh(listing, answer, now);
      if failed.None? && writable {
        file := Some(cache.Value());
      }
    }

    /** The store's items: with `reuse` by refreshing a saved cache of this
        store, and otherwise by reading them all; saved when that worked. */
    method Read(listing: Result<seq<Id>, StoreError>, answer: Id -> Reply, all: Result<seq<Item>, StoreError>,
                now: int, reuse: bool, writable: bool)
      returns (result: Result<seq<Item>, StoreError>)
      modifies this
      ensures result == if reuse && old(file).Some? && old(file).value.store == identity
        then (match listing
              case Ok(ids) => Refreshed(old(file).value.items, ids, answer)
              case Err(error) => Err(error))
        else (match all case Ok(items) => Ok(Sort(items)) case Err(error) => Err(error))
      ensures file == if result.Ok? && writable then Some(Saved(identity, now, result.value)) else old(file)
    {
      hide Refreshed;
      var saved := Load();
      if reuse && saved.Some? {
        var cache := new ListCache.Load(saved.value);
        var failed, _ := cache.Refresh(listing, answer, now);
        if failed.Some? {
          return Err(failed.value);
        }
        result := Ok(cache.items);
      } else {
        result := match all case Ok(items) => Ok(Sort(items)) case Err(error) => Err(error);
      }
      if result.Ok? && writable {
        file := Some(Saved(identity, now, result.value));
      }
    }
  }
}
