/** The loop that keeps the list cache current, and the identities that tell
    caches of different keys apart. */
module RefreshLoops {
  import opened Prelude
  import opened Listings
  import opened ListCaches
  import ItemIds

  // ---------- identities ----------

  const KEY_ID_DIGITS: nat := 16
  const PLAIN: string := " plain"
  const KEY: string := " key "

  type KeyId = k: string | ItemIds.IsLowerHex(k, KEY_ID_DIGITS) witness "0000000000000000"

  function IdentityFor(base: string, key: Option<KeyId>): string {
    match key case Some(k) => base + KEY + k case None => base + PLAIN
  }

  predicate EndsWith(text: string, end: string) {
    |text| >= |end| && text[|text| - |end|..] == end
  }

  /** Where `part` last occurs in `text`. */
  function LastOf(text: string, part: string): (at: Option<nat>)
    ensures at.Some? ==> at.value <= |text|
  {
    if EndsWith(text, part) then Some(|text| - |part|)
    else if text == [] then None
    else LastOf(text[..|text| - 1], part)
  }

  /** The store an identity is of, whatever its key. */
  function BaseOf(identity: string): string {
    if EndsWith(identity, PLAIN) then identity[..|identity| - |PLAIN|]
    else
      match LastOf(identity, KEY)
      case Some(at) => identity[..at]
      case None => identity
  }

  lemma {:induction false} LastKey(base: string, digits: string)
    requires forall c :: c in digits ==> ItemIds.IsLowerHexDigit(c)
    ensures LastOf(base + KEY + digits, KEY) == Some(|base|)
  {
    var text := base + KEY + digits;
    if digits == [] {
      assert text == base + KEY && text[|base|..] == KEY;
    } else {
      assert text[|text| - 1] in digits;
      assert !EndsWith(text, KEY) by {
        assert text[|text| - 5..][4] == text[|text| - 1];
        assert KEY[4] == ' ';
      }
      assert text[..|text| - 1] == base + KEY + digits[..|digits| - 1];
      LastKey(base, digits[..|digits| - 1]);
    }
  }

  /** The base of an identity is what it was made from, whatever it holds. */
  lemma BaseOfIdentity(base: string, key: Option<KeyId>)
    ensures BaseOf(IdentityFor(base, key)) == base
  {
    var identity := IdentityFor(base, key);
    match key
    case None =>
      assert identity[|base|..] == PLAIN && identity[..|base|] == base;
    case Some(k) =>
      assert identity[|identity| - 1] == k[15];
      assert !EndsWith(identity, PLAIN) by {
        assert identity[|identity| - 6..][5] == identity[|identity| - 1];
        assert PLAIN[5] == 'n';
      }
      LastKey(base, k);
      assert identity[..|base|] == base;
  }

  /** So an identity names one store and one key. */
  lemma IdentityNamesOneKey(base: string, key: Option<KeyId>, otherBase: string, other: Option<KeyId>)
    requires IdentityFor(base, key) == IdentityFor(otherBase, other)
    ensures base == otherBase && key == other
  {
    BaseOfIdentity(base, key);
    BaseOfIdentity(otherBase, other);
    var identity := IdentityFor(base, key);
    assert key.Some? ==> identity[|base| + 1] == 'k' && identity[|base| + 5..] == key.value;
    assert key.None? ==> identity[|base| + 1] == 'p';
    assert other.Some? ==> identity[|base| + 1] == 'k' && identity[|base| + 5..] == other.value;
    assert other.None? ==> identity[|base| + 1] == 'p';
  }

  // ---------- one check ----------

  /** A connection, which uses one key for as long as it lives. */
  datatype Connection = Connection(key: Option<KeyId>)

  /** What one check meets: whether the store opens, how it answers, and
      whether the file can be written. */
  datatype Tick = Tick(
    opening: Result<Connection, StoreError>,
    listing: Result<seq<Id>, StoreError>,
    answer: Id -> Reply,
    all: Result<seq<Item>, StoreError>,
    now: int,
    writable: bool)

  /** The loop's variables, and the file. */
  datatype State = State(store: Option<Connection>, cache: Option<Saved>, file: Option<Saved>)

  /** The connection a check uses: the kept one, or a new one. */
  function Connected(s: State, tick: Tick): Result<Connection, StoreError> {
    if s.store.Some? then Ok(s.store.value) else tick.opening
  }

  /** The cache to refresh: none when it is of another key. */
  function Matching(cache: Option<Saved>, identity: string): Option<Saved> {
    if cache.Some? && cache.value.store != identity then None else cache
  }

  /** What a check through a connection named `identity` makes of the cache. */
  function Checked(cache: Option<Saved>, identity: string, tick: Tick): Result<Saved, StoreError> {
    match Matching(cache, identity)
    case Some(saved) =>
      (match tick.listing
       case Err(error) => Err(error)
       case Ok(ids) =>
         match Refreshed(saved.items, ids, tick.answer)
         case Ok(items) => Ok(saved.(items := items, checkedAt := tick.now))
         case Err(error) => Err(error))
    case None =>
      match tick.all
      case Ok(items) => Ok(Saved(identity, tick.now, Sort(items)))
      case Err(error) => Err(error)
  }

  function Step(s: State, base: string, tick: Tick): State {
    match Connected(s, tick)
    case Err(_) => s.(store := None)
    case Ok(connected) =>
      var identity := IdentityFor(base, connected.key);
      match Checked(s.cache, identity, tick)
      case Err(_) => s.(store := None, cache := Matching(s.cache, identity))
      case Ok(saved) => State(Some(connected), Some(saved), if tick.writable then Some(saved) else s.file)
  }

  function Start(file: Option<Saved>, identity: string): State {
    State(None, if file.Some? && file.value.store == identity then file else None, file)
  }

  function Run(s: State, base: string, ticks: seq<Tick>): State
    decreases |ticks|
  {
    if ticks == [] then s else Run(Step(s, base, ticks[0]), base, ticks[1..])
  }

  /** The loop's variables as it holds them. */
  class Refresher {
    var store: Option<Connection>
    var cache: ListCache?
    var file: Option<Saved>
    const base: string

    constructor (file: Option<Saved>, identity: string)
      ensures base == BaseOf(identity) && Snapshot() == Start(file, identity)
      ensures cache != null ==> fresh(cache)
    {
      base := BaseOf(identity);
      this.file := file;
      store, cache := None, null;
      new;
      if file.Some? && file.value.store == identity {
        cache := new ListCache.Load(file.value);
      }
    }

    function Snapshot(): State
      reads this, cache
    {
      State(store, if cache == null then None else Some(cache.Value()), file)
    }

    /** One check: through the kept connection or a new one, which is given up
        again unless everything works. */
    method RefreshOnce(tick: Tick) returns (failed: Option<StoreError>)
      modifies this, cache
      ensures file == old(file)
      ensures cache != null && cache != old(cache) ==> fresh(cache)
      ensures var after := Step(old(Snapshot()), base, tick);
        Snapshot() == after.(file := old(file))
        && (failed.None? <==> after.store.Some?) && (failed.None? ==> cache != null)
    {
      hide Refreshed, IdentityFor;
      var kept := store;
      store := None;
      var connected;
      if kept.Some? {
        connected := kept.value;
      } else if tick.opening.Ok? {
        connected := tick.opening.value;
      } else {
        return Some(tick.opening.error);
      }
      var identity := IdentityFor(base, connected.key);
      if cache != null && cache.store != identity {
        cache := null;
      }
      if cache != null {
        var asked;
        failed, asked := cache.Refresh(tick.listing, tick.answer, tick.now);
      } else if tick.all.Ok? {
        cache := new ListCache(identity, tick.now, tick.all.value);
        failed := None;
      } else {
        failed := Some(tick.all.error);
      }
      if failed.None? {
        store := Some(connected);
      }
    }

    /** Check after check: refresh, then save what the refresh gave. */
    method Loop(ticks: seq<Tick>)
      modifies this, cache
      ensures Snapshot() == Run(old(Snapshot()), base, ticks)
    {
      hide Step;
      assert ticks[0..] == ticks;
      for k := 0 to |ticks|
        invariant cache != null && cache != old(cache) ==> fresh(cache)
        invariant Run(old(Snapshot()), base, ticks) == Run(Snapshot(), base, ticks[k..])
      {
        assert ticks[k..][0] == ticks[k] && ticks[k..][1..] == ticks[k + 1..];
        ghost var before := Snapshot();
        var failed := RefreshOnce(ticks[k]);
        StepFile(before, base, ticks[k]);
        if failed.None? && ticks[k].writable {
          file := Some(cache.Value());
        }
        assert Snapshot() == Step(before, base, ticks[k]);
      }
      assert ticks[|ticks|..] == [];
    }
  }

  /** A check writes the file exactly when it succeeded and the file can be
      written, and then writes the cache it holds; a failed check leaves the
      file alone and gives up the connection. */
  lemma StepFile(s: State, base: string, tick: Tick)
    ensures var after := Step(s, base, tick);
      && (after.store.Some? ==> after.cache.Some?)
      && after.file == if after.store.Some? && tick.writable then after.cache else s.file
  {
  }

  // ---------- every run ----------

  /** Which key each item was read under; nothing else is known of it. */
  type ReadUnder = (Option<KeyId>, Item) -> bool

  /** Whatever the store answers through the check's connection was read
      under that connection's key. */
  ghost predicate AnswersUnderItsKey(s: State, tick: Tick, readUnder: ReadUnder) {
    var connected := Connected(s, tick);
    connected.Ok? ==>
      var key := connected.value.key;
      && Faithful(tick.answer)
      && (forall id :: tick.answer(id).Found? ==> readUnder(key, tick.answer(id).item))
      && (tick.all.Ok? ==> forall x :: x in tick.all.value ==> readUnder(key, x))
  }

  ghost predicate AllUnderTheirKeys(s: State, base: string, ticks: seq<Tick>, readUnder: ReadUnder)
    decreases |ticks|
  {
    ticks != [] ==>
      && AnswersUnderItsKey(s, ticks[0], readUnder)
      && AllUnderTheirKeys(Step(s, base, ticks[0]), base, ticks[1..], readUnder)
  }

  /** The cache is named by the key all its items were read under. */
  ghost predicate NamedByItsKey(saved: Saved, base: string, readUnder: ReadUnder) {
    exists key :: saved.store == IdentityFor(base, key) && forall x :: x in saved.items ==> readUnder(key, x)
  }

  /** A refresh takes items from nowhere but the cache and the answers. */
  lemma {:induction false} FetchedFrom(ids: seq<Id>, answer: Id -> Reply, x: Item)
    requires Fetched(ids, answer).Ok? && x in Fetched(ids, answer).value
    ensures exists id :: answer(id) == Found(x)
  {
    if answer(ids[0]) != Found(x) {
      FetchedFrom(ids[1..], answer, x);
    }
  }

  lemma {:induction false} KeptFrom(items: seq<Item>, ids: seq<Id>)
    ensures forall x :: x in Kept(items, ids) ==> x in items
  {
    if items != [] { KeptFrom(items[1..], ids); }
  }

  lemma RefreshedFrom(items: seq<Item>, ids: seq<Id>, answer: Id -> Reply, x: Item)
    requires Refreshed(items, ids, answer).Ok? && x in Refreshed(items, ids, answer).value
    ensures x in items || exists id :: answer(id) == Found(x)
  {
    var kept := Kept(items, ids);
    var unknown := Unknown(ids, kept);
    SortSorts(kept + Fetched(unknown, answer).value);
    KeptFrom(items, ids);
    if x !in kept { FetchedFrom(unknown, answer, x); }
  }

  lemma CheckedIsNamedByItsKey(cache: Option<Saved>, base: string, key: Option<KeyId>, tick: Tick, readUnder: ReadUnder)
    requires cache.Some? ==> NamedByItsKey(cache.value, base, readUnder)
    requires forall id :: tick.answer(id).Found? ==> readUnder(key, tick.answer(id).item)
    requires tick.all.Ok? ==> forall x :: x in tick.all.value ==> readUnder(key, x)
    requires Checked(cache, IdentityFor(base, key), tick).Ok?
    ensures NamedByItsKey(Checked(cache, IdentityFor(base, key), tick).value, base, readUnder)
  {
    hide Refreshed, IdentityFor, Sort;
    var identity := IdentityFor(base, key);
    var checked := Checked(cache, identity, tick).value;
    assert checked.store == identity;
    forall x | x in checked.items ensures readUnder(key, x) {
      if Matching(cache, identity).Some? {
        var was :| cache.value.store == IdentityFor(base, was)
                   && forall y :: y in cache.value.items ==> readUnder(was, y);
        IdentityNamesOneKey(base, key, base, was);
        RefreshedFrom(cache.value.items, tick.listing.value, tick.answer, x);
      } else {
        SortSorts(tick.all.value);
      }
    }
  }

  /** Over every run, whatever openings and failures come in whatever order,
      the file is what it was at the start or a cache named by the identity
      of the key under which all its items were read. */
  lemma {:induction false} SavedUnderTheRightKey(s: State, base: string, ticks: seq<Tick>, readUnder: ReadUnder)
    requires s.cache.Some? ==> NamedByItsKey(s.cache.value, base, readUnder)
    requires AllUnderTheirKeys(s, base, ticks, readUnder)
    ensures var after := Run(s, base, ticks);
      after.file == s.file || (after.file.Some? && NamedByItsKey(after.file.value, base, readUnder))
    ensures var held := Run(s, base, ticks).cache; held.Some? ==> NamedByItsKey(held.value, base, readUnder)
    decreases |ticks|
  {
    hide Checked, IdentityFor, NamedByItsKey;
    if ticks != [] {
      var tick, next := ticks[0], Step(s, base, ticks[0]);
      var connected := Connected(s, tick);
      if connected.Ok? && Checked(s.cache, IdentityFor(base, connected.value.key), tick).Ok? {
        CheckedIsNamedByItsKey(s.cache, base, connected.value.key, tick, readUnder);
      }
      SavedUnderTheRightKey(next, base, ticks[1..], readUnder);
    }
  }

  /** The same from the very start: with a saved cache of the configured key
      read under that key, the loop follows the store through a migration, a
      rotation, or a join without ever mixing keys. */
  lemma LoopNeverMixesKeys(file: Option<Saved>, base: string, key: Option<KeyId>, ticks: seq<Tick>, readUnder: ReadUnder)
    requires file.Some? && file.value.store == IdentityFor(base, key)
      ==> forall x :: x in file.value.items ==> readUnder(key, x)
    requires AllUnderTheirKeys(Start(file, IdentityFor(base, key)), base, ticks, readUnder)
    ensures var after := Run(Start(file, IdentityFor(base, key)), BaseOf(IdentityFor(base, key)), ticks);
      after.file == file || (after.file.Some? && NamedByItsKey(after.file.value, base, readUnder))
  {
    BaseOfIdentity(base, key);
    SavedUnderTheRightKey(Start(file, IdentityFor(base, key)), base, ticks, readUnder);
  }

  // ---------- what a check leaves ----------

  /** The items kept of a cache that a check through this key refreshes. */
  function Held(cache: Option<Saved>, base: string, key: Option<KeyId>): seq<Item> {
    if cache.Some? && cache.value.store == IdentityFor(base, key) then cache.value.items else []
  }

  predicate HasCacheOf(s: State, base: string, key: Option<KeyId>) {
    s.cache.Some? && s.cache.value.store == IdentityFor(base, key)
  }

  /** A check fails exactly when the store does not open, or when what it needs
      fails: the listing or the metadata of a new id where a cache of the
      connection's key is held, and otherwise the full list. */
  lemma CheckFailsExactly(s: State, base: string, tick: Tick)
    requires s.cache.Some? ==> NewestFirst(s.cache.value.items)
    requires Orderly(tick)
    ensures Step(s, base, tick).store.None? <==>
      || Connected(s, tick).Err?
      || (if HasCacheOf(s, base, Connected(s, tick).value.key) then
            || tick.listing.Err?
            || exists id :: id in tick.listing.value && !HasId(s.cache.value.items, id) && tick.answer(id).Failed?
          else tick.all.Err?)
  {
    hide Refreshed, IdentityFor;
    if Connected(s, tick).Ok? && HasCacheOf(s, base, Connected(s, tick).value.key) && tick.listing.Ok? {
      RefreshedExactly(s.cache.value.items, tick.listing.value, tick.answer);
    }
  }

  /** After a check that worked the next one uses the same connection, and after
      one that failed it opens the store again. A failed check changes neither
      the file nor a cache of the connection's key. */
  lemma BetweenChecks(s: State, base: string, tick: Tick, next: Tick)
    ensures var after := Step(s, base, tick);
      && Connected(after, next) == (if after.store.Some? then Connected(s, tick) else next.opening)
      && (after.store.None? ==> after.file == s.file)
    ensures Step(s, base, tick).store.None? ==>
      var foreign := Connected(s, tick).Ok? && !HasCacheOf(s, base, Connected(s, tick).value.key);
      Step(s, base, tick).cache == if foreign then None else s.cache
  {
    hide Refreshed, IdentityFor;
  }

  /** What a saved cache of the connection's key holds is kept: the full list
      is not asked for. */
  lemma SavedCacheIsRefreshed(file: Saved, base: string, key: Option<KeyId>, tick: Tick)
    requires file.store == IdentityFor(base, key) && tick.opening == Ok(Connection(key)) && tick.listing.Ok?
    ensures var after := Step(Start(Some(file), file.store), base, tick);
      match Refreshed(file.items, tick.listing.value, tick.answer)
      case Ok(items) => after.cache == Some(Saved(file.store, tick.now, items))
      case Err(_) => after == Start(Some(file), file.store)
  {
    hide Refreshed, IdentityFor;
  }

  // ---------- the file is the store's list ----------

  /** What a store's answers always are: no id twice, and metadata of the item
      asked for. */
  ghost predicate Orderly(tick: Tick) {
    && Faithful(tick.answer)
    && (tick.listing.Ok? ==> NoDuplicates(tick.listing.value))
    && (tick.all.Ok? ==> DistinctIds(tick.all.value))
  }

  /** The store answers as it is in one state, all through the check. */
  ghost predicate AnswersAs(tick: Tick, state: StoreState) {
    && WellFormed(state) && Orderly(tick) && tick.answer == Answers(state)
    && tick.listing.Ok? && (forall id :: id in tick.listing.value <==> id in state)
    && tick.all.Ok? && (forall x :: x in tick.all.value <==> x.id in state && state[x.id] == Good(x))
  }

  /** What is under an id, sealed under a key, never changes. */
  type Metadata = (Option<KeyId>, Id) -> Item

  function As(meta: Metadata): ReadUnder {
    (key, x: Item) => x == meta(key, x.id)
  }

  /** The state's readable items, newest first, and of its damaged ones those
      that were `held`. */
  ghost predicate Lists(items: seq<Item>, state: StoreState, held: seq<Item>) {
    && NewestFirst(items)
    && forall x :: x in items <==> x.id in state && (state[x.id] == Good(x) || (state[x.id] == Damaged && x in held))
  }

  lemma {:induction false} HeldInOrder(s: State, base: string, ticks: seq<Tick>)
    requires s.cache.Some? ==> NewestFirst(s.cache.value.items)
    requires forall k :: 0 <= k < |ticks| ==> Orderly(ticks[k])
    ensures Run(s, base, ticks).cache.Some? ==> NewestFirst(Run(s, base, ticks).cache.value.items)
    decreases |ticks|
  {
    hide IdentityFor, Refreshed;
    if ticks != [] {
      var tick := ticks[0];
      assert Orderly(tick);
      if s.cache.Some? && tick.listing.Ok? {
        RefreshedExactly(s.cache.value.items, tick.listing.value, tick.answer);
      }
      if tick.all.Ok? {
        SortSorts(tick.all.value);
      }
      hide Orderly, NewestFirst, Sort;
      HeldInOrder(Step(s, base, tick), base, ticks[1..]);
    }
  }

  lemma {:induction false} RunSnoc(s: State, base: string, ticks: seq<Tick>, tick: Tick)
    ensures Run(s, base, ticks + [tick]) == Step(Run(s, base, ticks), base, tick)
    decreases |ticks|
  {
    hide Step;
    if ticks == [] {
      assert [tick][1..] == [] && ticks + [tick] == [tick];
    } else {
      assert (ticks + [tick])[1..] == ticks[1..] + [tick];
      RunSnoc(Step(s, base, ticks[0]), base, ticks[1..], tick);
    }
  }

  lemma KeptAndFound(items: seq<Item>, tick: Tick, state: StoreState)
    requires NewestFirst(items) && AnswersAs(tick, state)
    requires forall x :: x in items && x.id in state && state[x.id].Good? ==> state[x.id] == Good(x)
    ensures Refreshed(items, tick.listing.value, tick.answer).Ok?
    ensures Lists(Refreshed(items, tick.listing.value, tick.answer).value, state, items)
  {
    RefreshedExactly(items, tick.listing.value, tick.answer);
    hide Refreshed;
    var list := Refreshed(items, tick.listing.value, tick.answer).value;
    forall x ensures x in list <==> x.id in state && (state[x.id] == Good(x) || (state[x.id] == Damaged && x in items)) {
      if x.id in state && HasId(items, x.id) {
        var k :| 0 <= k < |items| && items[k].id == x.id;
        assert items[k] in items;
      }
    }
  }

  lemma CheckLists(s: State, base: string, key: Option<KeyId>, tick: Tick, state: StoreState, meta: Metadata)
    requires s.cache.Some? ==> NewestFirst(s.cache.value.items) && NamedByItsKey(s.cache.value, base, As(meta))
    requires Connected(s, tick) == Ok(Connection(key)) && AnswersAs(tick, state)
    requires forall id :: id in state && state[id].Good? ==> state[id].item == meta(key, id)
    ensures var after := Step(s, base, tick);
      && after.store == Some(Connection(key)) && after.cache.Some?
      && after.cache.value.store == IdentityFor(base, key) && after.cache.value.checkedAt == tick.now
      && Lists(after.cache.value.items, state, Held(s.cache, base, key))
  {
    hide IdentityFor, Refreshed;
    if HasCacheOf(s, base, key) {
      var was :| s.cache.value.store == IdentityFor(base, was)
                 && forall y :: y in s.cache.value.items ==> As(meta)(was, y);
      IdentityNamesOneKey(base, key, base, was);
      KeptAndFound(s.cache.value.items, tick, state);
    } else {
      SortSorts(tick.all.value);
    }
  }

  /** Whatever came before - openings and failures, migrations and rotations, a
      saved cache of this key or of another - a check that the store answers
      as it then is writes that state's list, under the name of the key it was
      read under. Of items that have become damaged since they were read, the
      list keeps those of a cache of that key; with none, it is what reading
      every item gives. */
  lemma LoopSavesTheList(file: Option<Saved>, base: string, key: Option<KeyId>, ticks: seq<Tick>, tick: Tick,
                         now: Option<KeyId>, state: StoreState, meta: Metadata)
    requires file.Some? && file.value.store == IdentityFor(base, key)
      ==> NewestFirst(file.value.items) && forall x :: x in file.value.items ==> x == meta(key, x.id)
    requires AllUnderTheirKeys(Start(file, IdentityFor(base, key)), base, ticks, As(meta))
    requires forall k :: 0 <= k < |ticks| ==> Orderly(ticks[k])
    requires Connected(Run(Start(file, IdentityFor(base, key)), base, ticks), tick) == Ok(Connection(now))
    requires AnswersAs(tick, state) && tick.writable
    requires forall id :: id in state && state[id].Good? ==> state[id].item == meta(now, id)
    ensures var identity := IdentityFor(base, key);
      var held := Run(Start(file, identity), base, ticks).cache;
      var saved := Run(Start(file, identity), BaseOf(identity), ticks + [tick]).file;
      && saved.Some? && saved.value.checkedAt == tick.now
      && saved.value.store == base + (if now.None? then " plain" else " key " + now.value)
      && Lists(saved.value.items, state, Held(held, base, now))
      && ((forall id :: id in state ==> state[id].Good?) ==> IsListing(saved.value.items, state))
  {
    var identity := IdentityFor(base, key);
    var start := Start(file, identity);
    BaseOfIdentity(base, key);
    SavedUnderTheRightKey(start, base, ticks, As(meta));
    HeldInOrder(start, base, ticks);
    RunSnoc(start, base, ticks, tick);
    var s := Run(start, base, ticks);
    CheckLists(s, base, now, tick, state, meta);
    StepFile(s, base, tick);
  }
}
