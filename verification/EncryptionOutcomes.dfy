/** What comes of each operation when a device is alone: the state it leaves,
    from what it saw to what the server made of it, and every refusal. */
module EncryptionOutcomes {
  import opened Prelude
  import opened EncryptionServer
  import opened EncryptionClient
  import opened EncryptionProtocol
  import opened EncryptionSafety
  import opened EncryptionRecovery

  /** A step taken on the newest state, and the arrival of what it sends. */
  function Alone(w: World, a: Action): World
    requires w.past != []
  {
    if SentBy(w, a).Some? then After(w, Exchange(a, SentBy(w, a).value)) else w
  }

  /** The exchange leaves what the server makes of the request. */
  lemma AloneServes(w: World, a: Action)
    requires w.past != [] && !a.Deliver? && !a.LeaseEnds?
    ensures Alone(w, a).past != [] && w.past <= Alone(w, a).past
    ensures SentBy(w, a).None? ==> Alone(w, a) == w
    ensures SentBy(w, a).Some? ==>
      Now(Alone(w, a)) == Serve(Now(w), SentBy(w, a).value.from_, SentBy(w, a).value.request)
  {
    hide SentBy, Check, Apply, Exchange, After;
    if SentBy(w, a).Some? {
      Exchanged(w, a, SentBy(w, a).value);
    }
  }

  function Newest(w: World): nat
    requires w.past != []
  {
    |w.past| - 1
  }

  /** Sealed under `key`, wrapped with these words. */
  function SealOf(key: Key, words: Words): Seal {
    Seal(KeyId(key), Header(KeyId(key), key, words))
  }

  // ---------- each operation ----------

  /** Set-up encrypts an empty plaintext workspace, and changes no other. */
  lemma SetUpAlone(w: World, d: Device, words: Words)
    requires w.past != []
    ensures var s := Now(w);
      Now(Alone(w, SetUp(d, Newest(w), words))) ==
        if s.session.None? && s.seal.None? && s.items == map[] then s.(seal := Some(SealOf(w.nextKey, words))) else s
  {
    AloneServes(w, SetUp(d, Newest(w), words));
    hide After, Exchange, Alone;
    assert Now(w).items == map[] <==> |Now(w).items| == 0;
  }

  /** A fresh start encrypts any plaintext workspace, and sets its items
      aside. */
  lemma StartFreshAlone(w: World, d: Device, words: Words)
    requires w.past != []
    ensures var s := Now(w);
      Now(Alone(w, StartFresh(d, Newest(w), words))) ==
        if s.session.None? && s.seal.None? then
          s.(seal := Some(SealOf(w.nextKey, words)), plain := s.plain + s.items.Keys, items := map[])
        else s
  {
    AloneServes(w, StartFresh(d, Newest(w), words));
    hide After, Exchange, Alone;
  }

  /** With the current words the words are changed, and nothing else: in
      particular not the key. */
  lemma ChangeWordsAlone(start: World, actions: seq<Action>, d: Device, current: Words, changed: Words)
    requires IsStart(start)
    ensures var w := After(start, actions);
      var s := Now(w);
      Now(Alone(w, Action.ChangeWords(d, Newest(w), current, changed))) ==
        if s.session.None? && s.seal.Some? && current == s.seal.value.header.words then
          s.(seal := Some(s.seal.value.(header := s.seal.value.header.(words := changed))))
        else s
  {
    AlwaysInvariant(start, actions);
    var w := After(start, actions);
    hide *;
    NowIsSound(w);
    AloneServes(w, Action.ChangeWords(d, Newest(w), current, changed));
    ChangeSent(w, d, current, changed);
    ChangeServed(Now(w), w.nextKey, d, current, changed);
  }

  lemma ChangeSent(w: World, d: Device, current: Words, changed: Words)
    requires w.past != []
    ensures SentBy(w, Action.ChangeWords(d, Newest(w), current, changed)) ==
      ToSend(d, ChangeWordsRequest(Now(w), current, changed), Some(changed))
  {
    hide ChangeWordsRequest;
  }

  lemma ChangeServed(s: Server, limit: Key, d: Device, current: Words, changed: Words)
    requires ServerOk(s, limit)
    ensures var request := ChangeWordsRequest(s, current, changed);
      if s.session.None? && s.seal.Some? && current == s.seal.value.header.words then
        && request.Ok?
        && Serve(s, d, request.value) == s.(seal := Some(s.seal.value.(header := s.seal.value.header.(words := changed))))
      else request.Err?
  {
  }

  /** The session a beginning opens. */
  function SessionOf(kind: Kind, d: Device, key: Key, words: Words): Session {
    Session(kind, d, false, KeyId(key), Header(KeyId(key), key, words), map[])
  }

  /** A migration begins from plaintext only. */
  lemma BeginMigrateAlone(w: World, d: Device, words: Words)
    requires w.past != []
    ensures var s := Now(w);
      Now(Alone(w, BeginMigrate(d, Newest(w), words))) ==
        if s.session.None? && s.seal.None? && KeyId(w.nextKey) !in s.ended then
          s.(session := Some(SessionOf(Kind.Migrate, d, w.nextKey, words)))
        else s
  {
    AloneServes(w, BeginMigrate(d, Newest(w), words));
    hide After, Exchange, Alone;
  }

  /** A rotation begins from the key the device has only. */
  lemma BeginRotateAlone(w: World, d: Device, oldKey: Key, words: Words)
    requires w.past != []
    ensures var s := Now(w);
      Now(Alone(w, BeginRotate(d, Newest(w), oldKey, words))) ==
        if s.session.None? && s.seal.Some? && s.seal.value.keyId == KeyId(oldKey) && KeyId(w.nextKey) !in s.ended then
          s.(session := Some(SessionOf(Kind.Rotate, d, w.nextKey, words)))
        else s
  {
    AloneServes(w, BeginRotate(d, Newest(w), oldKey, words));
    hide After, Exchange, Alone;
  }

  /** The workspace is open for writes under this key, or in plaintext. */
  predicate OpenTo(s: Server, key: Option<Key>) {
    s.session.None? && match key
                       case None => s.seal.None?
                       case Some(k) => s.seal.Some? && s.seal.value.keyId == KeyId(k)
  }

  /** An upload adds one item, sealed under the device's key, exactly when that
      is the workspace's. */
  lemma UploadAlone(w: World, d: Device, item: Item, key: Option<Key>)
    requires w.past != []
    ensures var s := Now(w);
      Now(Alone(w, Upload(d, item, key))) ==
        if OpenTo(s, key) && item !in s.items then s.(items := s.items[item := key]) else s
  {
    AloneServes(w, Upload(d, item, key));
    hide After, Exchange, Alone;
  }

  lemma DiscardAlone(w: World, d: Device, item: Item, key: Option<Key>)
    requires w.past != []
    ensures var s := Now(w);
      Now(Alone(w, Discard(d, item, key))) == if OpenTo(s, key) then s.(items := s.items - {item}) else s
  {
    AloneServes(w, Discard(d, item, key));
    hide After, Exchange, Alone;
  }

  // ---------- whole rewrites ----------

  /** A whole rewrite by a device alone: it begins, holds the session, copies
      each item, and commits. */
  function WholeRewrite(w: World, begin: Action, d: Device, items: seq<Item>, source: Option<Key>): World
    requires w.past != [] && !begin.Deliver? && !begin.LeaseEnds?
  {
    AloneServes(w, begin);
    var begun := Alone(w, begin);
    if HoldRequest(Now(begun), d).Ok? then After(begun, Recovery(begun, d, items, source, w.nextKey)) else begun
  }

  lemma RewritingEnds(w: World, begin: Action, kind: Kind, d: Device, words: Words, items: seq<Item>, source: Option<Key>)
    requires Invariant(w) && !begin.Deliver? && !begin.LeaseEnds?
    requires Alone(w, begin).past != []
    requires Now(Alone(w, begin)) == Now(w).(session := Some(SessionOf(kind, d, w.nextKey, words)))
    requires forall item :: item in items <==> item in Now(w).items
    requires forall item :: item in Now(w).items ==> Now(w).items[item] == source
    ensures var end := Now(WholeRewrite(w, begin, d, items, source));
      && Join(end, words) == Ok(w.nextKey) && end.items.Keys == Now(w).items.Keys
      && (forall item :: item in end.items ==> end.items[item] == Some(w.nextKey))
  {
    var begun := Alone(w, begin);
    AloneIsSound(w, begin);
    hide After, Invariant, Alone, Recovery, SentBy;
    FinishedFrom(begun, d, words, items, source, w.nextKey);
  }

  lemma AloneIsSound(w: World, a: Action)
    requires Invariant(w)
    ensures Invariant(Alone(w, a))
  {
    hide Invariant, SentBy;
    if SentBy(w, a).Some? {
      AfterKeeps(w, Exchange(a, SentBy(w, a).value));
    }
  }

  /** In every reachable plaintext workspace a device alone migrates every item
      to a new key, which the words then give. */
  lemma MigrationCompletes(start: World, actions: seq<Action>, d: Device, words: Words, items: seq<Item>)
    requires IsStart(start) && OpenTo(Now(After(start, actions)), None)
    requires forall item :: item in items <==> item in Now(After(start, actions)).items
    ensures var w := After(start, actions);
      var end := Now(WholeRewrite(w, BeginMigrate(d, Newest(w), words), d, items, None));
      && Join(end, words) == Ok(w.nextKey) && end.items.Keys == Now(w).items.Keys
      && (forall item :: item in end.items ==> end.items[item] == Some(w.nextKey))
  {
    AlwaysInvariant(start, actions);
    var w := After(start, actions);
    assert ServerOk(Now(w), w.nextKey);
    hide After, IsStart, Invariant, Alone, WholeRewrite, Recovery;
    AloneServes(w, BeginMigrate(d, Newest(w), words));
    BeginMigrateAlone(w, d, words);
    RewritingEnds(w, BeginMigrate(d, Newest(w), words), Kind.Migrate, d, words, items, None);
  }

  /** In every reachable encrypted workspace a device that has its key, alone,
      rotates every item to a new one, which the new words then give. */
  lemma RotationCompletes(start: World, actions: seq<Action>, d: Device, oldKey: Key, words: Words, items: seq<Item>)
    requires IsStart(start) && OpenTo(Now(After(start, actions)), Some(oldKey))
    requires forall item :: item in items <==> item in Now(After(start, actions)).items
    ensures var w := After(start, actions);
      var end := Now(WholeRewrite(w, BeginRotate(d, Newest(w), oldKey, words), d, items, Some(oldKey)));
      && Join(end, words) == Ok(w.nextKey) && end.items.Keys == Now(w).items.Keys
      && (forall item :: item in end.items ==> end.items[item] == Some(w.nextKey))
  {
    AlwaysInvariant(start, actions);
    var w := After(start, actions);
    assert ServerOk(Now(w), w.nextKey);
    hide After, IsStart, Invariant, Alone, WholeRewrite, Recovery;
    AloneServes(w, BeginRotate(d, Newest(w), oldKey, words));
    BeginRotateAlone(w, d, oldKey, words);
    RewritingEnds(w, BeginRotate(d, Newest(w), oldKey, words), Kind.Rotate, d, words, items, Some(oldKey));
  }

  // ---------- refusals ----------

  /** What a device itself refuses, and why: a beginning on a state it cannot
      begin from. */
  lemma DeviceRefusesExactly(s: Server, words: Words, key: Key, oldKey: Key)
    ensures SetUpRequest(s, words, key).Err? <==> s.session.Some? || s.seal.Some? || s.items != map[]
    ensures SetUpRequest(s, words, key).Err? ==>
      SetUpRequest(s, words, key).error ==
        if s.session.Some? then Rewriting else if s.seal.Some? then AlreadyEncrypted else HasItems
    ensures FreshStartRequest(s, words, key).Err? <==> s.session.Some? || s.seal.Some?
    ensures FreshStartRequest(s, words, key).Err? ==>
      FreshStartRequest(s, words, key).error == if s.session.Some? then Rewriting else AlreadyEncrypted
    ensures CheckMigrate(s) ==
      if s.session.Some? then Some(Rewriting) else if s.seal.Some? then Some(AlreadyEncrypted) else None
    ensures CheckRotate(s, oldKey) ==
      if s.session.Some? then Some(Rewriting) else if s.seal.None? then Some(NotEncrypted)
      else if s.seal.value.keyId != KeyId(oldKey) then Some(KeyMismatch) else None
  {
    assert s.items == map[] <==> |s.items| == 0;
  }

  predicate InSession(r: Request) {
    r.Heartbeat? || r.TakeOver? || r.Stage? || r.Commit? || r.Abort?
  }

  /** The session a request of an open rewrite names, if it names one. */
  function SessionNamed(r: Request): Option<KeyId> {
    match r
    case Stage(_, _, keyId) => Some(keyId)
    case Commit(keyId) => Some(keyId)
    case Abort(keyId) => Some(keyId)
    case _ => None
  }

  /** What the server refuses, by its reasons. */
  lemma ServerRefusesExactly(s: Server, d: Device, r: Request)
    ensures Check(s, d, r) == Some(NotFound) <==>
      InSession(r) && (s.session.None? || (SessionNamed(r).Some? && SessionNamed(r).value != s.session.value.newKeyId))
    ensures Check(s, d, r) == Some(LeaseHeld) <==>
      && InSession(r) && s.session.Some? && d != s.session.value.holder && (r.TakeOver? ==> !s.session.value.leaseEnded)
      && (SessionNamed(r).Some? ==> SessionNamed(r).value == s.session.value.newKeyId)
    ensures Check(s, d, r) == Some(RewriteInProgress) <==>
      !InSession(r) && s.session.Some? && !(r.Begin? && r.newKeyId == s.session.value.newKeyId)
    ensures Check(s, d, r) == Some(RewriteEnded) <==> r.Begin? && s.session.None? && r.newKeyId in s.ended
    ensures Check(s, d, r) == Some(RewriteIncomplete) <==>
      && r.Commit? && s.session.Some? && s.session.value.newKeyId == r.committed && s.session.value.holder == d
      && exists item :: item in s.items && item !in s.session.value.staged
    ensures Check(s, d, r) == Some(KeyIdMismatch) <==>
      s.session.None? && KeyMatters(s, r) && KeyNamed(r) != KeyIdNow(s)
    ensures Check(s, d, r) == Some(InvalidRequest) <==>
      && s.session.None?
      && (|| (r.Enable? && s.seal.None? && s.items != map[])
          || (r.Begin? && r.newKeyId !in s.ended && r.expectedNow == KeyIdNow(s) && (r.kind == Migrate <==> s.seal.Some?)))
  {
  }

  /** The key a request says the workspace has. */
  function KeyNamed(r: Request): Option<KeyId> {
    match r
    case Enable(_, keyId) => Some(keyId)
    case FreshStart(_, keyId) => Some(keyId)
    case ReplaceHeader(expected, _) => Some(expected)
    case Begin(_, expected, _, _) => expected
    case Put(_, _, expected) => expected
    case Delete(_, expected) => expected
    case _ => None
  }

  /** And whether it must be right: sealing may also begin from plaintext. */
  predicate KeyMatters(s: Server, r: Request) {
    !InSession(r) && ((r.Enable? || r.FreshStart?) ==> s.seal.Some?) && (r.Begin? ==> r.newKeyId !in s.ended)
  }
}
