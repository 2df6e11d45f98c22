/** Any number of devices changing one workspace's encryption. A device acts on
    any answer the server ever gave; a request arrives at any later time, any
    number of times, or never; in between anything else may happen. */
module EncryptionProtocol {
  import opened Prelude
  import opened EncryptionServer
  import opened EncryptionClient

  /** A request on its way, and the words its sender was given for the new
      header, if it brings one. */
  datatype Sent = Sent(from_: Device, request: Request, words: Option<Words>)

  /** Every state the server has been in, all requests ever sent, and the next
      unused key. `words` are those of the last change of the header the
      server accepted, `openWords` those of the last rewrite it opened. */
  datatype World = World(past: seq<Server>, sent: set<Sent>, nextKey: Key,
                         words: Option<Words>, openWords: Option<Words>)

  datatype Action =
    | SetUp(d: Device, seen: nat, words: Words)
    | StartFresh(d: Device, seen: nat, words: Words)
    | ChangeWords(d: Device, seen: nat, current: Words, changed: Words)
    | BeginMigrate(d: Device, seen: nat, words: Words)
    | BeginRotate(d: Device, seen: nat, oldKey: Key, words: Words)
    | Hold(d: Device, seen: nat)
    | KeepLease(d: Device)
    | Copy(d: Device, seen: nat, read: nat, item: Item, source: Option<Key>, key: Key)
    | Finish(d: Device, seen: nat, key: Key)
    | GiveUp(d: Device, seen: nat)
    | Upload(d: Device, item: Item, itemKey: Option<Key>)
    | Discard(d: Device, item: Item, itemKey: Option<Key>)
    | Deliver(sent: Sent)
    | LeaseEnds

  function Now(w: World): Server
    requires w.past != []
  {
    w.past[|w.past| - 1]
  }

  function NewKeyOf(r: Request): Option<KeyId> {
    match r
    case Enable(_, keyId) => Some(keyId)
    case FreshStart(_, keyId) => Some(keyId)
    case Begin(_, _, keyId, _) => Some(keyId)
    case _ => None
  }

  function ToSend(d: Device, request: Result<Request, AdminError>, words: Option<Words>): Option<Sent> {
    if request.Ok? then Some(Sent(d, request.value, words)) else None
  }

  /** The session to `key`, as the device saw it. */
  predicate SawSession(w: World, seen: nat, key: Key) {
    seen < |w.past| && w.past[seen].session.Some? && w.past[seen].session.value.newKeyId == IdOf(key)
  }

  /** What a device's step sends. */
  function SentBy(w: World, a: Action): Option<Sent> {
    match a
    case SetUp(d, seen, words) =>
      if seen < |w.past| then ToSend(d, SetUpRequest(w.past[seen], words, w.nextKey), Some(words)) else None
    case StartFresh(d, seen, words) =>
      if seen < |w.past| then ToSend(d, FreshStartRequest(w.past[seen], words, w.nextKey), Some(words)) else None
    case ChangeWords(d, seen, current, changed) =>
      if seen < |w.past| then ToSend(d, ChangeWordsRequest(w.past[seen], current, changed), Some(changed)) else None
    case BeginMigrate(d, seen, words) =>
      if seen < |w.past| && CheckMigrate(w.past[seen]).None? then
        ToSend(d, BeginRequest(Migrate, None, words, w.nextKey), Some(words))
      else None
    case BeginRotate(d, seen, oldKey, words) =>
      if seen < |w.past| && CheckRotate(w.past[seen], oldKey).None? then
        ToSend(d, BeginRequest(Rotate, Some(oldKey), words, w.nextKey), Some(words))
      else None
    case Hold(d, seen) => if seen < |w.past| then ToSend(d, HoldRequest(w.past[seen], d), None) else None
    case KeepLease(d) => Some(Sent(d, Heartbeat, None))
    case Copy(d, seen, read, item, source, key) =>
      if SawSession(w, seen, key) && seen <= read < |w.past| && item in w.past[read].items && w.past[read].items[item] == source
      then Some(Sent(d, Stage(item, key, IdOf(key)), None)) else None
    case Finish(d, seen, key) => if SawSession(w, seen, key) then Some(Sent(d, Commit(IdOf(key)), None)) else None
    case GiveUp(d, seen) =>
      if seen < |w.past| && w.past[seen].session.Some? then
        Some(Sent(d, Abort(w.past[seen].session.value.newKeyId), None))
      else None
    case Upload(d, item, key) => Some(Sent(d, Put(item, key, KeyIdOf(key)), None))
    case Discard(d, item, key) => Some(Sent(d, Delete(item, KeyIdOf(key)), None))
    case Deliver(_) => None
    case LeaseEnds => None
  }

  function Send(w: World, sent: Sent): World {
    w.(sent := w.sent + {sent}, nextKey := if NewKeyOf(sent.request).Some? then w.nextKey + 1 else w.nextKey)
  }

  /** The words of the header after a request that was carried out. */
  function WordsAfter(w: World, s: Server, sent: Sent): Option<Words> {
    match sent.request
    case Enable(_, _) => if s.seal.None? then sent.words else w.words
    case FreshStart(_, _) => if s.seal.None? then sent.words else w.words
    case ReplaceHeader(_, _) => sent.words
    case Commit(_) => w.openWords
    case _ => w.words
  }

  function Arrive(w: World, sent: Sent): World
    requires w.past != []
  {
    var s := Now(w);
    if Check(s, sent.from_, sent.request).Some? then w
    else w.(past := w.past + [Apply(s, sent.from_, sent.request)],
            words := WordsAfter(w, s, sent),
            openWords := if sent.request.Begin? && s.session.None? then sent.words else w.openWords)
  }

  /** One step; one that cannot happen changes nothing. */
  function Next(w: World, a: Action): World
    requires w.past != []
  {
    if a.Deliver? then (if a.sent in w.sent then Arrive(w, a.sent) else w)
    else if a.LeaseEnds? then w.(past := w.past + [LeaseEnded(Now(w))])
    else if SentBy(w, a).Some? then Send(w, SentBy(w, a).value)
    else w
  }

  function After(w: World, actions: seq<Action>): (r: World)
    requires w.past != []
    ensures r.past != []
  {
    if actions == [] then w else Next(After(w, actions[..|actions| - 1]), actions[|actions| - 1])
  }

  /** A plaintext workspace, nothing on its way, and no key made twice. */
  ghost predicate IsStart(w: World) {
    && |w.past| == 1 && w.sent == {} && w.words.None?
    && w.past[0].seal.None? && w.past[0].session.None?
    && (forall id :: id in w.past[0].ended ==> id.number < w.nextKey)
    && forall item :: item in w.past[0].items ==> w.past[0].items[item].None?
  }

  // ---------- the invariant ----------

  /** The header names `keyId`, and holds the key of that id. */
  predicate Coherent(header: Header, keyId: KeyId) {
    header.keyId == keyId && IdOf(header.key) == keyId
  }

  function CurrentKey(s: Server): Option<Key> {
    if s.seal.Some? then Some(s.seal.value.header.key) else None
  }

  ghost predicate SessionOk(s: Server, session: Session) {
    && Coherent(session.newHeader, session.newKeyId)
    && (session.kind == Migrate <==> s.seal.None?)
    && session.newKeyId !in s.ended
    && (s.seal.Some? ==> s.seal.value.keyId.number < session.newKeyId.number)
    && session.staged.Keys <= s.items.Keys
    && (forall item :: item in session.staged ==> session.staged[item] == session.newHeader.key)
  }

  /** The header beside the key id is the right one, every item is under that
      key, and an open session's header and copies are of its new key. */
  ghost predicate ServerOk(s: Server, limit: Key) {
    && (s.seal.Some? ==> Coherent(s.seal.value.header, s.seal.value.keyId) && s.seal.value.keyId.number < limit)
    && (forall item :: item in s.items ==> s.items[item] == CurrentKey(s))
    && (forall id :: id in s.ended ==> id.number < limit)
    && (s.session.Some? ==> SessionOk(s, s.session.value) && s.session.value.newKeyId.number < limit)
  }

  /** A rewrite to `keyId` is over, and none will open again. */
  predicate Closed(s: Server, keyId: KeyId) {
    keyId in s.ended || (s.seal.Some? && keyId.number <= s.seal.value.keyId.number)
  }

  predicate Opened(s: Server, keyId: KeyId) {
    s.session.Some? && s.session.value.newKeyId == keyId
  }

  /** What an earlier state says of a later one: keys only move on, and while
      a session is open nothing but the session changes. */
  ghost predicate Follows(p: Server, q: Server) {
    && p.ended <= q.ended
    && (p.seal.Some? ==> q.seal.Some? && p.seal.value.keyId.number <= q.seal.value.keyId.number)
    && (p.session.Some? ==>
        var keyId := p.session.value.newKeyId;
        Closed(q, keyId) || (Opened(q, keyId) && q.items == p.items && q.seal == p.seal
          && q.session.value.newHeader == p.session.value.newHeader && q.session.value.kind == p.session.value.kind
          && p.session.value.staged.Keys <= q.session.value.staged.Keys))
  }

  /** What a device only sends. */
  ghost predicate RequestOk(s: Server, sent: Sent, limit: Key) {
    var r := sent.request;
    && (r.Enable? || r.FreshStart? ==>
        Coherent(r.header, r.keyId) && r.keyId.number < limit && sent.words == Some(r.header.words))
    && (r.ReplaceHeader? ==> Coherent(r.header, r.expected) && sent.words == Some(r.header.words))
    && (r.Begin? ==>
        && Coherent(r.newHeader, r.newKeyId) && r.newKeyId.number < limit && sent.words == Some(r.newHeader.words)
        && (r.expectedNow.Some? ==> r.expectedNow.value.number < r.newKeyId.number))
    && (r.Stage? ==>
        && r.stagedKeyId == IdOf(r.under)
        && (Closed(s, r.stagedKeyId) || (Opened(s, r.stagedKeyId) && r.item in s.items)))
    && (r.Put? ==> r.putExpected == KeyIdOf(r.key))
  }

  /** The words of the last accepted change open the header. */
  ghost predicate WordsOk(w: World)
    requires w.past != []
  {
    && (Now(w).seal.Some? ==> w.words == Some(Now(w).seal.value.header.words))
    && (Now(w).session.Some? ==> w.openWords == Some(Now(w).session.value.newHeader.words))
  }

  predicate SameNewKey(r: Request, t: Request) {
    NewKeyOf(r).Some? && NewKeyOf(r) == NewKeyOf(t)
  }

  /** Each new key is in one request only. */
  ghost predicate KeysUnique(w: World) {
    && (forall a, b :: a in w.sent && b in w.sent && SameNewKey(a.request, b.request) ==> a == b)
    && (forall a :: a in w.sent && NewKeyOf(a.request).Some? ==> NewKeyOf(a.request).value.number < w.nextKey)
  }

  /** A session was opened by a request that was sent. */
  ghost predicate SessionSent(w: World, s: Server) {
    s.session.Some? ==> exists sent :: sent in w.sent && Opens(sent, s)
  }

  /** The open session, and what it is to replace, are as `sent` says. */
  predicate Opens(sent: Sent, s: Server) {
    && s.session.Some? && sent.request.Begin?
    && sent.request.newKeyId == s.session.value.newKeyId && sent.request.newHeader == s.session.value.newHeader
    && sent.request.kind == s.session.value.kind && sent.request.expectedNow == KeyIdNow(s)
  }

  ghost predicate History(past: seq<Server>) {
    forall i, j :: 0 <= i <= j < |past| ==> Follows(past[i], past[j])
  }

  ghost predicate Invariant(w: World) {
    && w.past != []
    && History(w.past)
    && (forall i :: 0 <= i < |w.past| ==> ServerOk(w.past[i], w.nextKey) && SessionSent(w, w.past[i]))
    && (forall sent :: sent in w.sent ==> RequestOk(Now(w), sent, w.nextKey))
    && KeysUnique(w)
    && WordsOk(w)
  }

  // ---------- what the server does to a sound state ----------

  /** Whatever sound request arrives, the state stays sound. */
  lemma ServeKeeps(s: Server, sent: Sent, limit: Key)
    requires ServerOk(s, limit) && RequestOk(s, sent, limit) && Check(s, sent.from_, sent.request).None?
    ensures ServerOk(Apply(s, sent.from_, sent.request), limit)
  {
    hide Closed, Opened;
    if sent.request.Stage? {
      StageKeeps(s, sent, limit);
    } else if sent.request.Commit? {
      CommitKeeps(s, limit);
    }
  }

  lemma StageKeeps(s: Server, sent: Sent, limit: Key)
    requires sent.request.Stage?
    requires ServerOk(s, limit) && RequestOk(s, sent, limit) && Check(s, sent.from_, sent.request).None?
    ensures ServerOk(Apply(s, sent.from_, sent.request), limit)
  {
  }

  lemma CommitKeeps(s: Server, limit: Key)
    requires ServerOk(s, limit) && s.session.Some?
    ensures ServerOk(Committed(s), limit)
  {
  }

  lemma ServeFollows(s: Server, sent: Sent, limit: Key)
    requires ServerOk(s, limit) && RequestOk(s, sent, limit) && Check(s, sent.from_, sent.request).None?
    ensures Follows(s, Apply(s, sent.from_, sent.request))
  {
  }

  lemma FollowsTransitive(p: Server, q: Server, r: Server, limit: Key)
    requires Follows(p, q) && Follows(q, r) && ServerOk(q, limit)
    ensures Follows(p, r)
  {
  }

  /** What was sent stays sound while the server moves on. */
  lemma RequestStays(p: Server, q: Server, sent: Sent, limit: Key, limit': Key)
    requires RequestOk(p, sent, limit) && Follows(p, q) && limit <= limit'
    ensures RequestOk(q, sent, limit')
  {
  }

  // ---------- what a device sends ----------

  /** What a device sends of what it saw is sound, and a new key is new. */
  lemma SentIsOk(w: World, a: Action)
    requires Invariant(w) && SentBy(w, a).Some?
    ensures RequestOk(Now(w), SentBy(w, a).value, w.nextKey + 1)
    ensures NewKeyOf(SentBy(w, a).value.request).Some? ==>
      NewKeyOf(SentBy(w, a).value.request).value == IdOf(w.nextKey)
  {
    hide History, KeysUnique, WordsOk, SessionSent, Follows;
    if a.Copy? {
      hide RequestOk;
      CopyIsOk(w, a);
    } else if a.ChangeWords? {
      assert ServerOk(w.past[a.seen], w.nextKey);
    } else if a.BeginRotate? {
      assert ServerOk(w.past[a.seen], w.nextKey);
    } else {
      hide ServerOk, Closed, Opened;
    }
  }

  /** A copy is of an item the open session is to re-encrypt, or of a session
      that is over. */
  lemma CopyIsOk(w: World, a: Action)
    requires Invariant(w) && a.Copy? && SentBy(w, a).Some?
    ensures RequestOk(Now(w), SentBy(w, a).value, w.nextKey + 1)
  {
    hide KeysUnique, WordsOk, SessionSent, ServerOk;
    assert Follows(w.past[a.seen], w.past[a.read]);
    assert Follows(w.past[a.read], Now(w));
  }

  lemma CopySent(w: World, d: Device, seen: nat, read: nat, item: Item, source: Option<Key>, key: Key)
    requires SawSession(w, seen, key) && seen <= read < |w.past|
    requires item in w.past[read].items && w.past[read].items[item] == source
    ensures SentBy(w, Copy(d, seen, read, item, source, key)) == Some(Sent(d, Stage(item, key, IdOf(key)), None))
  {
  }

  lemma FinishSent(w: World, d: Device, seen: nat, key: Key)
    requires SawSession(w, seen, key)
    ensures SentBy(w, Finish(d, seen, key)) == Some(Sent(d, Commit(IdOf(key)), None))
  {
  }

  // ---------- every step keeps it ----------

  lemma AppendFollows(past: seq<Server>, s: Server, limit: Key)
    requires past != [] && History(past) && Follows(past[|past| - 1], s)
    requires forall i :: 0 <= i < |past| ==> ServerOk(past[i], limit)
    requires ServerOk(s, limit)
    ensures History(past + [s])
  {
    var last := past[|past| - 1];
    forall i | 0 <= i < |past| ensures Follows(past[i], s) {
      FollowsTransitive(past[i], last, s, limit);
    }
    assert Follows(s, s);
    hide Follows, ServerOk;
  }

  lemma SendKeeps(w: World, a: Action)
    requires Invariant(w) && SentBy(w, a).Some?
    ensures Invariant(Send(w, SentBy(w, a).value))
  {
    SentIsOk(w, a);
    hide SentBy, KeysUnique;
    var sent := SentBy(w, a).value;
    var w' := Send(w, sent);
    assert Follows(Now(w), Now(w));
    hide Follows;
    forall other | other in w.sent ensures RequestOk(Now(w'), other, w'.nextKey) {
      RequestStays(Now(w), Now(w), other, w.nextKey, w'.nextKey);
    }
    RequestLimit(Now(w), sent, w.nextKey, w'.nextKey);
    forall i | 0 <= i < |w'.past| ensures ServerOk(w'.past[i], w'.nextKey) && SessionSent(w', w'.past[i]) {
      StateStays(w, w', w.past[i]);
    }
    hide RequestOk, ServerOk, SessionSent, History;
    assert WordsOk(w');
    hide WordsOk;
    KeysStayUnique(w, sent);
  }

  lemma KeysStayUnique(w: World, sent: Sent)
    requires KeysUnique(w)
    requires NewKeyOf(sent.request).Some? ==> NewKeyOf(sent.request).value == IdOf(w.nextKey)
    ensures KeysUnique(Send(w, sent))
  {
    var w' := Send(w, sent);
    forall a, b | a in w'.sent && b in w'.sent && SameNewKey(a.request, b.request) ensures a == b {
      assert a in w.sent || a == sent;
    }
  }

  lemma RequestLimit(s: Server, sent: Sent, limit: Key, limit': Key)
    requires RequestOk(s, sent, limit + 1) && limit' == (if NewKeyOf(sent.request).Some? then limit + 1 else limit)
    ensures RequestOk(s, sent, limit')
  {
  }

  lemma StateStays(w: World, w': World, s: Server)
    requires ServerOk(s, w.nextKey) && SessionSent(w, s)
    requires w.sent <= w'.sent && w.nextKey <= w'.nextKey
    ensures ServerOk(s, w'.nextKey) && SessionSent(w', s)
  {
  }

  /** The server's next state, whatever made it. */
  lemma MovesOn(w: World, w': World, s: Server)
    requires Invariant(w) && w'.past == w.past + [s] && w'.sent == w.sent && w'.nextKey == w.nextKey
    requires Follows(Now(w), s) && ServerOk(s, w.nextKey) && SessionSent(w', s) && WordsOk(w')
    ensures Invariant(w')
  {
    AppendFollows(w.past, s, w.nextKey);
    hide WordsOk;
    forall other | other in w.sent ensures RequestOk(Now(w'), other, w'.nextKey) {
      RequestStays(Now(w), s, other, w.nextKey, w'.nextKey);
    }
    forall i | 0 <= i < |w.past| ensures SessionSent(w', w.past[i]) {
      StateStays(w, w', w.past[i]);
    }
    hide RequestOk, ServerOk, SessionSent, History;
    assert KeysUnique(w');
  }

  lemma ArriveKeeps(w: World, sent: Sent)
    requires Invariant(w) && sent in w.sent
    ensures Invariant(Arrive(w, sent))
  {
    var s := Now(w);
    if Check(s, sent.from_, sent.request).None? {
      var w' := Arrive(w, sent);
      var s' := Apply(s, sent.from_, sent.request);
      ServeKeeps(s, sent, w.nextKey);
      ServeFollows(s, sent, w.nextKey);
      ArriveKeepsWords(w, sent);
      assert SessionSent(w', s') by {
        hide ServerOk, RequestOk, Follows, History, KeysUnique, WordsOk;
        ArriveKeepsSessions(w, sent);
      }
      hide Invariant, ServerOk, SessionSent, Follows, WordsOk;
      MovesOn(w, w', s');
    }
  }

  lemma ArriveKeepsWords(w: World, sent: Sent)
    requires Invariant(w) && sent in w.sent && Check(Now(w), sent.from_, sent.request).None?
    ensures WordsOk(Arrive(w, sent))
  {
    hide History, SessionSent, KeysUnique, ServerOk;
    assert RequestOk(Now(w), sent, w.nextKey);
  }

  lemma ArriveKeepsSessions(w: World, sent: Sent)
    requires Invariant(w) && sent in w.sent && Check(Now(w), sent.from_, sent.request).None?
    ensures SessionSent(Arrive(w, sent), Apply(Now(w), sent.from_, sent.request))
  {
    hide History, KeysUnique, ServerOk, RequestOk, WordsOk;
    var s := Now(w);
    var s' := Apply(s, sent.from_, sent.request);
    assert SessionSent(w, s);
    if s.session.Some? && s'.session.Some? {
      var opener :| opener in w.sent && Opens(opener, s);
      assert Opens(opener, s');
    } else if s'.session.Some? {
      assert Opens(sent, s');
    }
  }

  lemma TimeKeeps(w: World)
    requires Invariant(w)
    ensures Invariant(Next(w, LeaseEnds))
  {
    var s := Now(w);
    var s' := LeaseEnded(s);
    var w' := w.(past := w.past + [s']);
    assert Follows(s, s') && ServerOk(s', w.nextKey);
    assert SessionSent(w', s') by {
      hide ServerOk, RequestOk, Follows, History, KeysUnique, WordsOk;
      assert SessionSent(w, s);
      if s.session.Some? {
        var opener :| opener in w.sent && Opens(opener, s);
        assert Opens(opener, s');
      }
    }
    assert WordsOk(w') by {
      hide ServerOk, RequestOk, Follows, History, KeysUnique, SessionSent;
    }
    hide Invariant, ServerOk, SessionSent, Follows, WordsOk;
    MovesOn(w, w', s');
  }

  /** Every step keeps the invariant. */
  lemma NextKeeps(w: World, a: Action)
    requires Invariant(w)
    ensures Invariant(Next(w, a))
  {
    if a.Deliver? {
      hide Arrive, Invariant;
      if a.sent in w.sent {
        ArriveKeeps(w, a.sent);
      }
    } else if a.LeaseEnds? {
      TimeKeeps(w);
    } else {
      hide SentBy, Invariant, Send;
      if SentBy(w, a).Some? {
        SendKeeps(w, a);
      }
    }
  }

  /** So it holds in every state devices can reach, however their requests are
      delayed, lost, or repeated. */
  lemma {:induction false} AlwaysInvariant(w: World, actions: seq<Action>)
    requires IsStart(w)
    ensures Invariant(After(w, actions))
  {
    if actions == [] {
      assert Follows(w.past[0], w.past[0]);
      assert ServerOk(w.past[0], w.nextKey);
    } else {
      hide IsStart, Invariant, Next;
      AlwaysInvariant(w, actions[..|actions| - 1]);
      NextKeeps(After(w, actions[..|actions| - 1]), actions[|actions| - 1]);
    }
  }
}
