/** A workspace's encryption on the server: each request is carried out in one
    go, or refused. Keys and wrapping are ideal: an id belongs to one key, and
    a wrapped key opens with its words alone. */
module EncryptionServer {
  import opened Prelude

  type Key = nat

  datatype KeyId = KeyId(number: nat)

  type Words = string

  type Device = nat

  /** An item: what it holds and when it was made, however it is sealed. */
  type Item = nat

  function IdOf(key: Key): KeyId {
    KeyId(key)
  }

  /** A wrapped key: the id it is said to have, and what opens it. */
  datatype Header = Header(keyId: KeyId, key: Key, words: Words)

  function Wrap(key: Key, words: Words): Header {
    Header(IdOf(key), key, words)
  }

  /** The words must be the ones it was wrapped with, and the key inside must
      be the one the header names. */
  function Unwrap(header: Header, words: Words): Option<Key> {
    if words == header.words && IdOf(header.key) == header.keyId then Some(header.key) else None
  }

  datatype Kind = Migrate | Rotate

  datatype Seal = Seal(keyId: KeyId, header: Header)

  /** `staged` is the next generation: each item's copy and the key it is
      sealed under. */
  datatype Session = Session(kind: Kind, holder: Device, leaseEnded: bool, newKeyId: KeyId, newHeader: Header,
                             staged: map<Item, Key>)

  /** `items` maps each item to the key it is sealed under, `None` for
      plaintext; `plain` are the items a fresh start set aside; `ended` are
      the new keys of aborted rewrites. */
  datatype Server = Server(seal: Option<Seal>, items: map<Item, Option<Key>>, plain: set<Item>,
                           session: Option<Session>, ended: set<KeyId>)

  function KeyIdNow(s: Server): Option<KeyId> {
    if s.seal.Some? then Some(s.seal.value.keyId) else None
  }

  datatype Request =
    | Enable(header: Header, keyId: KeyId)
    | FreshStart(header: Header, keyId: KeyId)
    | ReplaceHeader(expected: KeyId, header: Header)
    | Begin(kind: Kind, expectedNow: Option<KeyId>, newKeyId: KeyId, newHeader: Header)
    | Heartbeat
    | TakeOver
    | Stage(item: Item, under: Key, stagedKeyId: KeyId)
    | Commit(committed: KeyId)
    | Abort(aborted: KeyId)
    | Put(put: Item, key: Option<Key>, putExpected: Option<KeyId>)
    | Delete(deleted: Item, deleteExpected: Option<KeyId>)

  datatype Code = KeyIdMismatch | RewriteInProgress | LeaseHeld | RewriteIncomplete | RewriteEnded | NotFound | InvalidRequest

  /** The session, when it is the rewrite to `keyId` and `from` holds it. */
  function CheckHeld(s: Server, from: Device, keyId: KeyId): Option<Code> {
    if s.session.None? || s.session.value.newKeyId != keyId then Some(NotFound)
    else if s.session.value.holder != from then Some(LeaseHeld)
    else None
  }

  /** Setting up and starting afresh begin from plaintext; repeating the call
      that did it is no error. */
  function CheckSealing(s: Server, keyId: KeyId): Option<Code> {
    if s.session.Some? then Some(RewriteInProgress)
    else if s.seal.Some? && s.seal.value.keyId != keyId then Some(KeyIdMismatch)
    else None
  }

  /** What a write of items or of the header must name. */
  function CheckWrite(s: Server, expected: Option<KeyId>): Option<Code> {
    if s.session.Some? then Some(RewriteInProgress)
    else if KeyIdNow(s) != expected then Some(KeyIdMismatch)
    else None
  }

  function CheckBegin(s: Server, kind: Kind, expected: Option<KeyId>, newKeyId: KeyId): Option<Code> {
    if s.session.Some? then
      (if s.session.value.newKeyId == newKeyId then None else Some(RewriteInProgress))
    else if newKeyId in s.ended then Some(RewriteEnded)
    else if KeyIdNow(s) != expected then Some(KeyIdMismatch)
    else if (kind == Migrate) != expected.None? then Some(InvalidRequest)
    else None
  }

  /** Why a request is refused, `None` when it is carried out. */
  function Check(s: Server, from: Device, r: Request): Option<Code> {
    match r
    case Enable(_, keyId) =>
      if CheckSealing(s, keyId).None? && s.seal.None? && s.items.Keys != {} then Some(InvalidRequest)
      else CheckSealing(s, keyId)
    case FreshStart(_, keyId) => CheckSealing(s, keyId)
    case ReplaceHeader(expected, _) => CheckWrite(s, Some(expected))
    case Begin(kind, expected, newKeyId, _) => CheckBegin(s, kind, expected, newKeyId)
    case Heartbeat =>
      if s.session.None? then Some(NotFound)
      else if s.session.value.holder != from then Some(LeaseHeld)
      else None
    case TakeOver =>
      if s.session.None? then Some(NotFound)
      else if s.session.value.holder != from && !s.session.value.leaseEnded then Some(LeaseHeld)
      else None
    case Stage(_, _, keyId) => CheckHeld(s, from, keyId)
    case Commit(keyId) =>
      if CheckHeld(s, from, keyId).Some? then CheckHeld(s, from, keyId)
      else if s.items.Keys <= s.session.value.staged.Keys then None
      else Some(RewriteIncomplete)
    case Abort(keyId) => CheckHeld(s, from, keyId)
    case Put(_, _, expected) => CheckWrite(s, expected)
    case Delete(_, expected) => CheckWrite(s, expected)
  }

  function Apply(s: Server, from: Device, r: Request): Server
    requires Check(s, from, r).None?
  {
    match r
    case Enable(header, keyId) =>
      if s.seal.Some? then s else s.(seal := Some(Seal(keyId, header)))
    case FreshStart(header, keyId) =>
      if s.seal.Some? then s
      else s.(seal := Some(Seal(keyId, header)), plain := s.plain + s.items.Keys, items := map[])
    case ReplaceHeader(_, header) => s.(seal := Some(s.seal.value.(header := header)))
    case Begin(kind, _, newKeyId, newHeader) =>
      if s.session.Some? then s
      else s.(session := Some(Session(kind, from, false, newKeyId, newHeader, map[])))
    case Heartbeat => s.(session := Some(s.session.value.(leaseEnded := false)))
    case TakeOver => s.(session := Some(s.session.value.(holder := from, leaseEnded := false)))
    case Stage(item, key, _) =>
      if item in s.session.value.staged then s
      else s.(session := Some(s.session.value.(staged := s.session.value.staged[item := key])))
    case Commit(_) => Committed(s)
    case Abort(keyId) => s.(session := None, ended := s.ended + {keyId})
    case Put(item, key, _) => if item in s.items then s else s.(items := s.items[item := key])
    case Delete(item, _) => s.(items := s.items - {item})
  }

  /** The items, the header, and the key id change at once. */
  function Committed(s: Server): Server
    requires s.session.Some?
  {
    var session := s.session.value;
    s.(seal := Some(Seal(session.newKeyId, session.newHeader)),
       items := map item | item in session.staged :: Some(session.staged[item]),
       session := None)
  }

  function Serve(s: Server, from: Device, r: Request): Server {
    if Check(s, from, r).None? then Apply(s, from, r) else s
  }

  /** Time passes. */
  function LeaseEnded(s: Server): Server {
    if s.session.Some? then s.(session := Some(s.session.value.(leaseEnded := true))) else s
  }
}
