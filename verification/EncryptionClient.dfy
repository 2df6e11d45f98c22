/** What a device decides from the server's description of a workspace: which
    request to send, or why it sends none. */
module EncryptionClient {
  import opened Prelude
  import opened EncryptionServer

  datatype AdminError =
    | NotEncrypted | AlreadyEncrypted | Rewriting | HasItems | NoSession
    | HeaderMismatch | WrongWords | KeyMismatch | NoKey
    | Refused(code: Code) | Unanswered | Unreadable | EndedTwice

  datatype State = Plain(items: nat) | Encrypted(keyId: KeyId) | BeingRewritten

  function StateOf(seen: Server): State {
    if seen.session.Some? then BeingRewritten
    else if seen.seal.None? then Plain(|seen.items|)
    else Encrypted(seen.seal.value.keyId)
  }

  /** The refusal for a workspace an operation cannot start from. */
  function Refusal(state: State): AdminError {
    match state
    case Plain(_) => NotEncrypted
    case Encrypted(_) => AlreadyEncrypted
    case BeingRewritten => Rewriting
  }

  function SetUpRequest(seen: Server, words: Words, newKey: Key): Result<Request, AdminError> {
    match StateOf(seen)
    case Plain(items) => if items == 0 then Ok(Enable(Wrap(newKey, words), IdOf(newKey))) else Err(HasItems)
    case other => Err(Refusal(other))
  }

  function FreshStartRequest(seen: Server, words: Words, newKey: Key): Result<Request, AdminError> {
    match StateOf(seen)
    case Plain(_) => Ok(FreshStart(Wrap(newKey, words), IdOf(newKey)))
    case other => Err(Refusal(other))
  }

  /** The workspace's key, with its words. */
  function Join(seen: Server, words: Words): Result<Key, AdminError> {
    match StateOf(seen)
    case Encrypted(keyId) =>
      var header := seen.seal.value.header;
      if header.keyId != keyId then Err(HeaderMismatch)
      else if Unwrap(header, words).Some? then Ok(Unwrap(header, words).value)
      else Err(WrongWords)
    case other => Err(Refusal(other))
  }

  function ChangeWordsRequest(seen: Server, current: Words, changed: Words): Result<Request, AdminError> {
    var key := Join(seen, current);
    if key.Err? then Err(key.error) else Ok(ReplaceHeader(IdOf(key.value), Wrap(key.value, changed)))
  }

  /** What is wrong with a header that these words should open to `key`. */
  function CheckHeader(header: Header, words: Words, key: Key): Option<AdminError> {
    var inside := Unwrap(header, words);
    if inside.None? then Some(WrongWords)
    else if IdOf(inside.value) != IdOf(key) then Some(HeaderMismatch)
    else None
  }

  function BeginRequest(kind: Kind, oldKey: Option<Key>, words: Words, newKey: Key): Result<Request, AdminError> {
    var header := Wrap(newKey, words);
    var wrong := CheckHeader(header, words, newKey);
    if wrong.Some? then Err(wrong.value)
    else Ok(Begin(kind, if oldKey.Some? then Some(IdOf(oldKey.value)) else None, IdOf(newKey), header))
  }

  /** Whether a migration may begin. */
  function CheckMigrate(seen: Server): Option<AdminError> {
    var state := StateOf(seen);
    if state.Plain? then None else Some(Refusal(state))
  }

  /** Whether a rotation from `old` may begin. */
  function CheckRotate(seen: Server, oldKey: Key): Option<AdminError> {
    match StateOf(seen)
    case Encrypted(keyId) => if keyId == IdOf(oldKey) then None else Some(KeyMismatch)
    case Plain(_) => Some(NotEncrypted)
    case other => Some(Refusal(other))
  }

  /** The key an open rewrite goes to, with its words. */
  function NewKeyOfSession(seen: Server, words: Words): Result<Key, AdminError> {
    if seen.session.None? then Err(NoSession)
    else
      var session := seen.session.value;
      var key := Unwrap(session.newHeader, words);
      if key.None? then Err(WrongWords)
      else if IdOf(key.value) != session.newKeyId then Err(HeaderMismatch)
      else Ok(key.value)
  }

  /** The key its items are under, from the device or with the old words. */
  function OldKeyOfSession(seen: Server, device: Option<Key>, oldWords: Option<Words>): Result<Option<Key>, AdminError>
    requires seen.session.Some?
  {
    if seen.session.value.kind == Migrate then Ok(None)
    else if seen.seal.None? then Err(HeaderMismatch)
    else
      var oldId := seen.seal.value.keyId;
      if device.Some? && IdOf(device.value) == oldId then Ok(device)
      else if oldWords.Some? then
        var oldKey := Unwrap(seen.seal.value.header, oldWords.value);
        if oldKey.None? then Err(WrongWords)
        else if IdOf(oldKey.value) != oldId then Err(HeaderMismatch)
        else Ok(oldKey)
      else Err(NoKey)
  }

  /** Renews the device's own lease, or takes over another's. */
  function HoldRequest(seen: Server, d: Device): Result<Request, AdminError> {
    if seen.session.None? then Err(NoSession)
    else if seen.session.value.holder == d then Ok(Heartbeat)
    else Ok(TakeOver)
  }

  function KeyIdOf(key: Option<Key>): Option<KeyId> {
    if key.Some? then Some(IdOf(key.value)) else None
  }
}
