/** Requests that are repeated, and downloads that are resumed, over a
    network that may fail at any point. */
module HttpDownloads {
  import opened Prelude

  // ---------- repeating a request ----------

  const ATTEMPTS: nat := 3
  const MAX_RETRY_AFTER: nat := 60
  const RATE_LIMITED: string := "RATE_LIMITED"

  datatype Problem = Problem(code: string, status: nat, retryable: bool)

  datatype HttpsError =
    | Refused(problem: Problem, retryAfter: Option<nat>)
    | Transport(retryable: bool)
    | Protocol

  datatype Next = Stop | RetryAfter(seconds: nat)

  /** One, two, then four seconds. */
  function Backoff(attempts: nat): nat {
    if attempts <= 1 then 1 else 2 * Backoff(attempts - 1)
  }

  /** What follows the failure of the last of `attempts` attempts. */
  function AfterFailure(err: HttpsError, attempts: nat): Next {
    if attempts >= ATTEMPTS then Stop
    else
      match err
      case Refused(problem, retryAfter) =>
        if problem.code == RATE_LIMITED then
          (match retryAfter
           case Some(wait) => if wait <= MAX_RETRY_AFTER then RetryAfter(wait) else Stop
           case None => RetryAfter(Backoff(attempts)))
        else if problem.status == 401 then Stop
        else if problem.retryable then RetryAfter(Backoff(attempts))
        else Stop
      case Transport(retryable) => if retryable then RetryAfter(Backoff(attempts)) else Stop
      case Protocol => Stop
  }

  /** A success's status, the chunks of its body, and whether the body broke
      off rather than ended. */
  datatype Response = Response(status: nat, chunks: seq<Bytes>, broke: bool)

  function Sum(s: seq<nat>): nat {
    if s == [] then 0 else Sum(s[..|s| - 1]) + s[|s| - 1]
  }

  lemma {:induction false} SumBound(s: seq<nat>, most: nat)
    requires forall k :: 0 <= k < |s| ==> s[k] <= most
    ensures Sum(s) <= |s| * most
  {
    if s != [] {
      SumBound(s[..|s| - 1], most);
    }
  }

  lemma WaitBound(err: HttpsError, attempts: nat)
    requires AfterFailure(err, attempts).RetryAfter?
    ensures attempts < ATTEMPTS && AfterFailure(err, attempts).seconds <= MAX_RETRY_AFTER
    ensures !(err.Refused? && err.problem.status == 401 && err.problem.code != RATE_LIMITED)
  {
    assert attempts <= 2 ==> Backoff(attempts) <= 2;
  }

  /** A failure is repeated exactly when fewer than three attempts were made
      and it is a rate limit that ends within a minute, or one marked
      retryable that is not a 401; and after the server's own wait, or after
      one second and then two. */
  lemma RepeatedExactly(err: HttpsError, attempts: nat)
    requires attempts >= 1
    ensures AfterFailure(err, attempts).RetryAfter? <==>
      && attempts <= 2
      && (|| (err.Refused? && err.problem.code == "RATE_LIMITED" && (err.retryAfter.Some? ==> err.retryAfter.value <= 60))
          || (err.Refused? && err.problem.code != "RATE_LIMITED" && err.problem.status != 401 && err.problem.retryable)
          || (err.Transport? && err.retryable))
    ensures AfterFailure(err, attempts).RetryAfter? ==>
      AfterFailure(err, attempts).seconds ==
        if err.Refused? && err.problem.code == RATE_LIMITED && err.retryAfter.Some? then err.retryAfter.value
        else attempts
  {
    assert attempts <= 2 ==> Backoff(attempts) == attempts;
  }

  /** What happens to attempt number `n`, from 1. */
  type Attempts = nat -> Result<Response, HttpsError>

  /** Whether a refusal is a bad key, which is never sent again. */
  predicate IsBadKey(reply: Result<Response, HttpsError>) {
    reply.Err? && reply.error.Refused? && reply.error.problem.status == 401 && reply.error.problem.code != RATE_LIMITED
  }

  /** Whether nothing follows this reply to attempt `n`. */
  predicate Settles(reply: Result<Response, HttpsError>, n: nat) {
    reply.Err? ==> AfterFailure(reply.error, n) == Stop
  }

  /** The attempt that settles a request: the first after which nothing
      follows, and the third at the latest. */
  function LastAttempt(reply: Attempts): nat {
    if Settles(reply(1), 1) then 1 else if Settles(reply(2), 2) then 2 else 3
  }

  /** Sends a request until it succeeds or repeating it is pointless. */
  method Send(reply: Attempts) returns (result: Result<Response, HttpsError>, attempts: nat, waits: seq<nat>)
    ensures attempts == LastAttempt(reply) && |waits| == attempts - 1
    ensures result == reply(attempts)
    ensures forall n :: 1 <= n < attempts ==>
      reply(n).Err? && AfterFailure(reply(n).error, n) == RetryAfter(waits[n - 1])
    ensures result.Err? ==> AfterFailure(result.error, attempts) == Stop
    ensures forall n :: 1 <= n < attempts ==> !IsBadKey(reply(n))
    ensures Sum(waits) <= 120
  {
    attempts, waits := 0, [];
    while true
      invariant attempts < 3 && |waits| == attempts
      invariant forall n :: 1 <= n <= attempts ==>
        reply(n).Err? && AfterFailure(reply(n).error, n) == RetryAfter(waits[n - 1])
      invariant forall n :: 1 <= n <= attempts ==> !IsBadKey(reply(n)) && !Settles(reply(n), n)
      invariant forall k :: 0 <= k < |waits| ==> waits[k] <= MAX_RETRY_AFTER
      decreases ATTEMPTS - attempts
    {
      attempts := attempts + 1;
      result := reply(attempts);
      if result.Ok? {
        break;
      }
      var next := AfterFailure(result.error, attempts);
      if next.Stop? {
        break;
      }
      WaitBound(result.error, attempts);
      waits := waits + [next.seconds];
    }
    SumBound(waits, MAX_RETRY_AFTER);
  }

  // ---------- a download ----------

  const MAX_RESUMES: nat := 3
  const PARTIAL_CONTENT: nat := 206

  /** What happens to an attempt of the `request`th request, which asks for
      the content from `offset` on. */
  type Network = (nat, nat, nat) -> Result<Response, HttpsError>

  /** Answers from an offset are the content from there, as far as they go; a
      full answer to a request for a part is anything. */
  ghost predicate Faithful(network: Network, content: Bytes) {
    forall request: nat, attempt: nat, offset: nat :: offset <= |content| && network(request, attempt, offset).Ok? ==>
      var response := network(request, attempt, offset).value;
      offset == 0 || response.status == PARTIAL_CONTENT ==> Concat(response.chunks) <= content[offset..]
  }

  datatype DownloadError = SendFailed(error: HttpsError) | NotResumed | BrokeOff(at: nat)

  /** What settles the `request`th request, which asked from `offset` on. */
  function Settled(network: Network, request: nat, offset: nat): Result<Response, HttpsError> {
    network(request, LastAttempt((n: nat) => network(request, n, offset)), offset)
  }

  /** The body's chunks, handed on one by one until the reader has gone. */
  method Forward(chunks: seq<Bytes>, accepts: nat) returns (taken: seq<Bytes>, left: bool)
    ensures taken <= chunks && |taken| == (if |chunks| <= accepts then |chunks| else accepts)
    ensures left <==> |chunks| > accepts
  {
    taken, left := [], false;
    for k := 0 to |chunks|
      invariant taken == chunks[..k] && |taken| <= accepts
    {
      if |taken| == accepts {
        left := true;
        return;
      }
      taken := taken + [chunks[k]];
    }
  }

  lemma {:induction false} ConcatAppend<T>(a: seq<seq<T>>, b: seq<seq<T>>)
    ensures Concat(a + b) == Concat(a) + Concat(b)
  {
    if a == [] {
      assert a + b == b;
    } else {
      assert (a + b)[0] == a[0] && (a + b)[1..] == a[1..] + b;
      ConcatAppend(a[1..], b);
    }
  }

  /** The bytes in the chunks handed on of each answer. */
  function Received(given: seq<seq<Bytes>>): Bytes {
    Concat(Concat(given))
  }

  lemma ReceivedSnoc(given: seq<seq<Bytes>>, taken: seq<Bytes>)
    ensures Received(given + [taken]) == Received(given) + Concat(taken)
    ensures |Concat(given + [taken])| == |Concat(given)| + |taken|
  {
    ConcatSnoc(given, taken);
    ConcatAppend(Concat(given), taken);
  }

  /** The part of one response that was delivered follows what was. */
  lemma ExtendsPrefix(received: Bytes, taken: seq<Bytes>, chunks: seq<Bytes>, content: Bytes)
    requires received <= content && taken <= chunks && Concat(chunks) <= content[|received|..]
    ensures received + Concat(taken) <= content
  {
    assert chunks == taken + chunks[|taken|..];
    ConcatAppend(taken, chunks[|taken|..]);
    assert content == received + content[|received|..];
  }

  /** An answer is of use: it is one to the first request, or the part asked
      for. */
  predicate Resumes(reply: Result<Response, HttpsError>, offset: nat) {
    reply.Ok? && (offset == 0 || reply.value.status == 206)
  }

  /** Why nothing of this reply is of use. */
  function Useless(reply: Result<Response, HttpsError>): DownloadError {
    if reply.Ok? then NotResumed else SendFailed(reply.error)
  }

  /** The answer broke off, or ended before `total` bytes were there. */
  predicate FellShort(reply: Result<Response, HttpsError>, offset: nat, total: nat) {
    reply.Ok? && (reply.value.broke || offset + |Concat(reply.value.chunks)| < total)
  }

  /** What is handed on of an answer of use: all its chunks, or only the first
      of them. */
  predicate Handed(reply: Result<Response, HttpsError>, offset: nat, taken: seq<Bytes>, whole: bool) {
    Resumes(reply, offset) && if whole then taken == reply.value.chunks else taken < reply.value.chunks
  }

  /** One request of a download and what its answer delivers: `short` says
      that the answer broke off or ended early. */
  method ReadOne(network: Network, request: nat, offset: nat, total: nat, accepts: nat,
                 ghost received: Bytes, ghost content: Bytes)
    returns (taken: seq<Bytes>, error: Option<DownloadError>, left: bool, short: bool, accepted: nat,
             attempts: nat, waited: nat)
    requires Faithful(network, content) && received <= content && offset == |received|
    ensures attempts <= 3 && waited <= 120
    ensures var reply := Settled(network, request, offset);
      if error.Some? then !Resumes(reply, offset) && error.value == Useless(reply) && taken == [] && !left
      else Handed(reply, offset, taken, !left) && received + Concat(taken) <= content
    // The reader goes away when there is a chunk more than it accepts.
    ensures error.None? ==> |taken| + accepted == accepts
    ensures error.None? && left ==> accepted == 0
    ensures error.None? && !short ==> total <= offset + |Concat(taken)|
    ensures error.None? && !left ==> short == FellShort(Settled(network, request, offset), offset, total)
  {
    taken, error, left, short, accepted := [], None, false, true, accepts;
    var result, tries, waits := Send((n: nat) => network(request, n, offset));
    attempts, waited := tries, Sum(waits);
    assert result == network(request, tries, offset) == Settled(network, request, offset);
    if result.Err? {
      error := Some(SendFailed(result.error));
      return;
    }
    var response := result.value;
    if offset > 0 && response.status != PARTIAL_CONTENT {
      error := Some(NotResumed);
      return;
    }
    taken, left := Forward(response.chunks, accepts);
    accepted := accepts - |taken|;
    ExtendsPrefix(received, taken, response.chunks, content);
    short := response.broke || offset + |Concat(taken)| < total;
  }

  /** What settles the last request so far. */
  function Latest(network: Network, from: seq<nat>): Result<Response, HttpsError>
    requires from != []
  {
    Settled(network, |from| - 1, from[|from| - 1])
  }

  /** Every request starts where the bytes received before it end, and follows
      an answer that fell short; and every answer is handed on whole, but for
      the last unless that is `whole` too. */
  predicate Requests(network: Network, given: seq<seq<Bytes>>, from: seq<nat>, whole: bool, total: nat) {
    && |given| <= |from| <= |given| + 1
    && (forall k :: 0 <= k < |from| ==> from[k] == |Received(given[..k])|)
    && (forall k :: 0 <= k < |from| - 1 ==> FellShort(Settled(network, k, from[k]), from[k], total))
    && forall k :: 0 <= k < |given| ==>
         Handed(Settled(network, k, from[k]), from[k], given[k], whole || k < |given| - 1)
  }

  lemma NothingAsked(network: Network, total: nat)
    ensures Requests(network, [], [], true, total) && Received([]) == []
  {
  }

  lemma AskedOnce(network: Network, given: seq<seq<Bytes>>, from: seq<nat>, total: nat)
    requires Requests(network, given, from, true, total) && |given| == |from|
    requires from != [] ==> FellShort(Latest(network, from), from[|from| - 1], total)
    ensures Requests(network, given, from + [|Received(given)|], true, total)
  {
    hide FellShort, Settled, Handed, Received;
    assert given[..|given|] == given;
  }

  lemma HandedOnce(network: Network, given: seq<seq<Bytes>>, from: seq<nat>, taken: seq<Bytes>, whole: bool, total: nat)
    requires Requests(network, given, from, true, total) && |from| == |given| + 1
    requires Handed(Latest(network, from), from[|from| - 1], taken, whole)
    ensures Requests(network, given + [taken], from, whole, total)
    ensures Received(given + [taken]) == Received(given) + Concat(taken)
    ensures |Concat(given + [taken])| == |Concat(given)| + |taken|
  {
    ReceivedSnoc(given, taken);
    hide FellShort, Settled, Handed, Received, Concat;
    assert forall k :: 0 <= k <= |given| ==> (given + [taken])[..k] == given[..k];
  }

  /** Reads the content of an item of `total` bytes, resuming from the last
      byte received when the answer breaks off or ends early. `given` are the
      chunks handed on of each answer, `from` is where each request started,
      and `left` says that the reader went away after `accepts` chunks. */
  method Download(network: Network, total: nat, accepts: nat, ghost content: Bytes)
    returns (given: seq<seq<Bytes>>, error: Option<DownloadError>, left: bool,
             from: seq<nat>, attempts: nat, waited: nat)
    requires Faithful(network, content)
    // What is delivered is always a prefix of the content.
    ensures Received(given) <= content
    // Read to its end without an error, it is the whole of it.
    ensures error.None? && !left ==> total <= |Received(given)|
    ensures error.None? && !left && total >= |content| ==> Received(given) == content
    // Four requests at the most, each from where the bytes received end.
    ensures 1 <= |from| <= 4 && Requests(network, given, from, !left, total)
    ensures attempts <= 12 && waited <= 480
    // The reader goes away having accepted exactly what it was given.
    ensures |Concat(given)| <= accepts && (left ==> error.None? && |Concat(given)| == accepts)
    ensures error.None? ==> |given| == |from|
    // The server is asked no more when an answer is complete, or is of no use.
    ensures error.None? && !left ==> !FellShort(Latest(network, from), from[|from| - 1], total)
    ensures error.Some? && |given| < |from| ==>
      !Resumes(Latest(network, from), from[|from| - 1]) && error.value == Useless(Latest(network, from))
    ensures error.Some? && |given| == |from| ==>
      && |from| == 4 && error.value == BrokeOff(|Received(given)|)
      && FellShort(Latest(network, from), from[3], total)
  {
    hide FellShort, Faithful, Settled, Resumes, Handed, Received, Requests;
    var resumes, accepted := 0, accepts;
    given, error, left, from, attempts, waited := [], None, false, [], 0, 0;
    var offset := 0;
    NothingAsked(network, total);
    while true
      invariant resumes == |from| == |given| <= 3
      invariant offset == |Received(given)| && Received(given) <= content
      invariant |Concat(given)| + accepted == accepts
      invariant error.None? && !left
      invariant Requests(network, given, from, true, total)
      invariant from != [] ==> FellShort(Latest(network, from), from[|from| - 1], total)
      invariant attempts <= resumes * 3 && waited <= resumes * 120
      decreases MAX_RESUMES - resumes
    {
      AskedOnce(network, given, from, total);
      from := from + [offset];
      var taken, short, tries, wait;
      taken, error, left, short, accepted, tries, wait :=
        ReadOne(network, resumes, offset, total, accepted, Received(given), content);
      attempts, waited := attempts + tries, waited + wait;
      if error.Some? {
        return;
      }
      HandedOnce(network, given, from, taken, !left, total);
      given := given + [taken];
      offset := offset + |Concat(taken)|;
      if left || !short {
        return;
      }
      resumes := resumes + 1;
      if resumes > MAX_RESUMES {
        error := Some(BrokeOff(offset));
        return;
      }
    }
  }
}
