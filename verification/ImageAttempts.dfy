/**
 The retry loop of the asynchronous image job.

 One response recorder serves every attempt and is reset in place between attempts.  The
 reset clears the body and the status code, but the recorder (net/http/httptest) accepts a
 status line only once in its life, and the reset cannot undo that.
 */
module ImageAttempts {

  datatype Option<T> = None | Some(value: T)

  /** What a failed attempt tells the retry decision. */
  datatype Error = Error(code: int, skipRetry: bool, channelError: bool, upstreamTimeout: bool, alwaysSkip: bool)

  /** Settings the retry decision consults. */
  datatype Policy = Policy(skipAfterAffinityFailure: bool, specificChannel: bool, retryCodes: set<int>)

  datatype Write = Write(code: int, body: seq<int>)

  /** One pass through the loop: no channel, or a relay that may write and may fail. */
  datatype Attempt = NoChannel(error: Error) | Relayed(write: Option<Write>, failure: Option<Error>)

  const STATUS_OK := 200
  const GATEWAY_TIMEOUT := 504
  const CLOUDFLARE_TIMEOUT := 524
  const MIN_RETRY_TIMES := 1

  /** `asyncImageGenerationRetryTimes`. */
  function RetryTimes(configured: int): (r: nat)
    ensures r >= configured && r >= 1 && (r == configured || r == 1)
  {
    if configured < MIN_RETRY_TIMES then MIN_RETRY_TIMES else configured
  }

  /** `shouldRetryAsyncImageGenerationJob` for a non-nil error. */
  predicate ShouldRetry(policy: Policy, err: Error, remaining: int) {
    if policy.skipAfterAffinityFailure then false
    else if remaining <= 0 then false
    else if policy.specificChannel then false
    else if err.skipRetry then false
    else if err.channelError then true
    else if err.code == GATEWAY_TIMEOUT || err.code == CLOUDFLARE_TIMEOUT then true
    else if err.upstreamTimeout then true
    else if 200 <= err.code < 300 then false
    else if err.code < 100 || err.code > 599 then true
    else if err.alwaysSkip then false
    else err.code in policy.retryCodes
  }

  /** Retried is, while attempts remain and nothing forbids it, what came from the channel itself, every timeout and
      every code outside 100 to 599, and otherwise a code set up for retries that is no success. */
  lemma RetryIff(policy: Policy, err: Error, remaining: int)
    ensures ShouldRetry(policy, err, remaining) <==>
              && remaining > 0 && !policy.skipAfterAffinityFailure && !policy.specificChannel && !err.skipRetry
              && (err.channelError || err.upstreamTimeout || err.code in {504, 524} || err.code < 100 || err.code > 599
                  || (!err.alwaysSkip && err.code in policy.retryCodes && !(200 <= err.code <= 299)))
  {
  }

  /** The loop ends at this attempt, when `remaining` retries would be left. */
  predicate Ends(policy: Policy, a: Attempt, remaining: int) {
    a.NoChannel? || a.failure.None? || !ShouldRetry(policy, a.failure.value, remaining)
  }

  function FailureOf(a: Attempt): Option<Error> {
    match a
    case NoChannel(e) => Some(e)
    case Relayed(_, f) => f
  }

  function Written(a: Attempt): Option<Write> {
    if a.Relayed? then a.write else None
  }

  /** The attempt the loop ends at: the first one, from `i` on, that ends it. */
  function LastAttempt(policy: Policy, script: nat -> Attempt, retries: nat, i: nat): (k: nat)
    requires i <= retries
    ensures i <= k <= retries
    ensures Ends(policy, script(k), retries - k)
    ensures forall j: nat :: i <= j < k ==> !Ends(policy, script(j), retries - j)
    decreases retries - i
  {
    if Ends(policy, script(i), retries - i) then i else LastAttempt(policy, script, retries, i + 1)
  }

  /** `httptest.ResponseRecorder`. */
  class Recorder {
    var body: seq<int>
    var code: int
    var wroteHeader: bool

    constructor ()
      ensures body == [] && code == STATUS_OK && !wroteHeader
    {
      body, code, wroteHeader := [], STATUS_OK, false;
    }

    method WriteResponse(w: Write)
      modifies this
      ensures body == old(body) + w.body && wroteHeader
      ensures code == if old(wroteHeader) then old(code) else w.code
    {
      if !wroteHeader {
        code := w.code;
        wroteHeader := true;
      }
      body := body + w.body;
    }

    /** `resetAsyncImageRecorder`. */
    method Reset()
      modifies this
      ensures body == [] && code == STATUS_OK && wroteHeader == old(wroteHeader)
    {
      body := [];
      code := STATUS_OK;
    }
  }

  /** Whether some attempt before `k` wrote a response. */
  predicate WroteBefore(script: nat -> Attempt, k: nat) {
    exists j: nat | j < k :: Written(script(j)).Some?
  }

  /** The status an attempt answers with by itself. */
  function OwnCode(a: Attempt): int {
    if Written(a).Some? then Written(a).value.code else STATUS_OK
  }

  /** What the image relay yields: upstream answers other than 200 (or 201, rewritten to 200) become errors
      before anything is written, so an attempt that succeeds has written 200 or nothing.  An attempt that
      fails may have written anything. */
  ghost predicate ByImageRelay(script: nat -> Attempt) {
    forall i: nat :: FailureOf(script(i)).None? ==> OwnCode(script(i)) == STATUS_OK
  }

  /** The status code the job sees when the loop ends at attempt `k`. */
  function SeenCode(script: nat -> Attempt, k: nat): int {
    match Written(script(k))
    case None => STATUS_OK
    case Some(w) => if WroteBefore(script, k) then STATUS_OK else w.code
  }

  /** `runAsyncImageGenerationJobAttempts`: the caller gets the outcome of the first attempt that
      ends the loop, with that attempt's bytes only, after at most `retries + 1` attempts.  The status is
      that attempt's own exactly if no earlier attempt wrote one or it is 200; after a success of the
      image relay it is 200, whatever failed attempts wrote before. */
  method RunAttempts(policy: Policy, script: nat -> Attempt, retries: nat)
    returns (recorder: Recorder, err: Option<Error>, ghost last: nat)
    ensures last == LastAttempt(policy, script, retries, 0) <= retries
    ensures forall j: nat | j < last ::
              script(j).Relayed? && script(j).failure.Some? && ShouldRetry(policy, script(j).failure.value, retries - j)
    ensures err == match script(last) case NoChannel(e) => Some(e) case Relayed(_, failure) => failure
    ensures script(last).Relayed? && err.Some? ==> !ShouldRetry(policy, err.value, retries - last)
    ensures fresh(recorder)
    ensures recorder.body == match script(last) case Relayed(Some(w), _) => w.body case _ => []
    ensures recorder.code == SeenCode(script, last)
    ensures recorder.code == OwnCode(script(last)) <==> !WroteBefore(script, last) || OwnCode(script(last)) == STATUS_OK
    ensures ByImageRelay(script) && err.None? ==> recorder.code == 200
  {
    recorder := new Recorder();
    err := None;
    var retry := 0;
    last := 0;
    while true
      invariant 0 <= retry <= retries
      invariant fresh(recorder)
      invariant LastAttempt(policy, script, retries, 0) == LastAttempt(policy, script, retries, retry)
      invariant recorder.wroteHeader <==> WroteBefore(script, retry)
      invariant retry == 0 ==> recorder.body == [] && recorder.code == STATUS_OK
      decreases retries - retry
    {
      if retry > 0 {
        recorder.Reset();
      }
      var a := script(retry);
      if a.NoChannel? {
        return recorder, Some(a.error), retry;
      }
      if a.write.Some? {
        recorder.WriteResponse(a.write.value);
      }
      if a.failure.None? {
        return recorder, None, retry;
      }
      err := a.failure;
      if !ShouldRetry(policy, err.value, retries - retry) {
        return recorder, err, retry;
      }
      assert Written(script(retry)) == a.write;
      retry := retry + 1;
      assert WroteBefore(script, retry) <==> WroteBefore(script, retry - 1) || Written(script(retry - 1)).Some?;
    }
  }

  datatype Outcome = Finished(body: seq<int>) | FailedWith(error: Error) | BadStatus(code: int) | EmptyResponse

  /** What `runAsyncImageGenerationJob` makes of the attempts.  With the image relay the job finishes exactly
      if the last attempt succeeded with a body that is not blank, and then with that very body: the status
      test never fires. */
  method RunJob(policy: Policy, script: nat -> Attempt, configured: int, trim: seq<int> -> seq<int>)
    returns (outcome: Outcome)
    ensures var last := LastAttempt(policy, script, RetryTimes(configured), 0);
            var a, code := script(last), SeenCode(script, last);
            var body := if Written(a).Some? then trim(Written(a).value.body) else trim([]);
            && (outcome.FailedWith? <==> FailureOf(a).Some?)
            && (outcome.FailedWith? ==> FailureOf(a) == Some(outcome.error))
            && (outcome.BadStatus? <==> FailureOf(a).None? && code >= 400)
            && (outcome.BadStatus? ==> outcome.code == code)
            && (outcome.EmptyResponse? ==> body == [])
            && (outcome.Finished? ==> outcome.body == body != [])
            && (ByImageRelay(script) ==>
                  !outcome.BadStatus? && (outcome.Finished? <==> FailureOf(a).None? && body != []))
  {
    var recorder, err, last := RunAttempts(policy, script, RetryTimes(configured));
    if err.Some? {
      return FailedWith(err.value);
    }
    if recorder.code >= 400 {
      return BadStatus(recorder.code);
    }
    var body := trim(recorder.body);
    if |body| == 0 {
      return EmptyResponse;
    }
    return Finished(body);
  }
}
