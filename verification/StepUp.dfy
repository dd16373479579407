/**
 Step-up verification.  A WebAuthn ceremony leaves a short-lived marker in the session; the verify
 endpoint turns the marker (or a valid 2FA code) into a five-minute stamp carrying its method; the
 gates of sensitive operations look at stamp and method only.

 The session is kept in a signed cookie, so a request works on whichever cookie its client presents,
 and a change reaches the client as a new cookie.  First a session is related to the history of the
 requests that led to it, one after the other; then whole trees of cookies are considered, in which a
 request may present any cookie handed out before.
 */
module StepUp {

  const VERIFICATION_TIMEOUT := 300
  const READY_TIMEOUT := 60
  const TWO_FACTOR := "2fa"
  const PASSKEY := "passkey"

  /** A session value: absent, an int64 time, or something of another type. */
  datatype Value = Missing | Stamp(at: int) | Junk

  datatype Option<T> = None | Some(value: T)

  /** The session: who is logged in (0 for nobody), the marker, and the stamp with its method. */
  datatype State = State(user: int, ready: Value, verifiedAt: Value, verifiedBy: Option<string>)

  const EMPTY := State(0, Missing, Missing, None)

  datatype Error =
    | NotLoggedIn | BadRequest | NoSuchUser | UserDisabled | NothingEnabled
    | NoTwoFactor | EmptyCode | WrongCode | NoPasskey | BadMarker | NotReady
    | UnknownMethod | SaveFailed

  datatype Result<T> = Ok(value: T) | Err(error: Error)

  /** What a verify request finds: the request, the user's record, and whether the 2FA code is right. */
  datatype Request = Request(
    loggedIn: bool, parses: bool, userFound: bool, userEnabled: bool, hasTwoFactor: bool, hasPasskey: bool,
    means: string, code: string, codeValid: bool)

  /** The clock readings and the outcomes of `Save` that one verify request meets. */
  datatype Luck = Luck(checkAt: int, markerSaved: bool, stampAt: int, stampSaved: bool)

  // ---------------------------------------------------------------- what each handler does to the session

  function Finished(s: State, now: int, saved: bool): State {
    if saved then State(s.user, Stamp(now), Missing, None) else s
  }

  /** Logging in leaves marker and stamp as they are. */
  function LoggedIn(s: State, user: int, saved: bool): State {
    if saved then s.(user := user) else s
  }

  function Dropped(s: State, saved: bool): State {
    if saved then s.(verifiedAt := Missing, verifiedBy := None) else s
  }

  function Consumed(s: State, saved: bool): State {
    if s.ready != Missing && saved then s.(ready := Missing) else s
  }

  function ConsumeAnswer(s: State, now: int, saved: bool): Result<bool> {
    match s.ready
    case Missing => Ok(false)
    case Junk => Err(BadMarker)
    case Stamp(at) => if !saved then Err(SaveFailed) else Ok(now - at < READY_TIMEOUT)
  }

  function Stamped(s: State, means: string, now: int, saved: bool): State {
    if saved then State(s.user, Missing, Stamp(now), Some(means)) else s
  }

  /** The refusals that come before the method is looked at. */
  function Refusal(r: Request): Option<Error> {
    if !r.loggedIn then Some(NotLoggedIn)
    else if !r.parses then Some(BadRequest)
    else if !r.userFound then Some(NoSuchUser)
    else if !r.userEnabled then Some(UserDisabled)
    else if !r.hasTwoFactor && !r.hasPasskey then Some(NothingEnabled)
    else None
  }

  /** Does the request get as far as consuming the passkey marker? */
  predicate AsksForMarker(r: Request) {
    Refusal(r) == None && r.means == PASSKEY && r.hasPasskey
  }

  predicate ValidCode(r: Request) {
    Refusal(r) == None && r.means == TWO_FACTOR && r.hasTwoFactor && r.code != "" && r.codeValid
  }

  predicate Passes(s: State, r: Request, l: Luck) {
    ValidCode(r) || (AsksForMarker(r) && ConsumeAnswer(s, l.checkAt, l.markerSaved) == Ok(true))
  }

  predicate VerifySucceeds(s: State, r: Request, l: Luck) {
    Passes(s, r, l) && l.stampSaved
  }

  function Verified(s: State, r: Request, l: Luck): State {
    var s' := if AsksForMarker(r) then Consumed(s, l.markerSaved) else s;
    if Passes(s, r, l) then Stamped(s', r.means, l.stampAt, l.stampSaved) else s'
  }

  predicate Fresh(s: State, now: int) {
    s.verifiedAt.Stamp? && now - s.verifiedAt.at < VERIFICATION_TIMEOUT
  }

  predicate GateOpens(s: State, means: string, now: int) {
    Fresh(s, now) && s.verifiedBy == Some(means)
  }

  function Gated(s: State, now: int, saved: bool): State {
    if Fresh(s, now) then s else Dropped(s, saved)
  }

  /** The middleware leaves a session without a stamp alone. */
  function MiddlewareGated(s: State, now: int, saved: bool): State {
    if s.verifiedAt == Missing then s else Gated(s, now, saved)
  }

  // ---------------------------------------------------------------- the handlers

  /** One request's session: `saved` is the cookie presented, and after a successful save the cookie
      handed back; `work` is the copy the request works on. */
  class Session {
    var saved: State
    var work: State

    constructor ()
      ensures saved == EMPTY
    {
      saved, work := EMPTY, EMPTY;
    }

    method Load()
      modifies this
      ensures work == saved == old(saved)
    {
      work := saved;
    }

    method Save(ok: bool)
      modifies this
      ensures work == old(work) && saved == if ok then work else old(saved)
    {
      if ok {
        saved := work;
      }
    }

    /** The end of a successful WebAuthn ceremony. */
    method PasskeyVerifyFinish(now: int, saves: bool) returns (ok: bool)
      modifies this
      ensures ok == saves && saved == Finished(old(saved), now, saves)
      ensures saved == if saves then State(old(saved).user, Stamp(now), Missing, None) else old(saved)
    {
      Load();
      work := work.(ready := Stamp(now));
      work := work.(verifiedAt := Missing);
      work := work.(verifiedBy := None);
      Save(saves);
      return saves;
    }

    method SetupLogin(user: int, saves: bool) returns (ok: bool)
      modifies this
      ensures ok == saves && saved == LoggedIn(old(saved), user, saves)
      ensures saves ==> saved.user == user
    {
      Load();
      work := work.(user := user);
      Save(saves);
      return saves;
    }

    method ConsumePasskeyReady(now: int, saves: bool) returns (r: Result<bool>)
      requires work == saved
      modifies this
      ensures r == ConsumeAnswer(old(saved), now, saves)
      ensures saved == Consumed(old(saved), saves)
      ensures r == Ok(true) <==> old(saved).ready.Stamp? && now - old(saved).ready.at < 60 && saves
      ensures r.Err? <==> old(saved).ready.Junk? || (old(saved).ready.Stamp? && !saves)
      ensures saved == old(saved) || saved == old(saved).(ready := Missing)
      ensures saves ==> saved.ready == Missing
      ensures r.Ok? ==> work == saved
    {
      var ready := work.ready;
      if ready.Missing? {
        return Ok(false);
      }
      if !ready.Stamp? {
        work := work.(ready := Missing);
        Save(saves);
        return Err(BadMarker);
      }
      work := work.(ready := Missing);
      Save(saves);
      if !saves {
        return Err(SaveFailed);
      }
      if now - ready.at >= READY_TIMEOUT {
        return Ok(false);
      }
      return Ok(true);
    }

    method SetSecureVerification(means: string, now: int, saves: bool) returns (r: Result<int>)
      requires work == saved
      modifies this
      ensures saved == Stamped(old(saved), means, now, saves)
      ensures saves ==> saved == State(old(saved).user, Missing, Stamp(now), Some(means))
      ensures r == if saves then Ok(now) else Err(SaveFailed)
    {
      work := work.(ready := Missing);
      work := work.(verifiedAt := Stamp(now));
      work := work.(verifiedBy := Some(means));
      Save(saves);
      return if saves then Ok(now) else Err(SaveFailed);
    }

    /** Answers with the time the verification runs out. */
    method UniversalVerify(req: Request, l: Luck) returns (r: Result<int>)
      modifies this
      ensures saved == Verified(old(saved), req, l)
      ensures r.Ok? <==> VerifySucceeds(old(saved), req, l)
      ensures req.means == "2fa" ==>
                (r.Ok? <==> req.loggedIn && req.parses && req.userFound && req.userEnabled
                            && req.hasTwoFactor && req.code != "" && req.codeValid && l.stampSaved)
      ensures req.means == "passkey" ==>
                (r.Ok? <==> req.loggedIn && req.parses && req.userFound && req.userEnabled && req.hasPasskey
                            && old(saved).ready.Stamp? && l.checkAt - old(saved).ready.at < 60
                            && l.markerSaved && l.stampSaved)
      ensures r.Ok? ==> req.means in {"2fa", "passkey"} && r.value == l.stampAt + 300
                        && saved == State(old(saved).user, Missing, Stamp(l.stampAt), Some(req.means))
      ensures r.Err? ==> saved == old(saved) || (req.means == "passkey" && saved == old(saved).(ready := Missing))
      ensures r.Err? && old(saved).ready.Missing? ==> saved == old(saved)
      ensures (req.means == "passkey" && req.loggedIn && req.parses && req.userFound && req.userEnabled
               && req.hasPasskey && l.markerSaved) ==> saved.ready == Missing
      ensures !req.loggedIn ==> r == Err(NotLoggedIn)
      ensures req.loggedIn && !req.parses ==> r == Err(BadRequest)
      ensures req.loggedIn && req.parses && !req.userFound ==> r == Err(NoSuchUser)
      ensures req.loggedIn && req.parses && req.userFound && !req.userEnabled ==> r == Err(UserDisabled)
      ensures (req.loggedIn && req.parses && req.userFound && req.userEnabled
               && !req.hasTwoFactor && !req.hasPasskey) ==> r == Err(NothingEnabled)
    {
      Load();
      if !req.loggedIn { return Err(NotLoggedIn); }
      if !req.parses { return Err(BadRequest); }
      if !req.userFound { return Err(NoSuchUser); }
      if !req.userEnabled { return Err(UserDisabled); }
      if !req.hasTwoFactor && !req.hasPasskey { return Err(NothingEnabled); }
      var verified: bool;
      if req.means == TWO_FACTOR {
        if !req.hasTwoFactor { return Err(NoTwoFactor); }
        if req.code == "" { return Err(EmptyCode); }
        verified := req.codeValid;
      } else if req.means == PASSKEY {
        if !req.hasPasskey { return Err(NoPasskey); }
        var c := ConsumePasskeyReady(l.checkAt, l.markerSaved);
        if c.Err? { return Err(c.error); }
        verified := c.value;
        if !verified { return Err(NotReady); }
      } else {
        return Err(UnknownMethod);
      }
      if !verified { return Err(WrongCode); }
      var now := SetSecureVerification(req.means, l.stampAt, l.stampSaved);
      if now.Err? { return Err(now.error); }
      return Ok(now.value + VERIFICATION_TIMEOUT);
    }

    method Logout(saves: bool) returns (ok: bool)
      modifies this
      ensures ok == saves && saved == if saves then State(0, Missing, Missing, None) else old(saved)
    {
      Load();
      work := EMPTY;
      Save(saves);
      return saves;
    }

    method ClearSecureVerification(saves: bool)
      modifies this
      ensures saved == Dropped(old(saved), saves)
      ensures saved == if saves then State(old(saved).user, old(saved).ready, Missing, None) else old(saved)
    {
      Load();
      work := work.(verifiedAt := Missing);
      work := work.(verifiedBy := None);
      Save(saves);
    }

    method RequireSecureVerificationMethod(means: string, now: int, saves: bool) returns (ok: bool)
      modifies this
      ensures ok == GateOpens(old(saved), means, now)
      ensures saved == Gated(old(saved), now, saves)
      ensures ok <==> old(saved).verifiedAt.Stamp? && now - old(saved).verifiedAt.at < 300
                      && old(saved).verifiedBy == Some(means)
      ensures saved == if saves && !(old(saved).verifiedAt.Stamp? && now - old(saved).verifiedAt.at < 300)
                       then State(old(saved).user, old(saved).ready, Missing, None) else old(saved)
    {
      Load();
      if !work.verifiedAt.Stamp? || now - work.verifiedAt.at >= VERIFICATION_TIMEOUT {
        work := work.(verifiedAt := Missing);
        work := work.(verifiedBy := None);
        Save(saves);
        return false;
      }
      return work.verifiedBy == Some(means);
    }

    /** The middleware gate, which does not care about the method. */
    method SecureVerificationRequired(loggedIn: bool, now: int, saves: bool) returns (ok: bool)
      modifies this
      ensures ok == (loggedIn && Fresh(old(saved), now))
      ensures ok <==> loggedIn && old(saved).verifiedAt.Stamp? && now - old(saved).verifiedAt.at < 300
      ensures saved == if saves && loggedIn && (old(saved).verifiedAt.Junk?
                            || (old(saved).verifiedAt.Stamp? && now - old(saved).verifiedAt.at >= 300))
                       then State(old(saved).user, old(saved).ready, Missing, None) else old(saved)
      ensures saved == if loggedIn then MiddlewareGated(old(saved), now, saves) else old(saved)
    {
      Load();
      if !loggedIn || work.verifiedAt.Missing? {
        return false;
      }
      if !work.verifiedAt.Stamp? || now - work.verifiedAt.at >= VERIFICATION_TIMEOUT {
        ClearSecureVerification(saves);
        return false;
      }
      return true;
    }
  }

  // ---------------------------------------------------------------- histories

  datatype Event =
    | Finish(at: int, saved: bool)
    | Verify(request: Request, luck: Luck)
    | Gate(at: int, saved: bool)
    | Middleware(at: int, saved: bool)
    | Clear(at: int, saved: bool)
    | Login(user: int, at: int, saved: bool)
    | Logout(at: int, saved: bool)
  {
    function Begins(): int { if Verify? then luck.checkAt else at }
    function Ends(): int { if Verify? then luck.stampAt else at }
  }

  function Apply(s: State, e: Event): State {
    match e
    case Finish(at, saved) => Finished(s, at, saved)
    case Verify(request, luck) => Verified(s, request, luck)
    case Gate(at, saved) => Gated(s, at, saved)
    case Middleware(at, saved) => MiddlewareGated(s, at, saved)
    case Clear(_, saved) => Dropped(s, saved)
    case Login(user, _, saved) => LoggedIn(s, user, saved)
    case Logout(_, saved) => if saved then EMPTY else s
  }

  /** The session after a history, starting from a new one. */
  function After(es: seq<Event>): State {
    if es == [] then EMPTY else Apply(After(es[..|es| - 1]), es[|es| - 1])
  }

  predicate Chronological(es: seq<Event>) {
    && (forall i :: 0 <= i < |es| ==> es[i].Begins() <= es[i].Ends())
    && (forall i, j :: 0 <= i < j < |es| ==> es[i].Ends() <= es[j].Begins())
  }

  predicate NotBefore(es: seq<Event>, now: int) {
    forall i :: 0 <= i < |es| ==> es[i].Ends() <= now
  }

  /** Event `i` is a verify request that was answered with success. */
  predicate Succeeds(es: seq<Event>, i: nat)
    requires i < |es|
  {
    es[i].Verify? && VerifySucceeds(After(es[..i]), es[i].request, es[i].luck)
  }

  /** Event `j` takes away whatever verification stood before it. */
  predicate Revokes(es: seq<Event>, j: nat)
    requires j < |es|
  {
    Succeeds(es, j) || ((es[j].Finish? || es[j].Clear? || es[j].Logout?) && es[j].saved)
  }

  /** Event `i` is the verify the session now speaks of. */
  predicate Stands(es: seq<Event>, i: nat)
    requires i < |es|
  {
    Succeeds(es, i) && forall j :: i < j < |es| ==> !Revokes(es, j)
  }

  /** Event `j` uses up or replaces the marker. */
  predicate UsesMarker(es: seq<Event>, j: nat)
    requires j < |es|
  {
    || Succeeds(es, j)
    || (es[j].Verify? && AsksForMarker(es[j].request) && es[j].luck.markerSaved)
    || ((es[j].Finish? || es[j].Logout?) && es[j].saved)
  }

  /** The marker left by the ceremony at `k` is untouched. */
  predicate Pending(es: seq<Event>, k: nat)
    requires k < |es|
  {
    es[k].Finish? && es[k].saved && forall j :: k < j < |es| ==> !UsesMarker(es, j)
  }

  /** The ceremony at `k` is the one the passkey request at `i` relies on. */
  predicate Backs(es: seq<Event>, k: nat, i: nat)
    requires i < |es|
  {
    k < i && Pending(es[..i], k) && es[i].Verify? && es[i].luck.checkAt - es[k].at < 60
  }

  /** Both the time and the method of the session are those of this one verify. */
  predicate StampOf(e: Event, s: State) {
    e.Verify? && s.verifiedAt == Stamp(e.luck.stampAt) && s.verifiedBy == Some(e.request.means)
  }

  ghost predicate MarkerExplained(es: seq<Event>, s: State) {
    match s.ready
    case Missing => forall k | 0 <= k < |es| :: !Pending(es, k)
    case Junk => false
    case Stamp(at) => exists k | 0 <= k < |es| :: Pending(es, k) && es[k].at == at
  }

  /** A missing stamp is explained by no verify standing, or by the standing one having expired. */
  ghost predicate StampExplained(es: seq<Event>, s: State) {
    match s.verifiedAt
    case Missing =>
      && s.verifiedBy == None
      && forall i, now | 0 <= i < |es| && Stands(es, i) && NotBefore(es, now) ::
           now - es[i].luck.stampAt >= VERIFICATION_TIMEOUT
    case Junk => false
    case Stamp(_) => exists i | 0 <= i < |es| :: Stands(es, i) && StampOf(es[i], s)
  }

  // ---------------------------------------------------------------- one more event

  lemma SucceedsPrefix(p: seq<Event>, e: Event, i: nat)
    requires i <= |p|
    ensures i < |p| ==> Succeeds(p + [e], i) == Succeeds(p, i)
    ensures i == |p| ==> Succeeds(p + [e], i) == (e.Verify? && VerifySucceeds(After(p), e.request, e.luck))
  {
    hide After, VerifySucceeds;
    assert (p + [e])[..i] == p[..i];
    assert p[..|p|] == p;
  }

  lemma StandsPrefix(p: seq<Event>, e: Event)
    ensures forall i :: 0 <= i < |p| ==> (Stands(p + [e], i) <==> Stands(p, i) && !Revokes(p + [e], |p|))
    ensures Stands(p + [e], |p|) <==> Succeeds(p + [e], |p|)
  {
    var es := p + [e];
    forall i: nat | i < |p| ensures Succeeds(es, i) == Succeeds(p, i) && Revokes(es, i) == Revokes(p, i) {
      SucceedsPrefix(p, e, i);
    }
  }

  lemma PendingPrefix(p: seq<Event>, e: Event)
    ensures forall k :: 0 <= k < |p| ==> (Pending(p + [e], k) <==> Pending(p, k) && !UsesMarker(p + [e], |p|))
    ensures Pending(p + [e], |p|) <==> e.Finish? && e.saved
  {
    var es := p + [e];
    forall i: nat | i < |p| ensures UsesMarker(es, i) == UsesMarker(p, i) {
      SucceedsPrefix(p, e, i);
    }
  }

  lemma MarkerStep(p: seq<Event>, e: Event)
    requires MarkerExplained(p, After(p))
    ensures MarkerExplained(p + [e], Apply(After(p), e))
  {
    hide After;
    SucceedsPrefix(p, e, |p|);
    PendingPrefix(p, e);
    var es, s := p + [e], After(p);
    var s' := Apply(s, e);
    if UsesMarker(es, |p|) {
      if e.Finish? {
        assert Pending(es, |p|) && es[|p|].at == e.at;
      } else {
        assert s'.ready == Missing;
      }
    } else {
      assert s'.ready == s.ready;
      if s.ready.Stamp? {
        var k :| 0 <= k < |p| && Pending(p, k) && p[k].at == s.ready.at;
        assert Pending(es, k) && es[k].at == s'.ready.at;
      }
    }
  }

  lemma StandsUnique(es: seq<Event>, i: nat, j: nat)
    requires i < |es| && j < |es| && Stands(es, i) && Stands(es, j)
    ensures i == j
  {
    assert i < j ==> Revokes(es, j);
    assert j < i ==> Revokes(es, i);
  }

  /** What one event does to the stamp. */
  lemma StampEffect(s: State, e: Event)
    ensures var s' := Apply(s, e);
            if e.Verify? && VerifySucceeds(s, e.request, e.luck) then StampOf(e, s')
            else if (e.Finish? || e.Clear? || e.Logout?) && e.saved then s'.verifiedAt == Missing
                && s'.verifiedBy == None
            else
              || (s'.verifiedAt == s.verifiedAt && s'.verifiedBy == s.verifiedBy)
              || (s'.verifiedAt == Missing && s'.verifiedBy == None && !Fresh(s, e.Ends()))
  {
  }

  lemma StampStep(p: seq<Event>, e: Event)
    requires Chronological(p + [e]) && StampExplained(p, After(p))
    ensures StampExplained(p + [e], Apply(After(p), e))
  {
    SucceedsPrefix(p, e, |p|);
    StandsPrefix(p, e);
    var es, s := p + [e], After(p);
    var s' := Apply(s, e);
    StampEffect(s, e);
    hide After, Apply, VerifySucceeds;
    if Revokes(es, |p|) {
      if Succeeds(es, |p|) {
        assert Stands(es, |p|) && StampOf(es[|p|], s');
      }
    } else {
      assert !(e.Verify? && VerifySucceeds(s, e.request, e.luck));
      hide Revokes, Succeeds;
      if s'.verifiedAt.Missing? {
        StampMissing(p, e, s);
      } else {
        var k :| 0 <= k < |p| && Stands(p, k) && StampOf(p[k], s);
        assert Stands(es, k) && StampOf(es[k], s');
      }
    }
  }

  /** A stamp is gone because nothing stood, or because what stood has expired. */
  lemma StampMissing(p: seq<Event>, e: Event, s: State)
    requires StampExplained(p, s) && !Revokes(p + [e], |p|) && (s.verifiedAt == Missing || !Fresh(s, e.Ends()))
    ensures forall i, now | 0 <= i <= |p| && Stands(p + [e], i) && NotBefore(p + [e], now) ::
              now - (p + [e])[i].luck.stampAt >= VERIFICATION_TIMEOUT
  {
    var es := p + [e];
    StandsPrefix(p, e);
    assert !Stands(es, |p|);
    hide Revokes, Stands;
    forall i, now | 0 <= i <= |p| && Stands(es, i) && NotBefore(es, now)
      ensures now - es[i].luck.stampAt >= VERIFICATION_TIMEOUT
    {
      assert i < |p| && Stands(p, i) && es[|p|].Ends() <= now;
      assert NotBefore(p, now) by {
        forall j | 0 <= j < |p| ensures p[j].Ends() <= now { assert es[j] == p[j]; }
      }
      if s.verifiedAt.Stamp? {
        var k :| 0 <= k < |p| && Stands(p, k) && StampOf(p[k], s);
        StandsUnique(p, i, k);
      }
    }
  }

  // ---------------------------------------------------------------- theorems about every history of a cookie

  lemma {:induction false} SessionExplained(es: seq<Event>)
    requires Chronological(es)
    ensures MarkerExplained(es, After(es)) && StampExplained(es, After(es))
  {
    if es != [] {
      var p, e := es[..|es| - 1], es[|es| - 1];
      SessionExplained(p);
      assert p + [e] == es;
      MarkerStep(p, e);
      StampStep(p, e);
    }
  }

  /** The stamp and the method in a session always come from one and the same verify. */
  lemma SameVerify(es: seq<Event>)
    requires Chronological(es)
    ensures After(es).verifiedAt == Missing <==> After(es).verifiedBy == None
    ensures After(es).verifiedAt != Missing ==>
              exists i | 0 <= i < |es| :: Stands(es, i) && StampOf(es[i], After(es))
  {
    SessionExplained(es);
  }

  /**
   A gate opens exactly when some verify by its method succeeded less than five minutes ago and
   nothing has revoked it since.  The deletions done by the gates themselves are unobservable.
   */
  lemma GateOpensIff(es: seq<Event>, means: string, now: int)
    requires Chronological(es) && NotBefore(es, now)
    ensures GateOpens(After(es), means, now) <==>
              exists i | 0 <= i < |es| ::
                Stands(es, i) && es[i].request.means == means && now - es[i].luck.stampAt < 300
  {
    hide After;
    SessionExplained(es);
    var s := After(es);
    if s.verifiedAt.Stamp? {
      var k :| 0 <= k < |es| && Stands(es, k) && StampOf(es[k], s);
      forall i | 0 <= i < |es| && Stands(es, i) ensures i == k {
        StandsUnique(es, i, k);
      }
    }
  }

  /** The middleware's gate asks the same question of either method. */
  lemma MiddlewareOpensIff(es: seq<Event>, now: int)
    requires Chronological(es) && NotBefore(es, now)
    ensures Fresh(After(es), now) <==> GateOpens(After(es), TWO_FACTOR, now) || GateOpens(After(es), PASSKEY, now)
  {
    hide After;
    SessionExplained(es);
    var s := After(es);
    if Fresh(s, now) {
      var k :| 0 <= k < |es| && Stands(es, k) && StampOf(es[k], s);
    }
  }

  /** A 2FA request succeeds exactly when its user is known and enabled, has 2FA and sent the right code, and
      the session could be saved. */
  lemma TwoFactorVerifyIff(es: seq<Event>, i: nat)
    requires i < |es| && es[i].Verify? && es[i].request.means == "2fa"
    ensures Succeeds(es, i) <==> var r := es[i].request;
              && r.loggedIn && r.parses && r.userFound && r.userEnabled && r.hasTwoFactor
              && r.code != "" && r.codeValid && es[i].luck.stampSaved
  {
  }

  /** An open 2FA gate rests on a standing verify, less than five minutes old, whose code was right. */
  lemma TwoFactorGateRests(es: seq<Event>, now: int)
    requires Chronological(es) && NotBefore(es, now) && GateOpens(After(es), "2fa", now)
    ensures exists i: nat | i < |es| :: Stands(es, i) && now - es[i].luck.stampAt < 300
              && es[i].request.means == "2fa" && es[i].request.hasTwoFactor && es[i].request.codeValid
              && es[i].request.userFound && es[i].request.userEnabled
  {
    GateOpensIff(es, "2fa", now);
    var i: nat :| i < |es| && Stands(es, i) && es[i].request.means == "2fa" && now - es[i].luck.stampAt < 300;
    TwoFactorVerifyIff(es, i);
  }

  /** A passkey request succeeds exactly when its user is known and enabled and has a passkey, an unused
      ceremony less than a minute old backs it, and the session could be saved. */
  lemma PasskeyVerifyIff(es: seq<Event>, i: nat)
    requires Chronological(es) && i < |es| && es[i].Verify? && es[i].request.means == PASSKEY
    ensures Succeeds(es, i) <==> var r := es[i].request;
              && r.loggedIn && r.parses && r.userFound && r.userEnabled && r.hasPasskey
              && es[i].luck.markerSaved && es[i].luck.stampSaved
              && exists k: nat | k < i :: Backs(es, k, i)
  {
    var p := es[..i];
    assert forall j :: 0 <= j < i ==> p[j] == es[j];
    SessionExplained(p);
    hide After;
    var s := After(p);
    if s.ready.Stamp? {
      var m :| 0 <= m < |p| && Pending(p, m) && p[m].at == s.ready.at;
      forall k: nat | k < i && Pending(p, k) ensures k == m {
        PendingUnique(p, k, m);
      }
      assert es[i].luck.checkAt - s.ready.at < READY_TIMEOUT <==> Backs(es, m, i);
    }
  }

  lemma PendingUnique(es: seq<Event>, i: nat, j: nat)
    requires i < |es| && j < |es| && Pending(es, i) && Pending(es, j)
    ensures i == j
  {
    assert i < j ==> UsesMarker(es, j);
    assert j < i ==> UsesMarker(es, i);
  }

  /** Along one history the marker is one-shot: a ceremony that backed one successful verify backs no
      other. */
  lemma NoCeremonyTwice(es: seq<Event>, k: nat, i: nat, j: nat)
    requires i < |es| && j < |es| && Succeeds(es, i) && Succeeds(es, j)
    requires Backs(es, k, i) && Backs(es, k, j)
    ensures i == j
  {
    if i < j {
      UsedBetween(es, k, i, j);
    } else if j < i {
      UsedBetween(es, k, j, i);
    }
  }

  lemma UsedBetween(es: seq<Event>, k: nat, i: nat, j: nat)
    requires k < i < j < |es| && Succeeds(es, i)
    ensures !Pending(es[..j], k)
  {
    assert es[..j][..i] == es[..i];
    assert UsesMarker(es[..j], i);
  }

  /** The chain a passkey gate rests on along one history, and that nothing else ever opens it. */
  lemma PasskeyGateChain(es: seq<Event>, now: int)
    requires Chronological(es) && NotBefore(es, now)
    ensures GateOpens(After(es), PASSKEY, now) ==>
              exists k: nat, i: nat | k < i < |es| ::
                && Stands(es, i) && Backs(es, k, i)
                && now - es[i].luck.stampAt < 300
                && (forall j: nat | j < |es| && j != i && Succeeds(es, j) :: !Backs(es, k, j))
  {
    GateOpensIff(es, PASSKEY, now);
    if GateOpens(After(es), PASSKEY, now) {
      var i :| 0 <= i < |es| && Stands(es, i) && es[i].request.means == PASSKEY
        && now - es[i].luck.stampAt < VERIFICATION_TIMEOUT;
      PasskeyVerifyIff(es, i);
      var k: nat :| k < i && Backs(es, k, i);
      forall j: nat | j < |es| && j != i && Succeeds(es, j) ensures !Backs(es, k, j) {
        if Backs(es, k, j) {
          NoCeremonyTwice(es, k, i, j);
        }
      }
      assert k < i < |es| && Stands(es, i) && Backs(es, k, i);
    }
  }

  /**
   The minute is measured when the marker is consumed, not when the stamp is written: a request
   that lingers between its two clock readings stamps a ceremony that is more than a minute old.
   */
  lemma StampMayLag(r: Request)
    requires AsksForMarker(r)
    ensures var es := [Finish(0, true), Verify(r, Luck(59, true, 75, true))];
            Chronological(es) && Succeeds(es, 1) && Backs(es, 0, 1)
            && After(es).verifiedAt == Stamp(75) && GateOpens(After(es), PASSKEY, 75 + 299)
  {
    var es := [Finish(0, true), Verify(r, Luck(59, true, 75, true))];
    assert es[..1] == [Finish(0, true)] && es[..1][..0] == [];
    assert After(es[..1]) == State(0, Stamp(0), Missing, None);
  }

  // ---------------------------------------------------------------- whose ceremony it was

  /** The latest login of a history after event `k`, if there is one. */
  ghost predicate LastLogin(es: seq<Event>, k: int, j: int) {
    && 0 <= k < j < |es| && es[j].Login? && es[j].saved
    && forall m :: j < m < |es| ==> !(es[m].Login? && es[m].saved)
  }

  /** As long as nobody logs out, the session belongs to the latest login since, or to whom it did before. */
  lemma {:induction false} UserSince(es: seq<Event>, k: nat)
    requires k < |es| && forall m :: k < m < |es| ==> !(es[m].Logout? && es[m].saved)
    ensures forall j :: LastLogin(es, k, j) ==> After(es).user == es[j].user
    ensures (forall j :: !LastLogin(es, k, j)) ==> After(es).user == After(es[..k + 1]).user
  {
    var last := |es| - 1;
    if k == last {
      assert es[..k + 1] == es;
    } else {
      var front, e := es[..last], es[last];
      UserSince(front, k);
      assert front[..k + 1] == es[..k + 1];
      assert After(es) == Apply(After(front), e);
      assert Apply(After(front), e).user == if e.Login? && e.saved then e.user else After(front).user;
      hide After, Apply;
      if e.Login? && e.saved {
        assert LastLogin(es, k, last);
      } else {
        assert forall j :: LastLogin(es, k, j) <==> LastLogin(front, k, j);
      }
    }
  }

  /** The ceremony at `k` and the verify at `i` that it backs belong to one user exactly if nobody else was the
      last to log in between them: a login keeps the marker. */
  lemma BackedBySameUserIff(es: seq<Event>, k: nat, i: nat)
    requires i < |es| && Backs(es, k, i)
    ensures After(es[..i]).user == After(es[..k + 1]).user
            <==> forall j :: LastLogin(es[..i], k, j) ==> es[j].user == After(es[..k + 1]).user
  {
    var h := es[..i];
    assert forall m :: k < m < i && h[m].Logout? && h[m].saved ==> UsesMarker(h, m);
    UserSince(h, k);
    assert h[..k + 1] == es[..k + 1];
    hide After, Pending, UsesMarker;
    if j :| LastLogin(h, k, j) {
      assert h[j] == es[j];
    }
  }

  /** The same of a verify that stands and the user a gate opens for. */
  lemma StandsForSameUserIff(es: seq<Event>, i: nat)
    requires i < |es| && Stands(es, i)
    ensures After(es).user == After(es[..i + 1]).user
            <==> forall j :: LastLogin(es, i, j) ==> es[j].user == After(es[..i + 1]).user
  {
    assert forall m :: i < m < |es| && es[m].Logout? && es[m].saved ==> Revokes(es, m);
    UserSince(es, i);
  }

  /** It does happen: one user's ceremony verifies the user who logs in next with the same cookie. */
  lemma OtherUserVerified(a: int, b: int, r: Request)
    requires a != b && AsksForMarker(r)
    ensures var es := [Login(a, 0, true), Finish(1, true), Login(b, 2, true), Verify(r, Luck(3, true, 3, true))];
            && Chronological(es) && Succeeds(es, 3) && Backs(es, 1, 3)
            && After(es[..2]).user == a && After(es).user == b && GateOpens(After(es), PASSKEY, 4)
  {
    var es := [Login(a, 0, true), Finish(1, true), Login(b, 2, true), Verify(r, Luck(3, true, 3, true))];
    var h := es[..3];
    assert es[..1][..0] == [] && es[..2][..1] == es[..1] && h[..2] == es[..2] && es[..3] == h && es[..4] == es;
    assert After(es[..1]) == State(a, Missing, Missing, None);
    assert After(es[..2]) == State(a, Stamp(1), Missing, None);
    assert After(h) == State(b, Stamp(1), Missing, None);
    assert After(es) == State(b, Missing, Stamp(3), Some(PASSKEY));
    assert !UsesMarker(h, 2);
    assert Pending(h, 1);
  }

  // ---------------------------------------------------------------- trees of cookies

  /** A request, made with cookie `on`: cookie 0 is the empty session, and request `i` hands out cookie
      `i + 1`. */
  datatype Node = Node(on: nat, e: Event)

  predicate Tree(ns: seq<Node>) {
    && (forall i :: 0 <= i < |ns| ==> ns[i].on <= i && ns[i].e.Begins() <= ns[i].e.Ends())
    && (forall i :: 0 <= i < |ns| && ns[i].on > 0 ==> ns[ns[i].on - 1].e.Ends() <= ns[i].e.Begins())
  }

  function Cookie(ns: seq<Node>, c: nat): State
    requires Tree(ns) && c <= |ns|
  {
    if c == 0 then EMPTY else Apply(Cookie(ns, ns[c - 1].on), ns[c - 1].e)
  }

  /** The requests that led to cookie `c`. */
  function Path(ns: seq<Node>, c: nat): seq<nat>
    requires Tree(ns) && c <= |ns|
  {
    if c == 0 then [] else Path(ns, ns[c - 1].on) + [c - 1]
  }

  predicate On(ns: seq<Node>, i: nat, c: nat)
    requires Tree(ns) && c <= |ns|
  {
    i in Path(ns, c)
  }

  function History(ns: seq<Node>, c: nat): seq<Event>
    requires Tree(ns) && c <= |ns|
  {
    if c == 0 then [] else History(ns, ns[c - 1].on) + [ns[c - 1].e]
  }

  /** Request `i` is a verify that was answered with success. */
  predicate Granted(ns: seq<Node>, i: nat)
    requires Tree(ns) && i < |ns|
  {
    ns[i].e.Verify? && VerifySucceeds(Cookie(ns, ns[i].on), ns[i].e.request, ns[i].e.luck)
  }

  /** Request `m` takes away whatever verification its cookie carried. */
  predicate Withdraws(ns: seq<Node>, m: nat)
    requires Tree(ns) && m < |ns|
  {
    Granted(ns, m) || ((ns[m].e.Finish? || ns[m].e.Clear? || ns[m].e.Logout?) && ns[m].e.saved)
  }

  /** Request `m` uses up or replaces the marker of its cookie. */
  predicate Spends(ns: seq<Node>, m: nat)
    requires Tree(ns) && m < |ns|
  {
    || Granted(ns, m)
    || (ns[m].e.Verify? && AsksForMarker(ns[m].e.request) && ns[m].e.luck.markerSaved)
    || ((ns[m].e.Finish? || ns[m].e.Logout?) && ns[m].e.saved)
  }

  /** The ceremony `k` lies on the branch of cookie `c`, recent at time `now`, and nothing on that branch
      has used its marker since. */
  predicate Live(ns: seq<Node>, k: nat, c: nat, now: int)
    requires Tree(ns) && c <= |ns|
  {
    && k < |ns| && ns[k].e.Finish? && ns[k].e.saved && On(ns, k, c) && now - ns[k].e.at < 60
    && forall m :: k < m < |ns| && On(ns, m, c) ==> !Spends(ns, m)
  }

  /** The ceremony `k` is the one the verify request `i` relies on. */
  predicate BackedBy(ns: seq<Node>, k: nat, i: nat)
    requires Tree(ns) && i < |ns|
  {
    ns[i].e.Verify? && Live(ns, k, ns[i].on, ns[i].e.luck.checkAt)
  }

  lemma OneOn(ns: seq<Node>, c: nat)
    requires Tree(ns) && 0 < c <= |ns|
    ensures var d, e := ns[c - 1].on, ns[c - 1].e;
            && d < c && Path(ns, c) == Path(ns, d) + [c - 1] && History(ns, c) == History(ns, d) + [e]
            && Cookie(ns, c) == Apply(Cookie(ns, d), e)
  {
  }

  lemma AfterOne(h: seq<Event>, e: Event)
    ensures After(h + [e]) == Apply(After(h), e)
  {
    assert (h + [e])[..|h|] == h;
  }

  /** The cookie is what its history leads to. */
  lemma {:induction false} CookieAfter(ns: seq<Node>, c: nat)
    requires Tree(ns) && c <= |ns|
    ensures Cookie(ns, c) == After(History(ns, c))
  {
    if c > 0 {
      CookieAfter(ns, ns[c - 1].on);
      OneOn(ns, c);
      hide Cookie, After, History, Apply;
      AfterOne(History(ns, ns[c - 1].on), ns[c - 1].e);
    }
  }

  lemma {:induction false} PathFacts(ns: seq<Node>, c: nat)
    requires Tree(ns) && c <= |ns|
    ensures |Path(ns, c)| == |History(ns, c)|
    ensures forall p :: 0 <= p < |Path(ns, c)| ==> Path(ns, c)[p] < c && History(ns, c)[p] == ns[Path(ns, c)[p]].e
    ensures forall p, q :: 0 <= p < q < |Path(ns, c)| ==> Path(ns, c)[p] < Path(ns, c)[q]
  {
    if c > 0 {
      PathFacts(ns, ns[c - 1].on);
      OneOn(ns, c);
      hide Path, History, Apply, Cookie;
    }
  }

  /** Up to any request on it, a branch is the branch of the cookie that request presented. */
  lemma {:induction false} PathPrefix(ns: seq<Node>, c: nat, p: nat)
    requires Tree(ns) && c <= |ns| && p < |Path(ns, c)|
    ensures Path(ns, c)[p] < |ns| && |Path(ns, c)| == |History(ns, c)|
    ensures Path(ns, c)[..p] == Path(ns, ns[Path(ns, c)[p]].on)
    ensures History(ns, c)[..p] == History(ns, ns[Path(ns, c)[p]].on)
  {
    PathFacts(ns, c);
    OneOn(ns, c);
    var d := ns[c - 1].on;
    PathFacts(ns, d);
    if p < |Path(ns, d)| {
      PathPrefix(ns, d, p);
      hide Path, History, Cookie, Apply, Tree;
      PrefixOfAppend(Path(ns, d), c - 1, p);
      PrefixOfAppend(History(ns, d), ns[c - 1].e, p);
    } else {
      hide Path, History, Cookie, Apply, Tree;
      PrefixOfAppend(Path(ns, d), c - 1, p);
      PrefixOfAppend(History(ns, d), ns[c - 1].e, p);
    }
  }

  lemma PrefixOfAppend<T>(xs: seq<T>, x: T, p: nat)
    requires p <= |xs|
    ensures (xs + [x])[..p] == xs[..p] && xs[..|xs|] == xs
  {
  }

  /** What a branch says of its requests is what the tree says of them. */
  lemma SameOnBranch(ns: seq<Node>, c: nat, p: nat)
    requires Tree(ns) && c <= |ns| && p < |Path(ns, c)|
    ensures var m, h := Path(ns, c)[p], History(ns, c);
            && m < |ns| && |Path(ns, c)| == |h| && h[p] == ns[m].e
            && Succeeds(h, p) == Granted(ns, m) && Revokes(h, p) == Withdraws(ns, m)
            && UsesMarker(h, p) == Spends(ns, m)
  {
    PathFacts(ns, c);
    PathPrefix(ns, c, p);
    CookieAfter(ns, ns[Path(ns, c)[p]].on);
    hide Path, History, Cookie, After, Tree;
  }

  lemma {:induction false} BranchTimes(ns: seq<Node>, c: nat, now: int)
    requires Tree(ns) && c <= |ns| && (c > 0 ==> ns[c - 1].e.Ends() <= now)
    ensures Chronological(History(ns, c)) && NotBefore(History(ns, c), now)
  {
    if c > 0 {
      BranchTimes(ns, ns[c - 1].on, ns[c - 1].e.Begins());
    }
  }

  lemma OnAt(ns: seq<Node>, i: nat, c: nat) returns (p: nat)
    requires Tree(ns) && c <= |ns| && On(ns, i, c)
    ensures p < |Path(ns, c)| && Path(ns, c)[p] == i && i < c
  {
    p :| 0 <= p < |Path(ns, c)| && Path(ns, c)[p] == i;
    PathFacts(ns, c);
  }

  lemma LiveIsPending(ns: seq<Node>, c: nat, p: nat)
    requires Tree(ns) && c <= |ns| && p < |Path(ns, c)|
    ensures |Path(ns, c)| == |History(ns, c)| && Path(ns, c)[p] < |ns|
    ensures var k, h := Path(ns, c)[p], History(ns, c);
            Pending(h, p) <==> ns[k].e.Finish? && ns[k].e.saved && forall m :: k < m < |ns| && On(ns, m, c) ==>
                  !Spends(ns, m)
  {
    PathFacts(ns, c);
    var path, h := Path(ns, c), History(ns, c);
    hide Path, History, UsesMarker, Spends, Tree;
    SameOnBranch(ns, c, p);
    if ns[path[p]].e.Finish? && ns[path[p]].e.saved {
      if Pending(h, p) {
        forall m | path[p] < m < |ns| && On(ns, m, c) ensures !Spends(ns, m) {
          var q := OnAt(ns, m, c);
          SameOnBranch(ns, c, q);
          assert p < q;
        }
      } else {
        var q :| p < q < |h| && UsesMarker(h, q);
        SameOnBranch(ns, c, q);
        assert On(ns, path[q], c);
      }
    }
  }

  /** A passkey request succeeds exactly if a ceremony backs it on the branch of the cookie it presents. */
  lemma PasskeyGrantedIff(ns: seq<Node>, i: nat)
    requires Tree(ns) && i < |ns| && ns[i].e.Verify? && ns[i].e.request.means == PASSKEY
    ensures Granted(ns, i) <==> var r := ns[i].e.request;
              && r.loggedIn && r.parses && r.userFound && r.userEnabled && r.hasPasskey
              && ns[i].e.luck.markerSaved && ns[i].e.luck.stampSaved
              && exists k: nat | k < i :: BackedBy(ns, k, i)
  {
    var c := ns[i].on;
    BranchTimes(ns, i + 1, ns[i].e.Ends());
    LastOnBranch(ns, i);
    var h, d := History(ns, i + 1), |History(ns, c)|;
    PasskeyVerifyIff(h, d);
    hide History, Granted, Backs, BackedBy, Succeeds, Path;
    if p: nat :| p < d && Backs(h, p, d) {
      BackerOnBranch(ns, i, p);
      assert BackedBy(ns, Path(ns, c)[p], i);
    }
    if k: nat :| k < i && BackedBy(ns, k, i) {
      BackedOn(ns, k, i);
      var p := OnAt(ns, k, c);
      BackerOnBranch(ns, i, p);
      assert Backs(h, p, d);
    }
  }

  lemma BackedOn(ns: seq<Node>, k: nat, i: nat)
    requires Tree(ns) && i < |ns| && BackedBy(ns, k, i)
    ensures On(ns, k, ns[i].on)
  {
  }

  /** A request stands last on the branch of the cookie it hands out. */
  lemma LastOnBranch(ns: seq<Node>, i: nat)
    requires Tree(ns) && i < |ns|
    ensures var c, h := ns[i].on, History(ns, i + 1); var d := |History(ns, c)|;
            |h| == d + 1 && h[d] == ns[i].e && h[..d] == History(ns, c) && |Path(ns, c)| == d
                && Succeeds(h, d) == Granted(ns, i)
  {
    var c := ns[i].on;
    PathFacts(ns, c);
    CookieAfter(ns, c);
    OneOn(ns, i + 1);
    var h, d := History(ns, i + 1), |History(ns, c)|;
    hide History, Path, Cookie, After;
    assert h[..d] == History(ns, c);
  }

  lemma BackerOnBranch(ns: seq<Node>, i: nat, p: nat)
    requires Tree(ns) && i < |ns| && p < |Path(ns, ns[i].on)|
    ensures var c, h := ns[i].on, History(ns, i + 1); var d := |History(ns, c)|;
            |h| == d + 1 && Path(ns, c)[p] < i && (Backs(h, p, d) <==> BackedBy(ns, Path(ns, c)[p], i))
  {
    var c := ns[i].on;
    LastOnBranch(ns, i);
    PathFacts(ns, c);
    LiveIsPending(ns, c, p);
    hide History, Path, Cookie, After, Pending, Spends, Tree;
    assert On(ns, Path(ns, c)[p], c);
  }

  /** The verify request `i` succeeded and nothing later on the branch of cookie `c` withdrew it. */
  predicate Valid(ns: seq<Node>, i: nat, c: nat)
    requires Tree(ns) && c <= |ns| && i < |ns|
  {
    ns[i].e.Verify? && On(ns, i, c) && Granted(ns, i) && forall m :: i < m < |ns| && On(ns, m, c) ==> !Withdraws(ns, m)
  }

  /** A gate opens for a cookie exactly if, on the branch of that cookie, a verify by its method succeeded
      less than five minutes ago and nothing later on that branch withdrew it. */
  lemma GateOpensForCookieIff(ns: seq<Node>, c: nat, means: string, now: int)
    requires Tree(ns) && c <= |ns| && (c > 0 ==> ns[c - 1].e.Ends() <= now)
    ensures GateOpens(Cookie(ns, c), means, now) <==>
              exists i: nat | i < |ns| ::
                Valid(ns, i, c) && ns[i].e.request.means == means && now - ns[i].e.luck.stampAt < 300
  {
    BranchTimes(ns, c, now);
    PathFacts(ns, c);
    CookieAfter(ns, c);
    var h, path := History(ns, c), Path(ns, c);
    GateOpensIff(h, means, now);
    hide History, Path, After, Cookie, Granted, Withdraws, Revokes, Tree, Stands, Valid;
    forall p: nat | p < |h| ensures path[p] < |ns| && (Stands(h, p) <==> Valid(ns, path[p], c)) {
      StandsOnBranch(ns, c, p);
    }
    if p :|
          && 0 <= p < |h| && Stands(h, p) && h[p].request.means == means
          && now - h[p].luck.stampAt < VERIFICATION_TIMEOUT {
      assert Valid(ns, path[p], c);
    }
    if i: nat :|
          && i < |ns| && Valid(ns, i, c) && ns[i].e.request.means == means
          && now - ns[i].e.luck.stampAt < VERIFICATION_TIMEOUT {
      ValidOn(ns, i, c);
      var p := OnAt(ns, i, c);
      assert Stands(h, p);
    }
  }

  /** An open 2FA gate rests on a verify on the branch of the cookie presented whose code was right. */
  lemma TwoFactorGateRestsForCookie(ns: seq<Node>, c: nat, now: int)
    requires Tree(ns) && c <= |ns| && (c > 0 ==> ns[c - 1].e.Ends() <= now) && GateOpens(Cookie(ns, c), "2fa", now)
    ensures exists i: nat | i < |ns| :: Valid(ns, i, c) && now - ns[i].e.luck.stampAt < 300
              && ns[i].e.request.means == "2fa" && ns[i].e.request.hasTwoFactor && ns[i].e.request.codeValid
              && ns[i].e.request.userFound && ns[i].e.request.userEnabled
  {
    GateOpensForCookieIff(ns, c, "2fa", now);
    var i: nat :| i < |ns| && Valid(ns, i, c) && ns[i].e.request.means == "2fa"
        && now - ns[i].e.luck.stampAt < 300;
    hide Cookie, Tree;
  }

  lemma ValidOn(ns: seq<Node>, i: nat, c: nat)
    requires Tree(ns) && c <= |ns| && i < |ns| && Valid(ns, i, c)
    ensures On(ns, i, c) && Granted(ns, i) && ns[i].e.Verify?
  {
  }

  lemma StandsOnBranch(ns: seq<Node>, c: nat, p: nat)
    requires Tree(ns) && c <= |ns| && p < |Path(ns, c)|
    ensures |Path(ns, c)| == |History(ns, c)| && Path(ns, c)[p] < |ns|
    ensures Stands(History(ns, c), p) <==> Valid(ns, Path(ns, c)[p], c)
    ensures Stands(History(ns, c), p) ==> History(ns, c)[p].Verify?
  {
    PathFacts(ns, c);
    var path, h := Path(ns, c), History(ns, c);
    hide Path, History, After, Cookie, VerifySucceeds, Tree;
    SameOnBranch(ns, c, p);
    assert On(ns, path[p], c);
    assert Granted(ns, path[p]) ==> ns[path[p]].e.Verify?;
    hide Revokes, Withdraws, Granted, Succeeds;
    if Granted(ns, path[p]) {
      if Stands(h, p) {
        forall m | path[p] < m < |ns| && On(ns, m, c) ensures !Withdraws(ns, m) {
          var q := OnAt(ns, m, c);
          SameOnBranch(ns, c, q);
          assert p < q;
        }
      } else {
        var q :| p < q < |h| && Revokes(h, q);
        SameOnBranch(ns, c, q);
        assert On(ns, path[q], c);
      }
    }
  }

  /** The chain behind an open passkey gate, along the branch of the cookie presented. */
  lemma PasskeyGateChainForCookie(ns: seq<Node>, c: nat, now: int)
    requires Tree(ns) && c <= |ns| && (c > 0 ==> ns[c - 1].e.Ends() <= now) && GateOpens(Cookie(ns, c), PASSKEY, now)
    ensures exists k: nat, i: nat | k < i < |ns| ::
              && On(ns, i, c) && Granted(ns, i) && BackedBy(ns, k, i)
              && now - ns[i].e.luck.stampAt < 300
  {
    hide Tree, Granted, Live, Withdraws;
    GateOpensForCookieIff(ns, c, PASSKEY, now);
    var i: nat :| i < |ns| && Valid(ns, i, c) && ns[i].e.request.means == PASSKEY
        && now - ns[i].e.luck.stampAt < VERIFICATION_TIMEOUT;
    ValidOn(ns, i, c);
    PasskeyGrantedIff(ns, i);
    var k: nat :| k < i && BackedBy(ns, k, i);
    assert k < i < |ns| && On(ns, i, c) && Granted(ns, i) && BackedBy(ns, k, i);
  }

  /** The verifies that one ceremony backs never lie on one another's branches. */
  lemma BackedApart(ns: seq<Node>, k: nat, i: nat, j: nat)
    requires Tree(ns) && i < |ns| && j < |ns| && Granted(ns, i) && BackedBy(ns, k, i) && BackedBy(ns, k, j)
    ensures !On(ns, i, ns[j].on)
  {
    PathFacts(ns, ns[i].on);
    var p := OnAt(ns, k, ns[i].on);
    assert k < i && Spends(ns, i);
  }

  /** So if every request presents the newest cookie, a ceremony backs one verify at most. */
  lemma OneShotInSequence(ns: seq<Node>, k: nat, i: nat, j: nat)
    requires Tree(ns) && (forall m :: 0 <= m < |ns| ==> ns[m].on == m)
    requires i < |ns| && j < |ns| && Granted(ns, i) && Granted(ns, j) && BackedBy(ns, k, i) && BackedBy(ns, k, j)
    ensures i == j
  {
    BackedApart(ns, k, i, j);
    BackedApart(ns, k, j, i);
    if i < j {
      InSequence(ns, i, j);
    } else if j < i {
      InSequence(ns, j, i);
    }
  }

  lemma {:induction false} InSequence(ns: seq<Node>, i: nat, c: nat)
    requires Tree(ns) && (forall m :: 0 <= m < |ns| ==> ns[m].on == m) && i < c <= |ns|
    ensures On(ns, i, c)
  {
    if i < c - 1 {
      InSequence(ns, i, c - 1);
    }
  }

  /** Exactly when a second verify gets through on the same ceremony: `k` has backed `i`, and `j` asks with
      a cookie that descends from `k`, in time, on a branch where nothing but perhaps `i` has touched the
      marker.  Then `k` backs `j` as well if and only if neither lies on the other's branch. */
  lemma CeremonyTwiceIff(ns: seq<Node>, k: nat, i: nat, j: nat)
    requires Tree(ns) && i < |ns| && j < |ns| && i != j && Granted(ns, i) && BackedBy(ns, k, i)
    requires ns[j].e.Verify? && AsksForMarker(ns[j].e.request) && ns[j].e.luck.markerSaved && ns[j].e.luck.stampSaved
    requires On(ns, k, ns[j].on) && ns[j].e.luck.checkAt - ns[k].e.at < READY_TIMEOUT
    requires forall m :: k < m < |ns| && m != i && On(ns, m, ns[j].on) ==> !Spends(ns, m)
    ensures Granted(ns, j) && BackedBy(ns, k, j) <==> !On(ns, i, ns[j].on) && !On(ns, j, ns[i].on)
  {
    PathFacts(ns, ns[j].on);
    var p := OnAt(ns, k, ns[j].on);
    assert Spends(ns, j) && k < j;
    hide Spends, Granted;
    if BackedBy(ns, k, j) {
      BackedApart(ns, k, i, j);
      PasskeyGrantedIff(ns, j);
    }
  }

  /** The last branching is always at hand: sending the same request with the same cookie again succeeds
      again, on the same ceremony. */
  lemma ResentSucceeds(ns: seq<Node>, k: nat, i: nat)
    requires Tree(ns) && i < |ns| && Granted(ns, i) && BackedBy(ns, k, i)
    ensures var ns' := ns + [ns[i]];
            Tree(ns') && Granted(ns', i) && Granted(ns', |ns|) && BackedBy(ns', k, i) && BackedBy(ns', k, |ns|)
  {
    var ns' := ns + [ns[i]];
    assert Tree(ns');
    forall c: nat | c <= |ns| ensures Cookie(ns', c) == Cookie(ns, c) && Path(ns', c) == Path(ns, c) {
      CookieStays(ns, ns', c);
    }
    PathFacts(ns, ns[i].on);
    forall m: nat | m < |ns| ensures Granted(ns', m) == Granted(ns, m) && Spends(ns', m) == Spends(ns, m) {
      assert ns'[m] == ns[m];
    }
    assert !On(ns', |ns|, ns[i].on);
  }

  /** Nothing that happens later changes a cookie already handed out: in particular no withdrawal closes
      a gate for the cookies from before it. */
  lemma {:induction false} CookieStays(ns: seq<Node>, ns': seq<Node>, c: nat)
    requires Tree(ns) && Tree(ns') && ns <= ns' && c <= |ns|
    ensures Cookie(ns', c) == Cookie(ns, c) && Path(ns', c) == Path(ns, c)
  {
    if c > 0 {
      assert ns'[c - 1] == ns[c - 1];
      CookieStays(ns, ns', ns[c - 1].on);
    }
  }
}
