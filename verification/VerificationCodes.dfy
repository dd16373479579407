/**
 E-mail verification codes: one map from purpose and key to the latest code, swept of expired
 entries only when it has grown.  It must answer as the full history of events would.
 */
module VerificationCodes {

  /** Times are in nanoseconds. */
  datatype Entry = Entry(code: string, at: int)

  datatype Option<T> = None | Some(value: T)

  const MAX_SIZE := 10
  const VALID_SECONDS := 600
  const SECOND := 1_000_000_000

  /** Whole seconds, truncated toward zero as Go's int conversion does. */
  function Seconds(d: int): int {
    if d >= 0 then d / SECOND else -(-d / SECOND)
  }

  predicate Expired(at: int, now: int) {
    Seconds(now - at) >= VALID_SECONDS
  }

  /** A code lives exactly ten minutes. */
  lemma ExpiredAfterTenMinutes(at: int, now: int)
    ensures Expired(at, now) <==> now - at >= 600_000_000_000
  {
  }

  type Codes = map<string, Entry>

  function Swept(codes: Codes, now: int): Codes {
    map k | k in codes && !Expired(codes[k].at, now) :: codes[k]
  }

  function Registered(codes: Codes, key: string, code: string, purpose: string, now: int, sweepAt: int): Codes {
    var codes' := codes[purpose + key := Entry(code, now)];
    if |codes'| > MAX_SIZE then Swept(codes', sweepAt) else codes'
  }

  predicate Verified(codes: Codes, key: string, code: string, purpose: string, now: int) {
    purpose + key in codes && !Expired(codes[purpose + key].at, now) && code == codes[purpose + key].code
  }

  /** The global `verificationMap` and the functions over it. */
  class VerificationMap {
    var codes: Codes

    constructor ()
      ensures codes == map[]
    {
      codes := map[];
    }

    method Register(key: string, code: string, purpose: string, now: int, sweepAt: int)
      modifies this
      ensures codes == Registered(old(codes), key, code, purpose, now, sweepAt)
      ensures var grown := old(codes)[purpose + key := Entry(code, now)];
        if |grown| <= 10 then codes == grown
        else
          && (forall k :: k in codes <==> k in grown && sweepAt - grown[k].at < 600_000_000_000)
          && (forall k :: k in codes ==> codes[k] == grown[k])
    {
      codes := codes[purpose + key := Entry(code, now)];
      if |codes| > MAX_SIZE {
        RemoveExpiredPairs(sweepAt);
      }
    }

    method Verify(key: string, code: string, purpose: string, now: int) returns (ok: bool)
      ensures ok == Verified(codes, key, code, purpose, now)
      ensures ok <==> purpose + key in codes && codes[purpose + key].code == code
                      && now - codes[purpose + key].at < 600_000_000_000
    {
      if purpose + key in codes {
        ExpiredAfterTenMinutes(codes[purpose + key].at, now);
      }
      if purpose + key !in codes || Seconds(now - codes[purpose + key].at) >= VALID_SECONDS {
        return false;
      }
      return code == codes[purpose + key].code;
    }

    method DeleteKey(key: string, purpose: string)
      modifies this
      ensures codes == old(codes) - {purpose + key}
    {
      codes := codes - {purpose + key};
    }

    method RemoveExpiredPairs(now: int)
      modifies this
      ensures codes == Swept(old(codes), now)
      ensures forall k :: k in codes <==> k in old(codes) && now - old(codes)[k].at < 600_000_000_000
      ensures forall k :: k in codes ==> codes[k] == old(codes)[k]
    {
      var todo := codes.Keys;
      while todo != {}
        invariant todo <= codes.Keys <= old(codes.Keys)
        invariant forall k :: k in codes ==> codes[k] == old(codes)[k]
        invariant forall k :: k in old(codes) && k !in todo ==> (k in codes <==> !Expired(old(codes)[k].at, now))
        decreases todo
      {
        var k :| k in todo;
        if Seconds(now - codes[k].at) >= VALID_SECONDS {
          codes := codes - {k};
        }
        todo := todo - {k};
      }
      forall k | k in old(codes) {
        ExpiredAfterTenMinutes(old(codes)[k].at, now);
      }
    }
  }

  // ---------------------------------------------------------------- the history it stands for

  datatype Event =
    | Register(purpose: string, key: string, code: string, at: int, sweepAt: int)
    | Delete(purpose: string, key: string, at: int)

  function Apply(codes: Codes, e: Event): Codes {
    match e
    case Register(purpose, key, code, at, sweepAt) => Registered(codes, key, code, purpose, at, sweepAt)
    case Delete(purpose, key, _) => codes - {purpose + key}
  }

  function After(es: seq<Event>): Codes {
    if es == [] then map[] else Apply(After(es[..|es| - 1]), es[|es| - 1])
  }

  /** The code left by the latest event for this purpose and key, if that is a registration. */
  function Latest(es: seq<Event>, purpose: string, key: string): Option<Entry> {
    if es == [] then None
    else
      var e := es[|es| - 1];
      if e.purpose == purpose && e.key == key then
        if e.Register? then Some(Entry(e.code, e.at)) else None
      else Latest(es[..|es| - 1], purpose, key)
  }

  /** When the last event, with its sweep, is over. */
  function End(e: Event): int {
    if e.Register? then e.sweepAt else e.at
  }

  /** Equal, or neither a prefix of the other; the purposes in use are two different letters. */
  predicate Apart(p: string, p': string) {
    p == p' || (!(p <= p') && !(p' <= p))
  }

  /** Time never goes back, and purpose `p` is apart from every purpose used. */
  ghost predicate History(es: seq<Event>, p: string) {
    && (forall i :: 0 <= i < |es| ==> Apart(p, es[i].purpose) && es[i].at <= End(es[i]))
    && (forall i, j :: 0 <= i < j < |es| ==> End(es[i]) <= es[j].at)
  }

  /** Purpose and key can be told apart from their concatenation. */
  lemma SlotUnique(p: string, k: string, p': string, k': string)
    requires Apart(p, p')
    ensures p + k == p' + k' <==> p == p' && k == k'
  {
    if p + k == p' + k' {
      var s := p + k;
      assert s[..|p|] == p && s[..|p'|] == p' && s[|p|..] == k && s[|p'|..] == k';
      assert |p| <= |p'| ==> p <= p';
      assert |p'| <= |p| ==> p' <= p;
    }
  }

  /** Exactly which purposes share no slot: those neither of which is a prefix of the other. */
  lemma SlotsApartIff(p: string, p': string)
    ensures (forall k, k' :: p + k == p' + k' <==> p == p' && k == k') <==> Apart(p, p')
  {
    if Apart(p, p') {
      forall k, k' ensures p + k == p' + k' <==> p == p' && k == k' {
        SlotUnique(p, k, p', k');
      }
    } else if p <= p' {
      assert p + p'[|p|..] == p' + "";
    } else {
      assert p + "" == p' + p[|p'|..];
    }
  }

  /** And what goes wrong otherwise: a code registered under the longer purpose verifies under the shorter. */
  lemma SlotsCollide(p: string, x: string, k: string, code: string)
    requires x != ""
    ensures var es := [Register(p + x, k, code, 0, 0)];
            Latest(es, p, x + k) == None && Verified(After(es), x + k, code, p, 0)
  {
    var es := [Register(p + x, k, code, 0, 0)];
    assert es[..0] == [];
    assert p + (x + k) == (p + x) + k;
    assert |p + x| != |p|;
    assert Latest(es[..0], p, x + k) == None;
    assert After(es) == map[(p + x) + k := Entry(code, 0)];
  }

  /** The slot holds the latest code, or that code has expired, or there is none. */
  ghost predicate SlotOk(codes: Codes, slot: string, latest: Option<Entry>, now: int) {
    match latest
    case None => slot !in codes
    case Some(entry) => if slot in codes then codes[slot] == entry else Expired(entry.at, now)
  }

  lemma {:induction false} SlotHoldsLatest(es: seq<Event>, p: string, k: string, now: int)
    requires History(es, p) && (es != [] ==> End(es[|es| - 1]) <= now)
    ensures SlotOk(After(es), p + k, Latest(es, p, k), now)
  {
    if es != [] {
      var front, e := es[..|es| - 1], es[|es| - 1];
      SlotHoldsLatest(front, p, k, e.at);
      SlotUnique(p, k, e.purpose, e.key);
      ApplySlot(After(front), e, p + k, Latest(front, p, k), now);
    }
  }

  /** One event moves every slot on correctly. */
  lemma ApplySlot(codes: Codes, e: Event, slot: string, latest: Option<Entry>, now: int)
    requires SlotOk(codes, slot, latest, e.at) && e.at <= End(e) <= now
    ensures SlotOk(Apply(codes, e), slot,
                   if e.purpose + e.key == slot then (if e.Register? then Some(Entry(e.code, e.at)) else None)
                       else latest, now)
  {
    if latest.Some? {
      ExpiredAfterTenMinutes(latest.value.at, e.at);
      ExpiredAfterTenMinutes(latest.value.at, End(e));
      ExpiredAfterTenMinutes(latest.value.at, now);
    }
    ExpiredAfterTenMinutes(e.at, End(e));
    ExpiredAfterTenMinutes(e.at, now);
  }

  /** A code verifies if and only if the latest event for its purpose and key registered that very
      code less than ten minutes ago; when and what the sweeps removed makes no difference. */
  lemma VerifiedIffLatest(es: seq<Event>, p: string, k: string, code: string, now: int)
    requires History(es, p) && (es != [] ==> End(es[|es| - 1]) <= now)
    ensures Verified(After(es), k, code, p, now)
            <==> exists at :: Latest(es, p, k) == Some(Entry(code, at)) && now - at < 600_000_000_000
  {
    SlotHoldsLatest(es, p, k, now);
    var latest := Latest(es, p, k);
    if latest.Some? {
      ExpiredAfterTenMinutes(latest.value.at, now);
      assert latest == Some(Entry(latest.value.code, latest.value.at));
    }
  }
}
