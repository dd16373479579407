/**
 Reading the request body more than once: the body is moved into a storage on first use, kept in
 the request context, and rewound whenever it is fetched again.
 */
module RequestBody {
  import opened BodyStorage

  const DEFAULT_MAX_MB := 128
  const MEGABYTE := 0x10_0000

  /** A storage kept in the context. */
  datatype Kept = Kept(body: Body, disk: bool)

  /** The raw request body, read up to `pos`.  Closing the server's own body makes it unreadable;
      closing the body installed by a reset (`nop`) does nothing. */
  datatype Raw = Raw(input: Input, pos: nat, nop: bool) {
    predicate Valid() {
      pos <= |input.bytes|
    }

    function Rest(): Input
      requires Valid()
    {
      Input(input.bytes[pos..], input.fails)
    }

    /** After reading up to `n` more bytes and closing. */
    function Read(n: nat): Option<Raw>
      requires Valid()
    {
      if nop then Some(this.(pos := Min(pos + n, |input.bytes|))) else None
    }
  }

  /** The context keys that matter, the raw request body if it can still be read, the number of
      storages created for this request and those let go again. */
  datatype Ctx = Ctx(storage: Option<Kept>, cached: Option<seq<Byte>>, raw: Option<Raw>, created: nat,
      released: seq<Kept>)

  datatype Fetched = Got(kept: Kept) | BodyTooLarge | FetchFailed

  /** What the environment decides about one fetch: where the storage goes, whether creating it fails,
      and how much had been read by then. */
  datatype Luck = Luck(disk: bool, fails: bool, read: nat)

  function Limit(maxMB: int): (r: int)
    ensures r == if maxMB <= 0 then 134217728 else maxMB * 1048576
    ensures r > 0
  {
    (if maxMB <= 0 then DEFAULT_MAX_MB else maxMB) * MEGABYTE
  }

  predicate Readable(c: Ctx) {
    c.raw.Some? ==> c.raw.value.Valid()
  }

  /** A new storage at byte 0. */
  function Installed(c: Ctx, bytes: seq<Byte>, disk: bool): (Ctx, Fetched) {
    var kept := Kept(Body(bytes, 0, false), disk);
    (c.(storage := Some(kept), created := c.created + 1), Got(kept))
  }

  /** `GetRequestBody`. */
  function Fetch(c: Ctx, maxMB: int, luck: Luck): (Ctx, Fetched)
    requires Readable(c)
  {
    if c.storage.Some? then
      var kept := c.storage.value;
      if kept.body.closed then (c, FetchFailed)
      else
        var rewound := kept.(body := Next(kept.body, SeekCall(0, Start)));
        (c.(storage := Some(rewound)), Got(rewound))
    else if c.cached.Some? then Installed(c, c.cached.value, luck.disk)
    else if c.raw.None? then (c, FetchFailed)
    else
      var raw := c.raw.value;
      if luck.fails then (c.(raw := raw.Read(luck.read)), FetchFailed)
      else
        var c' := c.(raw := raw.Read(Limit(maxMB) + 1));
        match Receive(raw.Rest(), Limit(maxMB))
        case TooLarge => (c', BodyTooLarge)
        case ReadFailed => (c', FetchFailed)
        case Data(bytes) => Installed(c', bytes, luck.disk)
  }

  /** `CleanupBodyStorage`: the storage is closed and forgotten. */
  function Cleaned(c: Ctx): Ctx {
    if c.storage.None? then c
    else c.(storage := None, released := c.released + [c.storage.value.(body := Next(c.storage.value.body, CloseCall))])
  }

  /** `resetAsyncImageRequestBody`. */
  function ResetTo(c: Ctx, body: seq<Byte>): Ctx {
    Cleaned(c).(cached := None, raw := Some(Raw(Input(body, false), 0, true)))
  }

  /** `UnmarshalBodyReusable`: decode from the storage (a JSON body on disk is streamed, reading
      `consumed` bytes or fewer) and rewind; a decoding error returns before the last rewind.  After a
      success the raw body is the storage itself, readable no longer than the storage is. */
  function Unmarshaled(c: Ctx, maxMB: int, luck: Luck, json: bool, consumed: nat, decodes: bool): (Ctx, bool)
    requires Readable(c)
  {
    var (c', fetched) := Fetch(c, maxMB, luck);
    if !fetched.Got? then (c', false)
    else
      var kept := fetched.kept;
      var read := if kept.disk && json then Next(Next(kept.body, SeekCall(0, Start)), ReadCall(consumed))
          else Next(kept.body, BytesCall);
      if !decodes then (c'.(storage := Some(kept.(body := read))), false)
      else (c'.(storage := Some(kept.(body := Next(read, SeekCall(0, Start)))), raw := None), true)
  }

  /** The request context as those routines update it in place. */
  class Context {
    var storage: Option<Kept>
    var cached: Option<seq<Byte>>
    var raw: Option<Raw>
    var created: nat
    var released: seq<Kept>

    function View(): Ctx
      reads this
    {
      Ctx(storage, cached, raw, created, released)
    }

    method Open(bytes: seq<Byte>, disk: bool) returns (fetched: Fetched)
      modifies this
      ensures (View(), fetched) == Installed(old(View()), bytes, disk)
    {
      var kept := Kept(Body(bytes, 0, false), disk);
      created := created + 1;
      storage := Some(kept);
      return Got(kept);
    }

    method GetRequestBody(maxMB: int, luck: Luck) returns (fetched: Fetched)
      requires Readable(View())
      modifies this
      ensures (View(), fetched) == Fetch(old(View()), maxMB, luck)
    {
      if storage.Some? {
        var kept := storage.value;
        if SeekOutcome(kept.body, 0, Start) != Ok {
          return FetchFailed;
        }
        kept := kept.(body := AfterSeek(kept.body, 0, Start));
        storage := Some(kept);
        return Got(kept);
      }
      if cached.Some? {
        fetched := Open(cached.value, luck.disk);
        return;
      }
      var max := maxMB;
      if max <= 0 {
        max := DEFAULT_MAX_MB;
      }
      if raw.None? {
        return FetchFailed;
      }
      var input := raw.value;
      if luck.fails {
        raw := input.Read(luck.read);
        return FetchFailed;
      }
      raw := input.Read(max * MEGABYTE + 1);
      match Receive(input.Rest(), max * MEGABYTE) {
        case TooLarge => return BodyTooLarge;
        case ReadFailed => return FetchFailed;
        case Data(bytes) => fetched := Open(bytes, luck.disk);
      }
    }

    method CleanupBodyStorage()
      modifies this
      ensures View() == Cleaned(old(View()))
    {
      if storage.Some? {
        var closed := storage.value.(body := Next(storage.value.body, CloseCall));
        released := released + [closed];
        storage := None;
      }
    }

    method ResetRequestBody(body: seq<Byte>)
      modifies this
      ensures View() == ResetTo(old(View()), body)
    {
      CleanupBodyStorage();
      cached := None;
      raw := Some(Raw(Input(body, false), 0, true));
    }

    method UnmarshalBodyReusable(maxMB: int, luck: Luck, json: bool, consumed: nat, decodes: bool) returns (ok: bool)
      requires Readable(View())
      modifies this
      ensures (View(), ok) == Unmarshaled(old(View()), maxMB, luck, json, consumed, decodes)
    {
      var fetched := GetRequestBody(maxMB, luck);
      if !fetched.Got? {
        return false;
      }
      var kept := fetched.kept;
      if kept.disk && json {
        kept := kept.(body := AfterSeek(kept.body, 0, Start));
        kept := kept.(body := AfterRead(kept.body, consumed));
        storage := Some(kept);
        if !decodes {
          return false;
        }
        storage := Some(kept.(body := AfterSeek(kept.body, 0, Start)));
        raw := None;
        return true;
      }
      if !decodes {
        return false;
      }
      storage := Some(kept.(body := AfterSeek(kept.body, 0, Start)));
      raw := None;
      return true;
    }
  }

  // ---------------------------------------------------------------- whole requests

  datatype Event =
    | FetchEvent(maxMB: int, luck: Luck)
    | UnmarshalEvent(maxMB: int, luck: Luck, json: bool, consumed: nat, decodes: bool)
    | UseEvent(call: Call)      // a consumer reads or seeks the storage it was given
    | ResetEvent(body: seq<Byte>)
    | CleanupEvent

  function After(c: Ctx, e: Event): (c': Ctx)
    requires Readable(c)
    ensures Readable(c')
  {
    match e
    case FetchEvent(maxMB, luck) => Fetch(c, maxMB, luck).0
    case UnmarshalEvent(maxMB, luck, json, consumed, decodes) => Unmarshaled(c, maxMB, luck, json, consumed, decodes).0
    case UseEvent(call) =>
      if c.storage.Some? then c.(storage := Some(c.storage.value.(body := Next(c.storage.value.body, call)))) else c
    case ResetEvent(body) => ResetTo(c, body)
    case CleanupEvent => Cleaned(c)
  }

  function Final(c: Ctx, es: seq<Event>): (c': Ctx)
    requires Readable(c)
    ensures Readable(c')
  {
    if es == [] then c else After(Final(c, es[..|es| - 1]), es[|es| - 1])
  }

  /** A request as the server hands it over. */
  function Arrived(original: Input): (c: Ctx)
    ensures Readable(c)
  {
    Ctx(None, None, Some(Raw(original, 0, false)), 0, [])
  }

  /** The body the request carries: the original one, or that of the latest reset. */
  function Carried(original: seq<Byte>, es: seq<Event>): seq<Byte> {
    if es == [] then original
    else if es[|es| - 1].ResetEvent? then es[|es| - 1].body
    else Carried(original, es[..|es| - 1])
  }

  /** Wherever the context keeps bytes, they are the carried body in full. */
  ghost predicate Faithful(c: Ctx, body: seq<Byte>) {
    && (c.storage.Some? ==> c.storage.value.body.data == body)
    && (c.cached.Some? ==> c.cached.value == body)
    && (c.raw.Some? ==> c.raw.value.input.bytes == body && (!c.raw.value.nop ==> c.raw.value.pos == 0))
  }

  /** The next fetch would read on in a raw body that has been read from before. */
  predicate Tapped(c: Ctx) {
    c.storage.None? && c.cached.None? && c.raw.Some? && c.raw.value.pos > 0
  }

  lemma FetchFaithful(c: Ctx, body: seq<Byte>, maxMB: int, luck: Luck)
    requires Readable(c) && Faithful(c, body)
    ensures var (c', fetched) := Fetch(c, maxMB, luck);
            && Readable(c')
            && (fetched.Got? ==> (fetched.kept.body == Body(body, 0, false) <==> !Tapped(c)))
            && (!fetched.Got? || !Tapped(c) ==> Faithful(c', body))
  {
    if c.raw.Some? {
      var raw := c.raw.value;
      ReceivesUpToLimit(raw.Rest(), Limit(maxMB));
      assert raw.pos == 0 ==> raw.input.bytes[raw.pos..] == raw.input.bytes;
      assert raw.pos > 0 ==> |raw.input.bytes[raw.pos..]| < |raw.input.bytes|;
    }
  }

  /** Exactly when a fetch is given a body: from the open storage, from cached bytes, or from a raw body that is
      readable and within the limit. */
  lemma FetchGrantsIff(c: Ctx, maxMB: int, luck: Luck)
    requires Readable(c)
    ensures var (c', fetched) := Fetch(c, maxMB, luck);
            var left := if c.raw.Some? then |c.raw.value.input.bytes| - c.raw.value.pos else 0;
            && (fetched.Got? ==> c'.storage == Some(fetched.kept) && fetched.kept.body.pos == 0)
            && (fetched.Got? <==>
                  || (c.storage.Some? && !c.storage.value.body.closed)
                  || (c.storage.None? && c.cached.Some?)
                  || (c.storage.None? && c.cached.None? && c.raw.Some? && !luck.fails && !c.raw.value.input.fails
                      && left <= Limit(maxMB)))
            && (fetched.BodyTooLarge? <==>
                  c.storage.None? && c.cached.None? && c.raw.Some? && !luck.fails && left > Limit(maxMB))
  {
    if c.raw.Some? {
      ReceivesUpToLimit(c.raw.value.Rest(), Limit(maxMB));
    }
  }

  /** Decoding succeeds exactly if the body was had and is well-formed, and then leaves it rewound. */
  lemma DecodeRewinds(c: Ctx, maxMB: int, luck: Luck, json: bool, consumed: nat, decodes: bool)
    requires Readable(c)
    ensures var (c', ok) := Unmarshaled(c, maxMB, luck, json, consumed, decodes);
            var fetched := Fetch(c, maxMB, luck).1;
            && (ok <==> fetched.Got? && decodes)
            && (fetched.Got? ==> c'.storage.Some? && c'.storage.value.body.data == fetched.kept.body.data)
            && (ok ==> c'.storage.value.body.pos == 0 && !c'.storage.value.body.closed && c'.raw.None?)
  {
    FetchGrantsIff(c, maxMB, luck);
  }

  predicate Fetches(e: Event) {
    e.FetchEvent? || e.UnmarshalEvent?
  }

  /** Event `i` fetches the body, and is given one. */
  predicate Served(c: Ctx, es: seq<Event>, i: nat)
    requires Readable(c) && i < |es|
  {
    Fetches(es[i]) && Fetch(Final(c, es[..i]), es[i].maxMB, es[i].luck).1.Got?
  }

  function ServedBody(c: Ctx, es: seq<Event>, i: nat): Body
    requires Readable(c) && i < |es| && Served(c, es, i)
  {
    Fetch(Final(c, es[..i]), es[i].maxMB, es[i].luck).1.kept.body
  }

  /** If event `i` is given a body, it is the identical full body the request carried then, at byte 0. */
  ghost predicate FullAt(original: Input, es: seq<Event>, i: nat)
    requires i < |es|
  {
    Served(Arrived(original), es, i) ==>
          ServedBody(Arrived(original), es, i) == Body(Carried(original.bytes, es[..i]), 0, false)
  }

  /** If event `i` is given a body, it is not read on from a tapped raw body. */
  ghost predicate UntappedAt(original: Input, es: seq<Event>, i: nat)
    requires i < |es|
  {
    Served(Arrived(original), es, i) ==> !Tapped(Final(Arrived(original), es[..i]))
  }

  ghost predicate AlwaysFull(original: Input, es: seq<Event>) {
    forall i :: 0 <= i < |es| ==> FullAt(original, es, i)
  }

  ghost predicate NeverTapped(original: Input, es: seq<Event>) {
    forall i :: 0 <= i < |es| ==> UntappedAt(original, es, i)
  }

  lemma AfterFaithful(c: Ctx, body: seq<Byte>, e: Event)
    requires Readable(c) && Faithful(c, body)
    requires Fetches(e) && Fetch(c, e.maxMB, e.luck).1.Got? ==> !Tapped(c)
    ensures Faithful(After(c, e), if e.ResetEvent? then e.body else body)
  {
    if Fetches(e) {
      FetchFaithful(c, body, e.maxMB, e.luck);
    }
  }

  lemma SameAt(original: Input, es: seq<Event>, i: nat)
    requires i < |es| - 1
    ensures var front := es[..|es| - 1];
            FullAt(original, front, i) == FullAt(original, es, i)
                && UntappedAt(original, front, i) == UntappedAt(original, es, i)
  {
    var front := es[..|es| - 1];
    assert front[..i] == es[..i] && front[i] == es[i];
  }

  /** What is said of every event is said of the earlier ones and of the last. */
  lemma LastApart(original: Input, es: seq<Event>)
    requires es != []
    ensures var front, last := es[..|es| - 1], |es| - 1;
            && (AlwaysFull(original, es) <==> AlwaysFull(original, front) && FullAt(original, es, last))
            && (NeverTapped(original, es) <==> NeverTapped(original, front) && UntappedAt(original, es, last))
  {
    var front, last := es[..|es| - 1], |es| - 1;
    hide FullAt, UntappedAt;
    forall i | 0 <= i < last ensures FullAt(original, front, i) == FullAt(original, es, i) {
      SameAt(original, es, i);
    }
    forall i | 0 <= i < last ensures UntappedAt(original, front, i) == UntappedAt(original, es, i) {
      SameAt(original, es, i);
    }
    assert AlwaysFull(original, es) ==> AlwaysFull(original, front);
    assert NeverTapped(original, es) ==> NeverTapped(original, front);
    assert AlwaysFull(original, front) && FullAt(original, es, last) ==> AlwaysFull(original, es);
    assert NeverTapped(original, front) && UntappedAt(original, es, last) ==> NeverTapped(original, es);
  }

  lemma {:induction false} FinalFaithful(original: Input, es: seq<Event>)
    requires NeverTapped(original, es)
    ensures Faithful(Final(Arrived(original), es), Carried(original.bytes, es))
  {
    if es != [] {
      var front, last := es[..|es| - 1], |es| - 1;
      LastApart(original, es);
      FinalFaithful(original, front);
      var c := Final(Arrived(original), front);
      assert Fetches(es[last]) && Fetch(c, es[last].maxMB, es[last].luck).1.Got? ==>
            Served(Arrived(original), es, last);
      AfterFaithful(c, Carried(original.bytes, front), es[last]);
    }
  }

  /** However far earlier consumers read or seeked, on disk or in memory, through failed decodings, clean-ups
      and resets: every body handed out is the identical full body at byte 0, if and only if none was read
      on from a body that an earlier fetch had already read from. */
  lemma {:induction false} EveryFetchStartsOverIff(original: Input, es: seq<Event>)
    ensures AlwaysFull(original, es) <==> NeverTapped(original, es)
  {
    if es != [] {
      var front, last := es[..|es| - 1], |es| - 1;
      EveryFetchStartsOverIff(original, front);
      LastApart(original, es);
      if NeverTapped(original, front) {
        FinalFaithful(original, front);
        LastServed(original, es);
      }
    }
  }

  lemma LastServed(original: Input, es: seq<Event>)
    requires es != []
    requires var front := es[..|es| - 1]; Faithful(Final(Arrived(original), front), Carried(original.bytes, front))
    ensures FullAt(original, es, |es| - 1) <==> UntappedAt(original, es, |es| - 1)
  {
    var front, e := es[..|es| - 1], es[|es| - 1];
    if Fetches(e) {
      FetchFaithful(Final(Arrived(original), front), Carried(original.bytes, front), e.maxMB, e.luck);
    }
  }

  /** A request that is never reset never taps its body: closing the server's own body ends it. */
  lemma {:induction false} UnresetNeverTaps(original: Input, es: seq<Event>)
    requires forall i :: 0 <= i < |es| ==> !es[i].ResetEvent?
    ensures NeverTapped(original, es) && Carried(original.bytes, es) == original.bytes
  {
    if es != [] {
      var front, last := es[..|es| - 1], |es| - 1;
      UnresetNeverTaps(original, front);
      NoNop(original, front);
      LastApart(original, es);
    }
  }

  lemma {:induction false} NoNop(original: Input, es: seq<Event>)
    requires forall i :: 0 <= i < |es| ==> !es[i].ResetEvent?
    ensures var c := Final(Arrived(original), es);
            (c.raw.Some? ==> !c.raw.value.nop && c.raw.value.pos == 0) && !Tapped(c)
  {
    if es != [] {
      NoNop(original, es[..|es| - 1]);
    }
  }

  /** So without resets every body handed out is the request's own, in full and from byte 0. */
  lemma EveryFetchStartsOver(original: Input, es: seq<Event>, i: nat)
    requires (forall j :: 0 <= j < |es| ==> !es[j].ResetEvent?) && i < |es| && Served(Arrived(original), es, i)
    ensures ServedBody(Arrived(original), es, i) == Body(original.bytes, 0, false)
  {
    UnresetNeverTaps(original, es);
    EveryFetchStartsOverIff(original, es);
    UnresetNeverTaps(original, es[..i]);
    assert FullAt(original, es, i);
  }

  /** Trouble: a clean-up, or a fetch that is given nothing. */
  predicate Trouble(c: Ctx, e: Event)
    requires Readable(c)
  {
    e.CleanupEvent? || (Fetches(e) && !Fetch(c, e.maxMB, e.luck).1.Got?)
  }

  /** With resets too, as long as nothing is cleaned up but by a reset and no fetch fails: that is how the
      retries of the asynchronous job run. */
  lemma {:induction false} UntroubledNeverTaps(original: Input, es: seq<Event>)
    requires forall i :: 0 <= i < |es| ==> !Trouble(Final(Arrived(original), es[..i]), es[i])
    ensures NeverTapped(original, es) && !Tapped(Final(Arrived(original), es))
  {
    if es != [] {
      var front, last := es[..|es| - 1], |es| - 1;
      assert forall i :: 0 <= i < last ==> front[..i] == es[..i] && front[i] == es[i];
      UntroubledNeverTaps(original, front);
      UntroubledStep(Final(Arrived(original), front), es[last]);
      assert Final(Arrived(original), es) == After(Final(Arrived(original), front), es[last]);
      LastApart(original, es);
    }
  }

  lemma UntroubledStep(c: Ctx, e: Event)
    requires Readable(c) && !Tapped(c) && !Trouble(c, e)
    ensures !Tapped(After(c, e))
  {
  }

  /** What a failed fetch leaves behind after a reset: the next fetch is given the unread rest of a body that
      was too large, as if it were the body. */
  lemma LeftoverServed(c: Ctx, body: seq<Byte>, maxMB: int, luck: Luck)
    requires Readable(c) && !luck.fails && Limit(maxMB) < |body| <= 2 * Limit(maxMB) + 1
    ensures var c1 := ResetTo(c, body);
            var (c2, first) := Fetch(c1, maxMB, luck);
            Readable(c2) && first == BodyTooLarge
            && Fetch(c2, maxMB, luck).1 == Got(Kept(Body(body[Limit(maxMB) + 1..], 0, false), luck.disk))
  {
    var c1, limit := ResetTo(c, body), Limit(maxMB);
    assert body[0..] == body;
    ReceivesUpToLimit(Input(body, false), limit);
    ReceivesUpToLimit(Input(body[limit + 1..], false), limit);
    assert c1.raw.value.Rest() == Input(body, false);
    var c2 := Fetch(c1, maxMB, luck).0;
    assert c2.raw == Some(Raw(Input(body, false), limit + 1, true));
  }

  /** A kept storage that nobody closed is always handed out again. */
  ghost predicate Alive(c: Ctx) {
    c.storage.Some? && !c.storage.value.body.closed
  }

  lemma AliveServes(c: Ctx, e: Event, maxMB: int, luck: Luck)
    requires Readable(c) && Alive(c) && !e.ResetEvent? && !e.CleanupEvent? && e != UseEvent(CloseCall)
    ensures Alive(After(c, e)) && After(c, e).storage.value.body.data == c.storage.value.body.data
    ensures Fetch(c, maxMB, luck).1.Got? && Fetch(c, maxMB, luck).1.kept.body
            == Body(c.storage.value.body.data, 0, false)
  {
  }

  lemma {:induction false} StaysAlive(c: Ctx, es: seq<Event>)
    requires Readable(c) && Alive(c)
    requires forall i :: 0 <= i < |es| ==> !es[i].ResetEvent? && !es[i].CleanupEvent? && es[i] != UseEvent(CloseCall)
    ensures Alive(Final(c, es)) && Final(c, es).storage.value.body.data == c.storage.value.body.data
  {
    if es != [] {
      var front := es[..|es| - 1];
      StaysAlive(c, front);
      AliveServes(Final(c, front), es[|es| - 1], 0, Luck(false, false, 0));
    }
  }

  /** Once the body has been stored, every later attempt of the request gets it in full. */
  lemma EveryAttemptGetsTheBody(original: Input, maxMB: int, luck: Luck, es: seq<Event>, maxMB': int, luck': Luck)
    requires |original.bytes| <= Limit(maxMB) && !original.fails && !luck.fails
    requires forall i :: 0 <= i < |es| ==> !es[i].ResetEvent? && !es[i].CleanupEvent? && es[i] != UseEvent(CloseCall)
    ensures var c1 := Fetch(Arrived(original), maxMB, luck).0;
            Readable(c1) && Fetch(Final(c1, es), maxMB', luck').1.Got?
            && Fetch(Final(c1, es), maxMB', luck').1.kept.body == Body(original.bytes, 0, false)
  {
    var c0 := Arrived(original);
    FetchFaithful(c0, original.bytes, maxMB, luck);
    assert original.bytes[0..] == original.bytes;
    ReceivesUpToLimit(original, Limit(maxMB));
    var c1 := Fetch(c0, maxMB, luck).0;
    StaysAlive(c1, es);
    AliveServes(Final(c1, es), FetchEvent(maxMB', luck'), maxMB', luck');
  }

  /** After the reset between asynchronous attempts the next fetch yields the job's own body, if it
      is within the limit and storing it succeeds. */
  lemma ResetServesJobBody(c: Ctx, body: seq<Byte>, maxMB: int, luck: Luck)
    requires Readable(c) && |body| <= Limit(maxMB) && !luck.fails
    ensures Fetch(After(c, ResetEvent(body)), maxMB, luck).1 == Got(Kept(Body(body, 0, false), luck.disk))
  {
    assert body[0..] == body;
    ReceivesUpToLimit(Input(body, false), Limit(maxMB));
  }

  // ---------------------------------------------------------------- nothing is left open

  ghost predicate Accounted(c: Ctx) {
    && c.created == |c.released| + (if c.storage.Some? then 1 else 0)
    && forall i :: 0 <= i < |c.released| ==> c.released[i].body.closed
  }

  lemma AccountedStep(c: Ctx, e: Event)
    requires Readable(c) && Accounted(c)
    ensures Accounted(After(c, e))
  {
    var c' := After(c, e);
    assert forall i :: 0 <= i < |c.released| ==> c'.released[i] == c.released[i];
  }

  /** Over every history each storage created is the one kept or has been closed, however often the context
      was reset or cleaned up: after a final clean-up none is open. */
  lemma {:induction false} NothingLeftOpen(original: Input, es: seq<Event>)
    ensures var c := Final(Arrived(original), es);
            && c.created == |c.released| + (if c.storage.Some? then 1 else 0)
            && (forall i :: 0 <= i < |c.released| ==> c.released[i].body.closed)
            && Cleaned(c).storage.None? && |Cleaned(c).released| == c.created
  {
    AccountedRun(original, es);
  }

  lemma {:induction false} AccountedRun(original: Input, es: seq<Event>)
    ensures Accounted(Final(Arrived(original), es))
  {
    if es != [] {
      AccountedRun(original, es[..|es| - 1]);
      AccountedStep(Final(Arrived(original), es[..|es| - 1]), es[|es| - 1]);
    }
  }
}
