/**
 Storage of request bodies, in memory or in a temporary file, behind one interface, with global
 usage counters.
 */
module BodyStorage {

  type Byte = b: int | 0 <= b < 256

  datatype Option<T> = None | Some(value: T)

  datatype Whence = Start | Current | End

  datatype Outcome = Ok | Eof | Refused | ErrClosed

  /** What a caller can observe of an open or closed storage. */
  datatype Body = Body(data: seq<Byte>, pos: nat, closed: bool)

  function Min(a: int, b: int): int {
    if a < b then a else b
  }

  /** The bytes a read of at most `k` bytes returns. */
  function Chunk(b: Body, k: nat): seq<Byte> {
    if b.pos >= |b.data| then [] else b.data[b.pos..Min(b.pos + k, |b.data|)]
  }

  /** Where a seek would go. */
  function Target(b: Body, offset: int, whence: Whence): int {
    match whence
    case Start => offset
    case Current => b.pos + offset
    case End => |b.data| + offset
  }

  function AfterSeek(b: Body, offset: int, whence: Whence): Body {
    if b.closed || Target(b, offset, whence) < 0 then b else b.(pos := Target(b, offset, whence))
  }

  function SeekOutcome(b: Body, offset: int, whence: Whence): Outcome {
    if b.closed then ErrClosed else if Target(b, offset, whence) < 0 then Refused else Ok
  }

  function AfterRead(b: Body, k: nat): Body {
    if b.closed then b else b.(pos := b.pos + |Chunk(b, k)|)
  }

  function BytesOutcome(b: Body): Option<seq<Byte>> {
    if b.closed then None else Some(b.data)
  }

  // ---------------------------------------------------------------- usage counters

  datatype Stats = Stats(diskFiles: int, diskBytes: int, memoryBuffers: int, memoryBytes: int)

  function AddDisk(s: Stats, size: int): Stats {
    s.(diskFiles := s.diskFiles + 1, diskBytes := s.diskBytes + size)
  }

  /** `DecrementDiskFiles` clamps at zero. */
  function DropDisk(s: Stats, size: int): Stats {
    s.(diskFiles := if s.diskFiles - 1 < 0 then 0 else s.diskFiles - 1,
       diskBytes := if s.diskBytes - size < 0 then 0 else s.diskBytes - size)
  }

  function AddMemory(s: Stats, size: int): Stats {
    s.(memoryBuffers := s.memoryBuffers + 1, memoryBytes := s.memoryBytes + size)
  }

  function DropMemory(s: Stats, size: int): Stats {
    s.(memoryBuffers := s.memoryBuffers - 1, memoryBytes := s.memoryBytes - size)
  }

  /** The global `diskCacheStats`. */
  class Counters {
    var stats: Stats

    constructor ()
      ensures stats == Stats(0, 0, 0, 0)
    {
      stats := Stats(0, 0, 0, 0);
    }
  }

  // ---------------------------------------------------------------- the two implementations

  /** `memoryStorage`: a slice with a `bytes.Reader`, which reports end of file even for an empty read. */
  class MemoryStorage {
    const data: seq<Byte>
    const size: nat
    var pos: nat
    var closed: bool

    ghost predicate Valid() {
      size == |data|
    }

    function View(): Body
      reads this
    {
      Body(data, pos, closed)
    }

    constructor (data: seq<Byte>, counters: Counters)
      modifies counters
      ensures Valid() && View() == Body(data, 0, false)
      ensures counters.stats == AddMemory(old(counters.stats), |data|)
    {
      this.data, size, pos, closed := data, |data|, 0, false;
      new;
      counters.stats := AddMemory(counters.stats, |data|);
    }

    method Read(k: nat) returns (bytes: seq<Byte>, outcome: Outcome)
      modifies this
      ensures View() == Next(old(View()), ReadCall(k))
              && ReadAnswer(bytes, outcome) == Answered(false, old(View()), ReadCall(k))
      ensures old(closed) ==> bytes == [] && outcome == ErrClosed && View() == old(View())
      ensures !old(closed) ==>
                && |bytes| == Min(k, if old(pos) < |data| then |data| - old(pos) else 0)
                && (forall i :: 0 <= i < |bytes| ==> bytes[i] == data[old(pos) + i])
                && View() == Body(data, old(pos) + |bytes|, false)
                && outcome == if old(pos) >= |data| then Eof else Ok
    {
      if closed {
        return [], ErrClosed;
      }
      if pos >= |data| {
        return [], Eof;
      }
      var n := Min(k, |data| - pos);
      bytes := data[pos..pos + n];
      pos := pos + n;
      return bytes, Ok;
    }

    method Seek(offset: int, whence: Whence) returns (outcome: Outcome)
      modifies this
      ensures View() == Next(old(View()), SeekCall(offset, whence))
      ensures SeekAnswer(outcome) == Answered(false, old(View()), SeekCall(offset, whence))
      ensures outcome == ErrClosed <==> old(closed)
      ensures outcome == Ok ==> !closed && pos == offset + match whence
                                  case Start => 0 case Current => old(pos) case End => |data|
      ensures outcome == Refused ==> offset + (match whence
                                       case Start => 0 case Current => old(pos) case End => |data|) < 0
      ensures outcome == Ok || outcome == Refused || outcome == ErrClosed
      ensures outcome != Ok ==> View() == old(View())
    {
      if closed {
        return ErrClosed;
      }
      var abs := match whence case Start => offset case Current => pos + offset case End => |data| + offset;
      if abs < 0 {
        return Refused;
      }
      pos := abs;
      return Ok;
    }

    method Bytes() returns (r: Option<seq<Byte>>)
      ensures BytesAnswer(r) == Answered(false, View(), BytesCall)
      ensures r == if closed then None else Some(data)
    {
      if closed {
        return None;
      }
      return Some(data);
    }

    method Close(counters: Counters)
      requires Valid()
      modifies this, counters
      ensures View() == old(View()).(closed := true)
      ensures counters.stats == if old(closed) then old(counters.stats) else DropMemory(old(counters.stats), |data|)
    {
      if !closed {
        closed := true;
        counters.stats := DropMemory(counters.stats, size);
      }
    }
  }

  /** `diskStorage`: a temporary file, which answers an empty read with success anywhere. */
  class DiskStorage {
    const content: seq<Byte>  // of the file; nobody else writes it
    const size: nat
    var pos: nat              // of the file handle
    var closed: bool

    ghost predicate Valid() {
      size == |content|
    }

    function View(): Body
      reads this
    {
      Body(content, pos, closed)
    }

    constructor (data: seq<Byte>, counters: Counters)
      modifies counters
      ensures Valid() && View() == Body(data, 0, false)
      ensures counters.stats == AddDisk(old(counters.stats), |data|)
    {
      content, size, pos, closed := data, |data|, |data|, false;
      new;
      pos := 0;
      counters.stats := AddDisk(counters.stats, |data|);
    }

    method FileRead(k: nat) returns (bytes: seq<Byte>, outcome: Outcome)
      modifies this`pos
      ensures bytes == Chunk(old(View()), k) && pos == old(pos) + |bytes|
      ensures |bytes| == Min(k, if old(pos) < |content| then |content| - old(pos) else 0)
      ensures forall i :: 0 <= i < |bytes| ==> bytes[i] == content[old(pos) + i]
      ensures outcome == Eof <==> k > 0 && old(pos) >= |content|
      ensures outcome == Eof || outcome == Ok
    {
      if k == 0 {
        return [], Ok;
      }
      if pos >= |content| {
        return [], Eof;
      }
      var n := Min(k, |content| - pos);
      bytes := content[pos..pos + n];
      pos := pos + n;
      return bytes, Ok;
    }

    method Read(k: nat) returns (bytes: seq<Byte>, outcome: Outcome)
      modifies this
      ensures View() == Next(old(View()), ReadCall(k))
              && ReadAnswer(bytes, outcome) == Answered(true, old(View()), ReadCall(k))
      ensures old(closed) ==> bytes == [] && outcome == ErrClosed && View() == old(View())
      ensures !old(closed) ==>
                && |bytes| == Min(k, if old(pos) < |content| then |content| - old(pos) else 0)
                && (forall i :: 0 <= i < |bytes| ==> bytes[i] == content[old(pos) + i])
                && View() == Body(content, old(pos) + |bytes|, false)
                && outcome == if k > 0 && old(pos) >= |content| then Eof else Ok
    {
      if closed {
        return [], ErrClosed;
      }
      bytes, outcome := FileRead(k);
    }

    method Seek(offset: int, whence: Whence) returns (outcome: Outcome)
      modifies this
      ensures View() == Next(old(View()), SeekCall(offset, whence))
      ensures SeekAnswer(outcome) == Answered(true, old(View()), SeekCall(offset, whence))
      ensures outcome == ErrClosed <==> old(closed)
      ensures outcome == Ok ==> !closed && pos == offset + match whence
                                  case Start => 0 case Current => old(pos) case End => |content|
      ensures outcome == Refused ==> offset + (match whence
                                       case Start => 0 case Current => old(pos) case End => |content|) < 0
      ensures outcome == Ok || outcome == Refused || outcome == ErrClosed
      ensures outcome != Ok ==> View() == old(View())
    {
      if closed {
        return ErrClosed;
      }
      var abs := match whence case Start => offset case Current => pos + offset case End => |content| + offset;
      if abs < 0 {
        return Refused;
      }
      pos := abs;
      return Ok;
    }

    /** Remembers the position, reads the file from the start, and goes back. */
    method Bytes() returns (r: Option<seq<Byte>>)
      requires Valid()
      modifies this`pos
      ensures View() == Next(old(View()), BytesCall) && BytesAnswer(r) == Answered(true, old(View()), BytesCall)
      ensures r == (if closed then None else Some(content)) && pos == old(pos)
    {
      if closed {
        return None;
      }
      var currentPos := pos;
      pos := 0;
      var data, outcome := FileRead(size);
      assert data == content;
      pos := currentPos;
      return Some(data);
    }

    method Close(counters: Counters)
      requires Valid()
      modifies this, counters
      ensures View() == old(View()).(closed := true)
      ensures counters.stats == if old(closed) then old(counters.stats) else DropDisk(old(counters.stats), |content|)
    {
      if !closed {
        closed := true;
        counters.stats := DropDisk(counters.stats, size);
      }
    }
  }

  // ---------------------------------------------------------------- call sequences

  datatype Call = ReadCall(k: nat) | SeekCall(offset: int, whence: Whence) | BytesCall | CloseCall

  datatype Answer = ReadAnswer(bytes: seq<Byte>,
      outcome: Outcome) | SeekAnswer(sought: Outcome) | BytesAnswer(all: Option<seq<Byte>>) | Done

  function Next(b: Body, c: Call): Body {
    match c
    case ReadCall(k) => AfterRead(b, k)
    case SeekCall(offset, whence) => AfterSeek(b, offset, whence)
    case BytesCall => b
    case CloseCall => b.(closed := true)
  }

  /** The one difference between the two: an empty read at the end of the data. */
  function Answered(disk: bool, b: Body, c: Call): Answer {
    match c
    case ReadCall(k) =>
      if b.closed then ReadAnswer([], ErrClosed)
      else ReadAnswer(Chunk(b, k), if b.pos >= |b.data| && !(disk && k == 0) then Eof else Ok)
    case SeekCall(offset, whence) => SeekAnswer(SeekOutcome(b, offset, whence))
    case BytesCall => BytesAnswer(BytesOutcome(b))
    case CloseCall => Done
  }

  function Answers(disk: bool, b: Body, calls: seq<Call>): seq<Answer>
    decreases |calls|
  {
    if calls == [] then [] else [Answered(disk, b, calls[0])] + Answers(disk, Next(b, calls[0]), calls[1..])
  }

  /** Somewhere in the sequence an open storage positioned at the end of its data gets an empty read. */
  ghost predicate EmptyReadAtEnd(b: Body, calls: seq<Call>)
    decreases |calls|
  {
    calls != [] && ((calls[0] == ReadCall(0) && !b.closed && b.pos >= |b.data|)
        || EmptyReadAtEnd(Next(b, calls[0]), calls[1..]))
  }

  /** Memory and disk give the same answers to a call sequence if and only if it contains no empty
      read at the end of the data. */
  lemma {:induction false} StoragesAgreeIff(b: Body, calls: seq<Call>)
    ensures Answers(false, b, calls) == Answers(true, b, calls) <==> !EmptyReadAtEnd(b, calls)
    decreases |calls|
  {
    if calls != [] {
      var m, d := Answers(false, b, calls), Answers(true, b, calls);
      StoragesAgreeIff(Next(b, calls[0]), calls[1..]);
      assert m[0] == Answered(false, b, calls[0]) && d[0] == Answered(true, b, calls[0]);
      assert m[1..] == Answers(false, Next(b, calls[0]), calls[1..])
          && d[1..] == Answers(true, Next(b, calls[0]), calls[1..]);
      assert m[0] == d[0] <==> !(calls[0] == ReadCall(0) && !b.closed && b.pos >= |b.data|);
      assert m == d <==> m[0] == d[0] && m[1..] == d[1..] by {
        assert m == [m[0]] + m[1..] && d == [d[0]] + d[1..];
      }
    }
  }

  /** Nothing a caller does changes the stored bytes. */
  function Final(b: Body, calls: seq<Call>): Body
    decreases |calls|
  {
    if calls == [] then b else Final(Next(b, calls[0]), calls[1..])
  }

  lemma {:induction false} DataNeverChanges(b: Body, calls: seq<Call>)
    ensures Final(b, calls).data == b.data
    decreases |calls|
  {
    if calls != [] {
      DataNeverChanges(Next(b, calls[0]), calls[1..]);
    }
  }

  /** A read of an open storage hands out the bytes at its position, as many as asked for or as are left, and moves
      the position past them. */
  lemma ReadLaw(disk: bool, b: Body, k: nat)
    requires !b.closed
    ensures var a, left := Answered(disk, b, ReadCall(k)), if b.pos < |b.data| then |b.data| - b.pos else 0;
            && a.ReadAnswer? && |a.bytes| == (if k < left then k else left)
            && (forall i :: 0 <= i < |a.bytes| ==> a.bytes[i] == b.data[b.pos + i])
            && Next(b, ReadCall(k)) == Body(b.data, b.pos + |a.bytes|, false)
            && (a.outcome == Eof || a.outcome == Ok) && (a.outcome == Eof ==> left == 0)
            && (left == 0 && k > 0 ==> a.outcome == Eof)
  {
  }

  /** A seek goes where it says, from the start, from the position or from the end of the data, or nowhere if that
      lies before the start. */
  lemma SeekLaw(disk: bool, b: Body, offset: int)
    requires !b.closed
    ensures forall base, whence | (base, whence) in {(0, Start), (b.pos, Current), (|b.data|, End)} ::
      && Answered(disk, b, SeekCall(offset, whence)) == SeekAnswer(if base + offset < 0 then Refused else Ok)
      && Next(b, SeekCall(offset, whence)) == Body(b.data, if base + offset < 0 then b.pos else base + offset, false)
  {
  }

  function Reads(ks: seq<nat>): (calls: seq<Call>)
    ensures |calls| == |ks|
  {
    if ks == [] then [] else [ReadCall(ks[0])] + Reads(ks[1..])
  }

  /** The bytes handed out by a series of reads, joined. */
  function Joined(answers: seq<Answer>): seq<Byte> {
    if answers == [] then []
    else (if answers[0].ReadAnswer? then answers[0].bytes else []) + Joined(answers[1..])
  }

  ghost predicate ReachedEnd(answers: seq<Answer>) {
    exists i :: 0 <= i < |answers| && answers[i].ReadAnswer? && answers[i].outcome == Eof
  }

  /** However a body is read, in pieces of whatever size, the pieces joined are the data from where the position was
      to where it is now; and all of it once a read has reported its end. */
  lemma {:induction false} ReadsJoin(disk: bool, b: Body, ks: seq<nat>)
    requires !b.closed && b.pos <= |b.data|
    ensures var end, answers := Final(b, Reads(ks)), Answers(disk, b, Reads(ks));
            && end.data == b.data && !end.closed && b.pos <= end.pos <= |b.data|
            && Joined(answers) == b.data[b.pos..end.pos]
            && (ReachedEnd(answers) ==> end.pos == |b.data| && Joined(answers) == b.data[b.pos..])
    decreases |ks|
  {
    if ks != [] {
      var a, b' := Answered(disk, b, ReadCall(ks[0])), Next(b, ReadCall(ks[0]));
      ReadLaw(disk, b, ks[0]);
      OneRead(disk, b, ks);
      hide Answered, Next, Answers, Reads, Final;
      ReadsJoin(disk, b', ks[1..]);
      var rest := Answers(disk, b', Reads(ks[1..]));
      OneAnswer(a, rest);
      hide Joined, ReachedEnd;
      PiecesJoin(b.data, b.pos, b'.pos, Final(b', Reads(ks[1..])).pos, a.bytes);
    }
  }

  lemma PiecesJoin(data: seq<Byte>, i: nat, j: nat, k: nat, bytes: seq<Byte>)
    requires i <= j <= k <= |data| && |bytes| == j - i && forall n :: 0 <= n < |bytes| ==> bytes[n] == data[i + n]
    ensures bytes + data[j..k] == data[i..k] && data[j..|data|] == data[j..] && data[i..|data|] == data[i..]
  {
    assert bytes == data[i..j];
  }

  lemma OneRead(disk: bool, b: Body, ks: seq<nat>)
    requires ks != []
    ensures var a, b' := Answered(disk, b, ReadCall(ks[0])), Next(b, ReadCall(ks[0]));
            && Answers(disk, b, Reads(ks)) == [a] + Answers(disk, b', Reads(ks[1..]))
            && Final(b, Reads(ks)) == Final(b', Reads(ks[1..]))
  {
    hide Answered, Next;
    var calls := Reads(ks);
    assert calls[0] == ReadCall(ks[0]) && calls[1..] == Reads(ks[1..]);
  }

  lemma OneAnswer(a: Answer, rest: seq<Answer>)
    requires a.ReadAnswer?
    ensures Joined([a] + rest) == a.bytes + Joined(rest)
    ensures ReachedEnd([a] + rest) <==> a.outcome == Eof || ReachedEnd(rest)
  {
    var answers := [a] + rest;
    assert answers[1..] == rest;
    assert forall i :: 0 <= i < |rest| ==> answers[i + 1] == rest[i];
    hide Joined;
    if ReachedEnd(answers) {
      var i :| 0 <= i < |answers| && answers[i].ReadAnswer? && answers[i].outcome == Eof;
      assert i > 0 ==> rest[i - 1] == answers[i];
    }
    if a.outcome == Eof {
      assert answers[0] == a;
    }
  }

  // ---------------------------------------------------------------- creation

  datatype Config = Config(enabled: bool, threshold: int, maxBytes: int)

  datatype Storage = InMemory(memory: MemoryStorage) | OnDisk(disk: DiskStorage)

  /** `IsDiskCacheAvailable` and the threshold test. */
  predicate DiskSuits(cfg: Config, stats: Stats, size: int) {
    cfg.enabled && size >= cfg.threshold && stats.diskBytes + size <= cfg.maxBytes
  }

  /** A request body on the wire: its bytes, then end of file or a read error. */
  datatype Input = Input(bytes: seq<Byte>, fails: bool)

  datatype Received = Data(bytes: seq<Byte>) | TooLarge | ReadFailed

  /** Reading through `io.LimitReader(reader, limit + 1)` and checking the length. */
  function Receive(input: Input, limit: int): Received {
    var most := if limit + 1 < 0 then 0 else limit + 1;
    if |input.bytes| >= most then (if most > limit then TooLarge else Data(input.bytes[..most]))
    else if input.fails then ReadFailed
    else Data(input.bytes)
  }

  /** Exactly the bodies up to the limit are received. */
  lemma ReceivesUpToLimit(input: Input, limit: int)
    ensures Receive(input, limit) == TooLarge <==> |input.bytes| > limit
    ensures Receive(input, limit).Data? <==> |input.bytes| <= limit && !input.fails
    ensures Receive(input, limit).Data? ==> Receive(input, limit).bytes == input.bytes
  {
  }

  method CreateBodyStorage(cfg: Config, data: seq<Byte>, diskFails: bool, counters: Counters) returns (s: Storage)
    modifies counters
    ensures s.OnDisk? <==> cfg.enabled && |data| >= cfg.threshold && !diskFails
                           && old(counters.stats).diskBytes + |data| <= cfg.maxBytes
    ensures s.OnDisk? ==> fresh(s.disk) && s.disk.Valid() && s.disk.View() == Body(data, 0, false)
    ensures s.InMemory? ==> fresh(s.memory) && s.memory.Valid() && s.memory.View() == Body(data, 0, false)
    ensures counters.stats == (if s.OnDisk? then AddDisk else AddMemory)(old(counters.stats), |data|)
  {
    if DiskSuits(cfg, counters.stats, |data|) && !diskFails {
      var d := new DiskStorage(data, counters);
      return OnDisk(d);
    }
    var m := new MemoryStorage(data, counters);
    return InMemory(m);
  }

  datatype Created = Stored(storage: Storage) | RejectedTooLarge | CreationFailed

  /** The streaming path writes straight to disk; the other path reads into memory first. */
  predicate Streams(cfg: Config, stats: Stats, contentLength: int) {
    contentLength > 0 && DiskSuits(cfg, stats, contentLength)
  }

  method CreateBodyStorageFromReader(cfg: Config, input: Input, contentLength: int, limit: int, diskFails: bool,
                                     counters: Counters)
    returns (r: Created)
    modifies counters
    ensures var streams := contentLength > 0 && cfg.enabled && contentLength >= cfg.threshold
                           && old(counters.stats).diskBytes + contentLength <= cfg.maxBytes;
            && (r.Stored? <==> |input.bytes| <= limit && !input.fails && !(streams && diskFails))
            && (r.RejectedTooLarge? <==> |input.bytes| > limit && !(streams && diskFails))
    ensures r.Stored? && r.storage.OnDisk? ==>
              fresh(r.storage.disk) && r.storage.disk.Valid() && r.storage.disk.View() == Body(input.bytes, 0, false)
    ensures r.Stored? && r.storage.InMemory? ==>
              fresh(r.storage.memory) && r.storage.memory.Valid()
                  && r.storage.memory.View() == Body(input.bytes, 0, false)
    ensures counters.stats == if !r.Stored? then old(counters.stats)
                              else (if r.storage.OnDisk? then AddDisk
                                  else AddMemory)(old(counters.stats), |input.bytes|)
    ensures r.Stored? ==> r.storage.OnDisk? == Placed(cfg, old(counters.stats), contentLength, |input.bytes|, diskFails)
  {
    ReceivesUpToLimit(input, limit);
    if Streams(cfg, counters.stats, contentLength) {
      if diskFails {
        return CreationFailed;
      }
      match Receive(input, limit) {
        case TooLarge => return RejectedTooLarge;
        case ReadFailed => return CreationFailed;
        case Data(bytes) =>
          var d := new DiskStorage(bytes, counters);
          return Stored(OnDisk(d));
      }
    }
    match Receive(input, limit) {
      case TooLarge => return RejectedTooLarge;
      case ReadFailed => return CreationFailed;
      case Data(bytes) =>
        var s := CreateBodyStorage(cfg, bytes, diskFails, counters);
        return Stored(s);
    }
  }

  /** Whether an accepted body ends up on disk. */
  predicate Placed(cfg: Config, stats: Stats, contentLength: int, size: int, diskFails: bool) {
    !diskFails && (Streams(cfg, stats, contentLength) || DiskSuits(cfg, stats, size))
  }

  // ---------------------------------------------------------------- conservation

  /** A storage ever created, as the counters see it. */
  datatype Entry = Entry(disk: bool, size: nat, open: bool)

  /** A creation under way: where the test sent it, the size that was tested, and the usage found then.  The
      body is written after the test, and counted only when it has been written. */
  datatype Job = Job(disk: bool, streamed: bool, size: nat, tested: int, seen: int)

  datatype World = World(stats: Stats, entries: seq<Entry>, jobs: seq<Job>)

  /** Creations run concurrently: the test is one step and the commit another.  A body read into memory first
      is a `TestBody` once it has been received. */
  datatype Event =
    | TestBody(cfg: Config, data: seq<Byte>)
    | TestStream(cfg: Config, input: Input, contentLength: int, limit: int)
    | Commit(k: nat, diskFails: bool)
    | CloseEvent(i: nat)

  function Opened(w: World, disk: bool, size: nat): World {
    w.(stats := if disk then AddDisk(w.stats, size)
        else AddMemory(w.stats, size), entries := w.entries + [Entry(disk, size, true)])
  }

  function Begun(w: World, job: Job): World {
    w.(jobs := w.jobs + [job])
  }

  /** A body that could not be written to disk is kept in memory, unless it was streamed. */
  function Finished(w: World, job: Job, diskFails: bool): World {
    if job.disk && diskFails then (if job.streamed then w else Opened(w, false, job.size))
    else Opened(w, job.disk, job.size)
  }

  function Happens(w: World, e: Event): World {
    match e
    case TestBody(cfg, data) =>
      Begun(w, Job(DiskSuits(cfg, w.stats, |data|), false, |data|, |data|, w.stats.diskBytes))
    case TestStream(cfg, input, contentLength, limit) =>
      if !Streams(cfg, w.stats, contentLength) || |input.bytes| > limit || input.fails then w
      else Begun(w, Job(true, true, |input.bytes|, contentLength, w.stats.diskBytes))
    case Commit(k, diskFails) =>
      if k >= |w.jobs| then w
      else Finished(w, w.jobs[k], diskFails).(jobs := w.jobs[..k] + w.jobs[k + 1..])
    case CloseEvent(i) =>
      if i >= |w.entries| || !w.entries[i].open then w
      else
        var entry := w.entries[i];
        w.(stats := if entry.disk then DropDisk(w.stats, entry.size) else DropMemory(w.stats, entry.size),
           entries := w.entries[i := entry.(open := false)])
  }

  /** A creation that nothing comes between places and counts the body as the routine itself does: on disk if caching
      is on, the body long enough, the budget not exceeded and the write succeeds, and in memory if not; a
      streamed body that is refused or not written is not counted at all. */
  lemma CreatedAtOnce(w: World, cfg: Config, input: Input, contentLength: int, limit: int, diskFails: bool)
    ensures var size, used := |input.bytes|, w.stats.diskBytes;
            var fits := cfg.enabled && size >= cfg.threshold && used + size <= cfg.maxBytes;
            Happens(Happens(w, TestBody(cfg, input.bytes)), Commit(|w.jobs|, diskFails))
            == if fits && !diskFails
               then World(w.stats.(diskFiles := w.stats.diskFiles + 1, diskBytes := used + size),
                          w.entries + [Entry(true, size, true)], w.jobs)
               else World(w.stats.(memoryBuffers := w.stats.memoryBuffers + 1,
                                   memoryBytes := w.stats.memoryBytes + size),
                          w.entries + [Entry(false, size, true)], w.jobs)
    ensures var size, used := |input.bytes|, w.stats.diskBytes;
            var streams := contentLength > 0 && cfg.enabled && contentLength >= cfg.threshold
                           && used + contentLength <= cfg.maxBytes;
            Happens(Happens(w, TestStream(cfg, input, contentLength, limit)), Commit(|w.jobs|, diskFails))
            == if streams && size <= limit && !input.fails && !diskFails
               then World(w.stats.(diskFiles := w.stats.diskFiles + 1, diskBytes := used + size),
                          w.entries + [Entry(true, size, true)], w.jobs)
               else w
  {
    forall job ensures (w.jobs + [job])[..|w.jobs|] + (w.jobs + [job])[|w.jobs| + 1..] == w.jobs {
    }
  }

  function Count(entries: seq<Entry>, disk: bool): nat {
    if entries == [] then 0
    else Count(entries[..|entries| - 1], disk) + if Counts(entries[|entries| - 1], disk) then 1 else 0
  }

  function Total(entries: seq<Entry>, disk: bool): nat {
    if entries == [] then 0
    else Total(entries[..|entries| - 1], disk) + if Counts(entries[|entries| - 1], disk)
        then entries[|entries| - 1].size else 0
  }

  predicate Counts(e: Entry, disk: bool) {
    e.open && e.disk == disk
  }

  /** The counters are exactly the number and total size of the open storages. */
  ghost predicate Conserved(w: World) {
    w.stats == Stats(Count(w.entries, true), Total(w.entries, true), Count(w.entries, false), Total(w.entries, false))
  }

  lemma {:induction false} ClosedOne(entries: seq<Entry>, i: nat, disk: bool)
    requires i < |entries| && entries[i].open
    ensures var after := entries[i := entries[i].(open := false)];
            && Count(after, disk) == Count(entries, disk) - (if entries[i].disk == disk then 1 else 0)
            && Total(after, disk) == Total(entries, disk) - (if entries[i].disk == disk then entries[i].size else 0)
  {
    var k := |entries| - 1;
    var after := entries[i := entries[i].(open := false)];
    if i == k {
      assert after[..k] == entries[..k];
    } else {
      ClosedOne(entries[..k], i, disk);
      assert after[..k] == entries[..k][i := entries[i].(open := false)];
    }
  }

  lemma OpenedOne(entries: seq<Entry>, e: Entry, disk: bool)
    ensures Count(entries + [e], disk) == Count(entries, disk) + (if Counts(e, disk) then 1 else 0)
    ensures Total(entries + [e], disk) == Total(entries, disk) + (if Counts(e, disk) then e.size else 0)
  {
    assert (entries + [e])[..|entries|] == entries;
  }

  lemma OpenedConserves(w: World, disk: bool, size: nat)
    requires Conserved(w)
    ensures Conserved(Opened(w, disk, size))
  {
    OpenedOne(w.entries, Entry(disk, size, true), true);
    OpenedOne(w.entries, Entry(disk, size, true), false);
  }

  lemma HappensConserves(w: World, e: Event)
    requires Conserved(w)
    ensures Conserved(Happens(w, e))
  {
    match e
    case CloseEvent(i) =>
      if i < |w.entries| && w.entries[i].open {
        ClosedOne(w.entries, i, true);
        ClosedOne(w.entries, i, false);
      }
    case Commit(k, diskFails) =>
      if k < |w.jobs| {
        OpenedConserves(w, true, w.jobs[k].size);
        OpenedConserves(w, false, w.jobs[k].size);
      }
    case _ =>
  }

  function History(es: seq<Event>): World {
    if es == [] then World(Stats(0, 0, 0, 0), [], []) else Happens(History(es[..|es| - 1]), es[|es| - 1])
  }

  /** Over every run of concurrent creations, failures, fallbacks and repeated closes the counters equal the
      number and total size of the open storages; in particular the clamps at zero never act. */
  lemma {:induction false} CountersExact(es: seq<Event>)
    ensures Conserved(History(es))
  {
    if es != [] {
      CountersExact(es[..|es| - 1]);
      HappensConserves(History(es[..|es| - 1]), es[|es| - 1]);
    }
  }

  // ---------------------------------------------------------------- the disk budget

  /** A body is counted on disk although what is left of the budget no longer holds it. */
  predicate Overruns(w: World, e: Event, budget: int) {
    e.Commit? && e.k < |w.jobs| && w.jobs[e.k].disk && !e.diskFails && w.stats.diskBytes + w.jobs[e.k].size > budget
  }

  predicate Under(e: Event, budget: int) {
    e.TestBody? || e.TestStream? ==> e.cfg.maxBytes == budget
  }

  lemma BudgetStep(w: World, e: Event, budget: int)
    requires Conserved(w) && w.stats.diskBytes <= budget
    ensures Happens(w, e).stats.diskBytes <= budget <==> !Overruns(w, e, budget)
  {
    HappensConserves(w, e);
    if e.CloseEvent? && e.i < |w.entries| && w.entries[e.i].open {
      ClosedOne(w.entries, e.i, true);
    }
  }

  ghost predicate WithinBudget(es: seq<Event>, budget: int) {
    forall n :: 0 <= n <= |es| ==> History(es[..n]).stats.diskBytes <= budget
  }

  ghost predicate NoOverrun(es: seq<Event>, budget: int) {
    forall j :: 0 <= j < |es| ==> !Overruns(History(es[..j]), es[j], budget)
  }

  lemma FrontNoOverrun(es: seq<Event>, budget: int)
    requires es != []
    ensures var front, e := es[..|es| - 1], es[|es| - 1];
            NoOverrun(es, budget) <==> NoOverrun(front, budget) && !Overruns(History(front), e, budget)
  {
    hide History, Overruns;
    var front := es[..|es| - 1];
    assert forall j :: 0 <= j < |front| ==> front[..j] == es[..j] && front[j] == es[j];
    if NoOverrun(es, budget) {
      forall j | 0 <= j < |front| ensures !Overruns(History(front[..j]), front[j], budget) {
        assert front[..j] == es[..j];
      }
    }
    if NoOverrun(front, budget) && !Overruns(History(front), es[|es| - 1], budget) {
      forall j | 0 <= j < |es| ensures !Overruns(History(es[..j]), es[j], budget) {
        assert j < |front| ==> es[..j] == front[..j];
      }
    }
  }

  lemma WithinNow(es: seq<Event>, budget: int)
    requires WithinBudget(es, budget)
    ensures History(es).stats.diskBytes <= budget
  {
    assert es[..|es|] == es;
  }

  /** Over every run, the disk usage stays within the budget at every moment if and only if at each commit what
      is left of it still holds the body. */
  lemma {:induction false} BudgetKeptIff(es: seq<Event>, budget: nat)
    ensures WithinBudget(es, budget) <==> forall j :: 0 <= j < |es| ==> !Overruns(History(es[..j]), es[j], budget)
  {
    if es == [] {
      assert es[..0] == [];
    } else {
      hide Overruns, Happens, WithinBudget;
      var front, e := es[..|es| - 1], es[|es| - 1];
      BudgetKeptIff(front, budget);
      assert History(es) == Happens(History(front), e);
      CountersExact(front);
      FrontWithin(es, budget);
      FrontNoOverrun(es, budget);
      if WithinBudget(front, budget) {
        WithinNow(front, budget);
        BudgetStep(History(front), e, budget);
      }
    }
  }

  lemma FrontWithin(es: seq<Event>, budget: int)
    requires es != []
    ensures WithinBudget(es, budget) <==> WithinBudget(es[..|es| - 1], budget) && History(es).stats.diskBytes <= budget
  {
    var front := es[..|es| - 1];
    assert forall n :: 0 <= n < |es| ==> front[..n] == es[..n];
    assert es[..|es|] == es;
    hide History;
    if WithinBudget(front, budget) && History(es).stats.diskBytes <= budget {
      forall n | 0 <= n <= |es| ensures History(es[..n]).stats.diskBytes <= budget {
        assert n < |es| ==> es[..n] == front[..n];
      }
    }
    if WithinBudget(es, budget) {
      forall n | 0 <= n <= |front| ensures History(front[..n]).stats.diskBytes <= budget {
        assert es[..n] == front[..n];
      }
    }
  }

  /** Every job bound for disk fitted when it was tested. */
  ghost predicate Tested(w: World, budget: int) {
    forall k :: 0 <= k < |w.jobs| && w.jobs[k].disk ==>
      w.jobs[k].seen + w.jobs[k].tested <= budget && (w.jobs[k].streamed || w.jobs[k].tested == w.jobs[k].size)
  }

  lemma TestedStep(w: World, e: Event, budget: int)
    requires Tested(w, budget) && Under(e, budget)
    ensures Tested(Happens(w, e), budget)
  {
    var w' := Happens(w, e);
    forall j | 0 <= j < |w'.jobs| && w'.jobs[j].disk
      ensures w'.jobs[j].seen + w'.jobs[j].tested <= budget
              && (w'.jobs[j].streamed || w'.jobs[j].tested == w'.jobs[j].size)
    {
      if e.Commit? && e.k < |w.jobs| {
        assert w'.jobs[j] == w.jobs[if j < e.k then j else j + 1];
      } else if j < |w.jobs| {
        assert w'.jobs[j] == w.jobs[j];
      }
    }
  }

  lemma {:induction false} TestedRun(es: seq<Event>, budget: int)
    requires forall i :: 0 <= i < |es| ==> Under(es[i], budget)
    ensures Tested(History(es), budget)
  {
    if es != [] {
      TestedRun(es[..|es| - 1], budget);
      TestedStep(History(es[..|es| - 1]), es[|es| - 1], budget);
    }
  }

  /** Only two things make a body overrun: others were counted between its test and its commit, or it was
      streamed and longer than declared. */
  lemma WhyOverruns(es: seq<Event>, e: Event, budget: int)
    requires (forall i :: 0 <= i < |es| ==> Under(es[i], budget)) && Overruns(History(es), e, budget)
    ensures var w := History(es); var job := w.jobs[e.k];
            w.stats.diskBytes > job.seen || (job.streamed && job.size > job.tested)
  {
    TestedRun(es, budget);
  }

  /** Two bodies that each fit alone: both pass the test before either is counted, and together they overrun. */
  lemma BothPass(cfg: Config, data: seq<Byte>)
    requires cfg.enabled && cfg.threshold <= |data| && |data| == cfg.maxBytes > 0
    ensures var es := [TestBody(cfg, data), TestBody(cfg, data), Commit(0, false), Commit(0, false)];
            History(es).stats.diskBytes == 2 * cfg.maxBytes && !WithinBudget(es, cfg.maxBytes)
  {
    hide History, Happens;
    var test, commit := TestBody(cfg, data), Commit(0, false);
    var es := [test, test, commit, commit];
    NoEvents();
    assert [] + [test] == [test] && [test] + [test] == [test, test];
    NextEvent([], test);
    NextEvent([test], test);
    assert [test, test] + [commit] == [test, test, commit] && [test, test, commit] + [commit] == es;
    NextEvent([test, test], commit);
    NextEvent([test, test, commit], commit);
    TwoCommits(cfg, data);
    assert es[..4] == es;
  }

  lemma TwoCommits(cfg: Config, data: seq<Byte>)
    requires cfg.enabled && cfg.threshold <= |data| && |data| == cfg.maxBytes > 0
    ensures var test, commit, none := TestBody(cfg, data), Commit(0, false), World(Stats(0, 0, 0, 0), [], []);
            Happens(Happens(Happens(Happens(none, test), test), commit), commit).stats.diskBytes == 2 * |data|
  {
    var test, commit, none := TestBody(cfg, data), Commit(0, false), World(Stats(0, 0, 0, 0), [], []);
    var job := Job(true, false, |data|, |data|, 0);
    var w := Happens(Happens(none, test), test);
    assert w == none.(jobs := [job, job]);
    assert Happens(w, commit).jobs == [job] && Happens(w, commit).stats.diskBytes == |data|;
  }

  lemma NextEvent(es: seq<Event>, e: Event)
    ensures History(es + [e]) == Happens(History(es), e)
  {
    assert (es + [e])[..|es|] == es;
  }

  lemma NoEvents()
    ensures History([]) == World(Stats(0, 0, 0, 0), [], [])
  {
  }
}
