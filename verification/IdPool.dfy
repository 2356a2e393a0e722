/** The pooled identifier generator: buffers of 256 identifiers refilled by one read of the random source, handed round
    between goroutines by a pool that may lose them at any time. */
module IdPool {
  import opened Basics

  type byte = bv8
  const BATCH: nat := 256
  const BYTES: nat := 4096

  // ---- stamping ----

  /** Byte `k` of an identifier with the version and variant bits of section 4.4 of RFC 4122. */
  function Stamp(k: nat, x: byte): byte {
    if k == 6 then (x & 0x0f) | 0x40 else if k == 8 then (x & 0x3f) | 0x80 else x
  }

  /** The `slot`-th identifier of a batch of random bytes. */
  function StampedId(bytes: seq<byte>, slot: nat): (id: seq<byte>)
    requires 16 * slot + 16 <= |bytes|
    ensures |id| == 16
  {
    seq(16, k requires 0 <= k < 16 => Stamp(k, bytes[16 * slot + k]))
  }

  predicate Version4(id: seq<byte>) { |id| == 16 && id[6] & 0xf0 == 0x40 && id[8] & 0xc0 == 0x80 }

  lemma StampedIsVersion4(bytes: seq<byte>, slot: nat)
    requires 16 * slot + 16 <= |bytes|
    ensures Version4(StampedId(bytes, slot))
    ensures exists k :: 0 <= k < 16 && StampedId(bytes, slot)[k] != 0
  {
    var id := StampedId(bytes, slot);
    var x, y := bytes[16 * slot + 6], bytes[16 * slot + 8];
    assert ((x & 0x0f) | 0x40) & 0xf0 == 0x40;
    assert ((y & 0x3f) | 0x80) & 0xc0 == 0x80;
    assert (x & 0x0f) | 0x40 != 0;
    assert id[6] != 0;
  }

  /** Of the 128 bits read, all but the six of version and variant are in the identifier, each in its place. */
  lemma StampedKeepsRandomBits(bytes: seq<byte>, slot: nat, k: nat)
    requires 16 * slot + 16 <= |bytes| && k < 16
    ensures var id := StampedId(bytes, slot);
            && (k != 6 && k != 8 ==> id[k] == bytes[16 * slot + k])
            && id[6] & 0x0f == bytes[16 * slot + 6] & 0x0f && id[8] & 0x3f == bytes[16 * slot + 8] & 0x3f
  {
    var x, y := bytes[16 * slot + 6], bytes[16 * slot + 8];
    assert StampedId(bytes, slot)[k] == Stamp(k, bytes[16 * slot + k]);
    assert ((x & 0x0f) | 0x40) & 0x0f == x & 0x0f;
    assert ((y & 0x3f) | 0x80) & 0x3f == y & 0x3f;
  }

  // ---- one buffer ----

  datatype Buffer = Buffer(bytes: seq<byte>, idx: nat) {
    predicate Valid() { |bytes| == BYTES && idx <= BATCH }

    function Slot(i: nat): seq<byte>
      requires Valid() && i < BATCH
    {
      bytes[16 * i..16 * i + 16]
    }
  }

  // What the steps of the generator do to the buffer in hand.

  ghost predicate Filled(after: Buffer, read: seq<byte>) {
    after.Valid() && after.idx == 0 && |read| >= BYTES
    && forall i :: 0 <= i < BATCH ==> after.Slot(i) == StampedId(read, i)
  }

  ghost predicate Spoiled(before: Buffer, after: Buffer, read: seq<byte>) {
    && before.Valid() && after.Valid() && after.idx == before.idx && |read| < BYTES
    && after.bytes == read + before.bytes[|read|..]
  }

  ghost predicate Taken(before: Buffer, after: Buffer, id: Option<seq<byte>>) {
    before.Valid() && before.idx < BATCH && after == before.(idx := before.idx + 1)
    && id == Some(before.Slot(before.idx))
  }

  function DirectId(read: seq<byte>): Option<seq<byte>> {
    if |read| >= 16 then Some(StampedId(read, 0)) else None
  }

  /** The first `n` identifiers are stamped, the rest still as read. */
  ghost predicate StampedUpTo(raw: seq<byte>, bytes: seq<byte>, n: nat) {
    && |raw| == BYTES <= |bytes| && n <= BATCH
    && (forall j :: 0 <= j < n ==> raw[16 * j..16 * j + 16] == StampedId(bytes, j))
    && raw[16 * n..] == bytes[16 * n..BYTES]
  }

  /** Equal tails, index by index. */
  lemma TailsAgree(a: seq<byte>, b: seq<byte>, n: nat)
    requires |a| == BYTES <= |b| && n <= BATCH
    ensures a[16 * n..] == b[16 * n..BYTES] <==> forall k :: 16 * n <= k < BYTES ==> a[k] == b[k]
  {
    var x, y := a[16 * n..], b[16 * n..BYTES];
    assert |x| == |y| == BYTES - 16 * n;
    if x == y {
      forall k | 16 * n <= k < BYTES ensures a[k] == b[k] {
        assert a[k] == x[k - 16 * n] && b[k] == y[k - 16 * n];
      }
    } else {
      var i :| 0 <= i < |x| && x[i] != y[i];
      assert a[16 * n + i] != b[16 * n + i];
    }
  }

  /** Stamping the `i`-th chunk as read gives the `i`-th identifier. */
  lemma StampChunk(before: seq<byte>, after: seq<byte>, bytes: seq<byte>, i: nat)
    requires |before| == BYTES <= |bytes| && i < BATCH
    requires forall k :: 16 * i <= k < 16 * i + 16 ==> before[k] == bytes[k]
    requires after == before[16 * i + 6 := Stamp(6, before[16 * i + 6])][16 * i + 8 := Stamp(8, before[16 * i + 8])]
    ensures after[16 * i..16 * i + 16] == StampedId(bytes, i)
  {
    var id := after[16 * i..16 * i + 16];
    forall k | 0 <= k < 16 ensures id[k] == StampedId(bytes, i)[k] {
      assert id[k] == after[16 * i + k] && before[16 * i + k] == bytes[16 * i + k];
    }
  }

  lemma StampNext(before: seq<byte>, after: seq<byte>, bytes: seq<byte>, i: nat)
    requires StampedUpTo(before, bytes, i) && i < BATCH
    requires after == before[16 * i + 6 := Stamp(6, before[16 * i + 6])][16 * i + 8 := Stamp(8, before[16 * i + 8])]
    ensures StampedUpTo(after, bytes, i + 1)
  {
    TailsAgree(before, bytes, i);
    TailsAgree(after, bytes, i + 1);
    StampChunk(before, after, bytes, i);
    forall j | 0 <= j < i ensures after[16 * j..16 * j + 16] == StampedId(bytes, j) {
      assert after[16 * j..16 * j + 16] == before[16 * j..16 * j + 16];
    }
  }

  /** What the next read of the random source delivers; fewer bytes than asked for means that it failed. */
  class Random {
    const chunks: nat -> seq<byte>
    var calls: nat

    constructor (chunks: nat -> seq<byte>)
      ensures this.chunks == chunks && calls == 0
    {
      this.chunks := chunks;
      calls := 0;
    }

    method ReadFull(raw: array<byte>) returns (ok: bool)
      modifies this`calls, raw
      ensures calls == old(calls) + 1
      ensures ok == (|chunks(old(calls))| >= raw.Length)
      ensures forall k :: 0 <= k < raw.Length ==>
                raw[k] == if k < |chunks(old(calls))| then chunks(old(calls))[k] else old(raw[k])
    {
      var bytes := chunks(calls);
      calls := calls + 1;
      var n := 0;
      while n < raw.Length && n < |bytes|
        modifies raw
        invariant 0 <= n <= raw.Length && n <= |bytes|
        invariant forall k :: 0 <= k < n ==> raw[k] == bytes[k]
        invariant forall k :: n <= k < raw.Length ==> raw[k] == old(raw[k])
      {
        raw[n] := bytes[n];
        n := n + 1;
      }
      return |bytes| >= raw.Length;
    }
  }

  class BatchBuffer {
    const raw: array<byte>
    var idx: nat

    constructor ()
      ensures fresh(raw) && Valid() && idx == BATCH
    {
      raw := new byte[BYTES];
      idx := BATCH;
    }

    ghost predicate Valid()
      reads this
    {
      raw.Length == BYTES && idx <= BATCH
    }

    ghost function Value(): Buffer
      reads this, raw
    {
      Buffer(raw[..], idx)
    }

    method Refill(random: Random) returns (ok: bool)
      requires Valid()
      modifies this`idx, raw, random`calls
      ensures Valid() && random.calls == old(random.calls) + 1
      ensures ok == (|random.chunks(old(random.calls))| >= BYTES)
      ensures ok ==> Filled(Value(), random.chunks(old(random.calls)))
      ensures !ok ==> Spoiled(old(Value()), Value(), random.chunks(old(random.calls)))
    {
      ok := random.ReadFull(raw);
      if !ok {
        return;
      }
      ghost var bytes := random.chunks(old(random.calls));
      for i := 0 to BATCH
        modifies raw
        invariant StampedUpTo(raw[..], bytes, i)
      {
        ghost var before := raw[..];
        raw[16 * i + 6] := (raw[16 * i + 6] & 0x0f) | 0x40;
        raw[16 * i + 8] := (raw[16 * i + 8] & 0x3f) | 0x80;
        StampNext(before, raw[..], bytes, i);
      }
      idx := 0;
    }
  }

  /** `uuid.New`: sixteen bytes of its own; it panics when they cannot be read. */
  method Direct(random: Random) returns (id: Option<seq<byte>>)
    modifies random`calls
    ensures random.calls == old(random.calls) + 1
    ensures id == DirectId(random.chunks(old(random.calls)))
  {
    var raw := new byte[16];
    var ok := random.ReadFull(raw);
    if !ok {
      return None;
    }
    raw[6] := (raw[6] & 0x0f) | 0x40;
    raw[8] := (raw[8] & 0x3f) | 0x80;
    ghost var bytes := random.chunks(old(random.calls));
    forall k | 0 <= k < 16 ensures raw[k] == StampedId(bytes, 0)[k] {
      assert StampedId(bytes, 0)[k] == Stamp(k, bytes[k]);
    }
    assert raw[..] == StampedId(bytes, 0);
    return Some(raw[..]);
  }

  /** `NewID` between taking a buffer from the pool and putting it back. */
  method NewID(buf: BatchBuffer, random: Random) returns (id: Option<seq<byte>>)
    requires buf.Valid()
    modifies buf`idx, buf.raw, random`calls
    ensures buf.Valid()
    ensures old(buf.idx) < BATCH ==> Taken(old(buf.Value()), buf.Value(), id) && random.calls == old(random.calls)
    ensures old(buf.idx) == BATCH && |random.chunks(old(random.calls))| >= BYTES ==>
              exists full :: Filled(full, random.chunks(old(random.calls))) && Taken(full, buf.Value(), id)
    ensures old(buf.idx) == BATCH && |random.chunks(old(random.calls))| < BYTES ==>
              && Spoiled(old(buf.Value()), buf.Value(), random.chunks(old(random.calls)))
              && id == DirectId(random.chunks(old(random.calls) + 1))
  {
    if buf.idx >= BATCH {
      var ok := buf.Refill(random);
      if !ok {
        id := Direct(random);
        return;
      }
    }
    ghost var full := buf.Value();
    id := Some(buf.raw[16 * buf.idx..16 * buf.idx + 16]);
    buf.idx := buf.idx + 1;
    assert Taken(full, buf.Value(), id);
  }

  // ---- any number of goroutines ----

  /** What the random source delivered, read by read: a whole batch, part of one before failing, or one identifier. */
  datatype Read = BatchRead(bytes: seq<byte>) | FailedRead(bytes: seq<byte>) | SingleRead(bytes: seq<byte>)

  /** A buffer lies in the pool or is in the hands of one goroutine; `read` is the read that filled it. */
  datatype Place = Idle(key: nat) | Busy(goroutine: nat)
  datatype Held = Held(buffer: Buffer, read: nat)

  datatype Issued = Issued(id: seq<byte>, read: nat, slot: nat)

  datatype System = System(history: seq<Read>, buffers: map<Place, Held>, log: seq<Issued>)

  datatype Action =
    | Make(g: nat, empty: Buffer)
    | Get(g: nat, key: nat)
    | Refill(g: nat, bytes: seq<byte>, after: Buffer)
    | FailRefill(g: nat, bytes: seq<byte>, after: Buffer)
    | Take(g: nat)
    | Put(g: nat, key: nat)
    | Lose(key: nat)
    | IssueDirect(bytes: seq<byte>)

  ghost predicate Enabled(s: System, a: Action) {
    match a
    case Make(g, empty) => Busy(g) !in s.buffers && empty.Valid() && empty.idx == BATCH
    case Get(g, key) => Busy(g) !in s.buffers && Idle(key) in s.buffers
    case Refill(g, bytes, after) =>
      Busy(g) in s.buffers && s.buffers[Busy(g)].buffer.idx >= BATCH && Filled(after, bytes)
    case FailRefill(g, bytes, after) =>
      Busy(g) in s.buffers && s.buffers[Busy(g)].buffer.idx >= BATCH && Spoiled(s.buffers[Busy(g)].buffer, after, bytes)
    case Take(g) => Busy(g) in s.buffers && s.buffers[Busy(g)].buffer.Valid() && s.buffers[Busy(g)].buffer.idx < BATCH
    case Put(g, key) => Busy(g) in s.buffers && Idle(key) !in s.buffers
    case Lose(key) => Idle(key) in s.buffers
    case IssueDirect(bytes) => DirectId(bytes).Some?
  }

  ghost function Next(s: System, a: Action): System
    requires Enabled(s, a)
  {
    match a
    case Make(g, empty) => s.(buffers := s.buffers[Busy(g) := Held(empty, 0)])
    case Get(g, key) => s.(buffers := (s.buffers - {Idle(key)})[Busy(g) := s.buffers[Idle(key)]])
    case Refill(g, bytes, after) =>
      s.(history := s.history + [BatchRead(bytes)], buffers := s.buffers[Busy(g) := Held(after, |s.history|)])
    case FailRefill(g, bytes, after) =>
      s.(history := s.history + [FailedRead(bytes)],
         buffers := s.buffers[Busy(g) := s.buffers[Busy(g)].(buffer := after)])
    case Take(g) =>
      var held := s.buffers[Busy(g)];
      var b := held.buffer;
      s.(buffers := s.buffers[Busy(g) := held.(buffer := b.(idx := b.idx + 1))],
         log := s.log + [Issued(b.Slot(b.idx), held.read, b.idx)])
    case Put(g, key) => s.(buffers := (s.buffers - {Busy(g)})[Idle(key) := s.buffers[Busy(g)]])
    case Lose(key) => s.(buffers := s.buffers - {Idle(key)})
    case IssueDirect(bytes) =>
      s.(history := s.history + [SingleRead(bytes)], log := s.log + [Issued(DirectId(bytes).value, |s.history|, 0)])
  }

  ghost predicate Schedule(start: System, actions: seq<Action>)
    decreases |actions|, 0
  {
    actions == []
    || (Schedule(start, actions[..|actions| - 1])
        && Enabled(After(start, actions[..|actions| - 1]), actions[|actions| - 1]))
  }

  ghost function After(start: System, actions: seq<Action>): System
    requires Schedule(start, actions)
    decreases |actions|, 1
  {
    if actions == [] then start else Next(After(start, actions[..|actions| - 1]), actions[|actions| - 1])
  }

  predicate Start(s: System) { s.history == [] && s.buffers == map[] && s.log == [] }

  // ---- the invariant ----

  /** How many identifiers of a read the log holds. */
  function Used(log: seq<Issued>, read: nat): nat {
    if log == [] then 0
    else Used(log[..|log| - 1], read) + if log[|log| - 1].read == read then 1 else 0
  }

  /** The identifier is the stamped chunk at its slot of a read that succeeded. */
  predicate FromRead(history: seq<Read>, e: Issued) {
    && e.read < |history| && !history[e.read].FailedRead?
    && (history[e.read].BatchRead? ==> e.slot < BATCH) && (history[e.read].SingleRead? ==> e.slot == 0)
    && 16 * e.slot + 16 <= |history[e.read].bytes| && e.id == StampedId(history[e.read].bytes, e.slot)
  }

  /** A buffer with identifiers left holds the unissued rest of a batch. */
  ghost predicate Holds(s: System, h: Held) {
    && h.buffer.Valid()
    && (h.buffer.idx < BATCH ==>
          && h.read < |s.history| && s.history[h.read].BatchRead? && |s.history[h.read].bytes| >= BYTES
          && Used(s.log, h.read) == h.buffer.idx
          && forall i :: h.buffer.idx <= i < BATCH ==> h.buffer.Slot(i) == StampedId(s.history[h.read].bytes, i))
  }

  predicate Apart(h: Held, o: Held) { h.buffer.idx < BATCH && o.buffer.idx < BATCH ==> h.read != o.read }

  ghost predicate SystemInv(s: System) {
    && (forall p :: p in s.buffers ==> Holds(s, s.buffers[p]))
    && (forall p, q :: p in s.buffers && q in s.buffers && p != q ==> Apart(s.buffers[p], s.buffers[q]))
    && (forall i :: 0 <= i < |s.log| ==>
         FromRead(s.history, s.log[i]) && s.log[i].slot == Used(s.log[..i], s.log[i].read))
  }

  lemma {:induction false} UnknownUnused(history: seq<Read>, log: seq<Issued>)
    requires forall i :: 0 <= i < |log| ==> FromRead(history, log[i])
    ensures Used(log, |history|) == 0
  {
    if log != [] { UnknownUnused(history, log[..|log| - 1]); }
  }

  /** A longer history changes nothing about what was read before. */
  lemma ReadKeeps(s: System, after: System, read: Read)
    requires SystemInv(s) && after == s.(history := s.history + [read])
    ensures SystemInv(after)
  {
    forall p | p in s.buffers ensures Holds(after, s.buffers[p]) { assert Holds(s, s.buffers[p]); }
    forall i | 0 <= i < |s.log| ensures FromRead(after.history, s.log[i]) { assert FromRead(s.history, s.log[i]); }
  }

  lemma LogKeeps(s: System, e: Issued)
    requires SystemInv(s) && FromRead(s.history, e) && e.slot == Used(s.log, e.read)
    requires forall p :: p in s.buffers && s.buffers[p].buffer.idx < BATCH ==> s.buffers[p].read != e.read
    ensures SystemInv(s.(log := s.log + [e]))
  {
    var after := s.(log := s.log + [e]);
    assert after.log[..|s.log|] == s.log;
    forall p | p in s.buffers ensures Holds(after, s.buffers[p]) { assert Holds(s, s.buffers[p]); }
    forall i | 0 <= i < |after.log| ensures FromRead(after.history, after.log[i])
                                            && after.log[i].slot == Used(after.log[..i], after.log[i].read)
    {
      if i < |s.log| { assert after.log[..i] == s.log[..i] && after.log[i] == s.log[i]; }
    }
  }

  /** The other buffers do not hold the batch an identifier is taken from. */
  lemma OthersKeep(s: System, g: nat)
    requires SystemInv(s) && Enabled(s, Take(g))
    ensures var h := s.buffers[Busy(g)];
            SystemInv(s.(buffers := s.buffers - {Busy(g)},
                         log := s.log + [Issued(h.buffer.Slot(h.buffer.idx), h.read, h.buffer.idx)]))
  {
    var h := s.buffers[Busy(g)];
    assert Holds(s, h);
    var without := s.(buffers := s.buffers - {Busy(g)});
    assert SystemInv(without) by {
      forall p | p in without.buffers ensures Holds(without, without.buffers[p]) { assert Holds(s, s.buffers[p]); }
    }
    forall p | p in without.buffers && without.buffers[p].buffer.idx < BATCH ensures without.buffers[p].read != h.read {
      assert Apart(s.buffers[p], h);
    }
    LogKeeps(without, Issued(h.buffer.Slot(h.buffer.idx), h.read, h.buffer.idx));
  }

  lemma TakeKeeps(s: System, g: nat)
    requires SystemInv(s) && Enabled(s, Take(g))
    ensures SystemInv(Next(s, Take(g)))
  {
    var h, after := s.buffers[Busy(g)], Next(s, Take(g));
    var logged := after.(buffers := s.buffers - {Busy(g)});
    OthersKeep(s, g);
    forall p | p in after.buffers ensures Holds(after, after.buffers[p]) {
      if p == Busy(g) {
        assert Holds(s, h) && after.log[..|s.log|] == s.log;
      } else {
        assert Holds(logged, logged.buffers[p]);
      }
    }
    forall p, q | p in after.buffers && q in after.buffers && p != q ensures Apart(after.buffers[p], after.buffers[q]) {
      assert Apart(s.buffers[p], s.buffers[q]);
    }
    forall i | 0 <= i < |after.log| ensures FromRead(after.history, after.log[i])
                                            && after.log[i].slot == Used(after.log[..i], after.log[i].read)
    {
      assert FromRead(logged.history, logged.log[i]);
    }
  }

  lemma RefillKeeps(s: System, a: Action)
    requires SystemInv(s) && Enabled(s, a) && (a.Refill? || a.FailRefill?)
    ensures SystemInv(Next(s, a))
  {
    var read := if a.Refill? then BatchRead(a.bytes) else FailedRead(a.bytes);
    var longer, after := s.(history := s.history + [read]), Next(s, a);
    ReadKeeps(s, longer, read);
    UnknownUnused(s.history, s.log);
    forall p | p in after.buffers ensures Holds(after, after.buffers[p]) {
      if p != Busy(a.g) { assert Holds(longer, longer.buffers[p]); }
    }
    forall p, q | p in after.buffers && q in after.buffers && p != q ensures Apart(after.buffers[p], after.buffers[q]) {
      assert Apart(s.buffers[p], s.buffers[q]) && Holds(s, s.buffers[p]) && Holds(s, s.buffers[q]);
    }
  }

  lemma DirectKeeps(s: System, bytes: seq<byte>)
    requires SystemInv(s) && Enabled(s, IssueDirect(bytes))
    ensures SystemInv(Next(s, IssueDirect(bytes)))
  {
    var longer := s.(history := s.history + [SingleRead(bytes)]);
    ReadKeeps(s, longer, SingleRead(bytes));
    UnknownUnused(s.history, s.log);
    forall p | p in s.buffers && s.buffers[p].buffer.idx < BATCH ensures s.buffers[p].read != |s.history| {
      assert Holds(s, s.buffers[p]);
    }
    LogKeeps(longer, Issued(DirectId(bytes).value, |s.history|, 0));
  }

  /** Handing buffers round and losing them. */
  lemma MoveKeeps(s: System, a: Action)
    requires SystemInv(s) && Enabled(s, a) && (a.Make? || a.Get? || a.Put? || a.Lose?)
    ensures SystemInv(Next(s, a))
  {
    var after := Next(s, a);
    forall p | p in after.buffers ensures Holds(after, after.buffers[p]) {
      if p in s.buffers && s.buffers[p] == after.buffers[p] { assert Holds(s, s.buffers[p]); }
      if a.Get? { assert Holds(s, s.buffers[Idle(a.key)]); }
      if a.Put? { assert Holds(s, s.buffers[Busy(a.g)]); }
    }
  }

  lemma StepKeepsInv(s: System, a: Action)
    requires SystemInv(s) && Enabled(s, a)
    ensures SystemInv(Next(s, a))
  {
    match a
    case Take(g) => TakeKeeps(s, g);
    case Refill(_, _, _) => RefillKeeps(s, a);
    case FailRefill(_, _, _) => RefillKeeps(s, a);
    case IssueDirect(bytes) => DirectKeeps(s, bytes);
    case _ => MoveKeeps(s, a);
  }

  lemma {:induction false} ScheduleKeepsInv(start: System, actions: seq<Action>)
    requires Start(start) && Schedule(start, actions)
    ensures SystemInv(After(start, actions))
    decreases |actions|
  {
    if actions != [] {
      ScheduleKeepsInv(start, actions[..|actions| - 1]);
      StepKeepsInv(After(start, actions[..|actions| - 1]), actions[|actions| - 1]);
    }
  }

  lemma {:induction false} UsedGrows(log: seq<Issued>, i: nat, j: nat)
    requires i < j <= |log|
    ensures Used(log[..i], log[i].read) < Used(log[..j], log[i].read)
    decreases j
  {
    assert log[..j][..j - 1] == log[..j - 1];
    if i < j - 1 { UsedGrows(log, i, j - 1); }
  }

  /** Whatever the goroutines, the pool and the random source do: every identifier issued is a stamped version 4 chunk
      of a read that succeeded, and two issued from the same read are different chunks in ascending order. */
  lemma EachChunkOnceInOrder(start: System, actions: seq<Action>, i: nat, j: nat)
    requires Start(start) && Schedule(start, actions) && i < j < |After(start, actions).log|
    ensures var s := After(start, actions);
            && Version4(s.log[i].id) && FromRead(s.history, s.log[i])
            && (s.log[i].read == s.log[j].read ==> s.log[i].slot < s.log[j].slot)
  {
    ScheduleKeepsInv(start, actions);
    var s := After(start, actions);
    assert FromRead(s.history, s.log[i]);
    StampedIsVersion4(s.history[s.log[i].read].bytes, s.log[i].slot);
    UsedGrows(s.log, i, j);
  }
}
