/**
 * The scrollback store as the program has it: a pending buffer that writers
 * append to, a chunk buffer in an array that is handed to the backend by
 * reference, chunk lists, byte counters and a sticky error. Its background
 * drain releases the lock in the middle of every flush; the writes that arrive
 * meanwhile are parameters, so each statement holds for all of them. Under no
 * error the store's value follows Retention exactly.
 */
module ScrollbackStore {
  import opened Bytes
  import opened VtScan
  import opened Retention

  /** Compression, of which only the round trip matters. */
  datatype Codec = Codec(encode: bytes -> bytes, decode: bytes -> bytes)

  ghost predicate Lossless(c: Codec) {
    forall p :: c.decode(c.encode(p)) == p
  }

  datatype Chunk = Chunk(handle: nat, rawLen: nat, compressed: bool)

  /** What a backend holds: the caller's own array, or a copy in a file. */
  datatype Payload = Ref(arr: array<byte>, len: nat) | File(content: bytes)

  class Backend {
    const onDisk: bool
    var slots: map<nat, Payload>
    var next: nat
    /** Which of the coming file operations fail. */
    var faults: seq<bool>

    /** The bytes stored under each handle. */
    ghost var held: map<nat, bytes>

    ghost function Arrays(): set<array<byte>>
      reads this
    {
      set h | h in slots && slots[h].Ref? :: slots[h].arr
    }

    /** Every payload still reads as it was stored: nobody has written to an array kept by reference. */
    ghost predicate Valid()
      reads this, Arrays()
    {
      && held.Keys == slots.Keys
      && forall h :: h in slots ==> h < next && Reads(slots[h], held[h])
    }

    /** No file operation is going to fail; in memory none ever does. */
    ghost predicate Calm()
      reads `faults
    {
      !onDisk || true !in faults
    }

    constructor (onDisk: bool, faults: seq<bool>)
      ensures Valid() && slots == map[] && held == map[] && this.onDisk == onDisk && this.faults == faults
    {
      this.onDisk, this.faults := onDisk, faults;
      slots, next, held := map[], 0, map[];
    }

    method Fails() returns (f: bool)
      modifies `faults
      ensures f ==> onDisk
      ensures old(Calm()) ==> !f && Calm()
    {
      f := onDisk && |faults| > 0 && faults[0];
      if |faults| > 0 {
        faults := faults[1..];
      }
    }

    /** Memory keeps the array itself; disk keeps a copy. */
    method Put(arr: array<byte>, len: nat) returns (ok: bool, h: nat)
      requires Valid() && len <= arr.Length
      modifies this
      ensures Valid()
      ensures ok ==> h !in old(held) && held == old(held)[h := arr[..len]]
      ensures !ok ==> held == old(held)
      ensures old(Calm()) ==> ok && Calm()
      ensures Arrays() <= old(Arrays()) + {arr}
    {
      var f := Fails();
      if f {
        return false, 0;
      }
      ok, h := true, next;
      slots := slots[next := if onDisk then File(arr[..len]) else Ref(arr, len)];
      held := held[next := arr[..len]];
      next := next + 1;
    }

    method Get(h: nat) returns (ok: bool, data: bytes)
      requires Valid()
      modifies `faults
      ensures Valid()
      ensures ok ==> h in held && data == held[h]
      ensures old(Calm()) ==> Calm() && (h in held ==> ok)
    {
      var f := Fails();
      if f || h !in slots {
        return false, [];
      }
      match slots[h] {
        case Ref(arr, len) => return true, arr[..len];
        case File(content) => return true, content;
      }
    }

    /** Memory has nothing to release: the handle is the payload. Disk removes the file, or fails and keeps it. */
    method Drop(h: nat) returns (ok: bool)
      requires Valid()
      modifies this
      ensures Valid()
      ensures held == if onDisk && ok then old(held) - {h} else old(held)
      ensures old(Calm()) ==> ok && Calm()
      ensures Arrays() <= old(Arrays())
    {
      if !onDisk {
        return true;
      }
      var f := Fails();
      if f {
        return false;
      }
      slots, held := slots - {h}, held - {h};
      return true;
    }
  }

  ghost predicate Reads(p: Payload, content: bytes)
    reads if p.Ref? then {p.arr} else {}
  {
    match p
    case Ref(arr, len) => len <= arr.Length && arr[..len] == content
    case File(c) => c == content
  }

  lemma ConcatHead(parts: seq<bytes>)
    requires |parts| > 0
    ensures |Concat(parts)| == |parts[0]| + |Concat(parts[1..])|
  {
  }

  /** A chunk's payload is held, and decodes to its raw bytes. */
  ghost predicate Holds(held: map<nat, bytes>, codec: Codec, c: Chunk, raw: bytes) {
    && c.handle in held
    && c.rawLen == |raw|
    && held[c.handle] == if c.compressed then codec.encode(raw) else raw
  }

  ghost predicate Stored(held: map<nat, bytes>, codec: Codec, chunks: seq<Chunk>, raws: seq<bytes>) {
    |chunks| == |raws| && forall i :: 0 <= i < |chunks| ==> Holds(held, codec, chunks[i], raws[i])
  }

  ghost predicate Distinct(head: seq<Chunk>, tail: seq<Chunk>) {
    && (forall i, j :: 0 <= i < |head| && 0 <= j < |tail| ==> head[i].handle != tail[j].handle)
    && (forall i, j :: 0 <= i < j < |tail| ==> tail[i].handle != tail[j].handle)
  }

  ghost predicate Unused(chunks: seq<Chunk>, h: nat) {
    forall i :: 0 <= i < |chunks| ==> chunks[i].handle != h
  }

  lemma StoredPut(held: map<nat, bytes>, codec: Codec, chunks: seq<Chunk>, raws: seq<bytes>, h: nat, v: bytes)
    requires Stored(held, codec, chunks, raws) && h !in held
    ensures Stored(held[h := v], codec, chunks, raws) && Unused(chunks, h)
  {
    assert forall i :: 0 <= i < |chunks| ==> Holds(held, codec, chunks[i], raws[i]);
  }

  lemma StoredDrop(held: map<nat, bytes>, codec: Codec, chunks: seq<Chunk>, raws: seq<bytes>, h: nat)
    requires Stored(held, codec, chunks, raws) && Unused(chunks, h)
    ensures Stored(held - {h}, codec, chunks, raws)
  {
    assert forall i :: 0 <= i < |chunks| ==> Holds(held, codec, chunks[i], raws[i]);
  }

  lemma StoredAppend(held: map<nat, bytes>, codec: Codec, chunks: seq<Chunk>, raws: seq<bytes>, c: Chunk, raw: bytes)
    requires Stored(held, codec, chunks, raws) && Holds(held, codec, c, raw)
    ensures Stored(held, codec, chunks + [c], raws + [raw])
  {
  }

  lemma DistinctAppend(head: seq<Chunk>, tail: seq<Chunk>, c: Chunk)
    requires Distinct(head, tail) && Unused(head, c.handle) && Unused(tail, c.handle)
    ensures Distinct(head + [c], tail) && Distinct(head, tail + [c])
  {
  }

  lemma DistinctOldest(head: seq<Chunk>, tail: seq<Chunk>)
    requires Distinct(head, tail) && |tail| > 0
    ensures Unused(head, tail[0].handle) && Unused(tail[1..], tail[0].handle) && Distinct(head, tail[1..])
  {
  }

  lemma StoredTail(held: map<nat, bytes>, codec: Codec, chunks: seq<Chunk>, raws: seq<bytes>)
    requires Stored(held, codec, chunks, raws) && |chunks| > 0
    ensures |raws| == |chunks|
    ensures Holds(held, codec, chunks[0], raws[0]) && Stored(held, codec, chunks[1..], raws[1..])
  {
  }

  /** A flush, spelled as detaching the chunk and then recording it. */
  lemma FlushIs(cfg: Config, k: Kept, cut: nat)
    requires cut <= |k.buf|
    ensures var d, raw := k.(buf := k.buf[cut..]), k.buf[..cut];
            Flush(cfg, k, cut) == if HeadBytes(d) < cfg.headSize then d.(head := d.head + [raw])
                                  else Evict(cfg, d.(tail := d.tail + [raw]))
  {
    hide Concat, Evict;
  }

  lemma ProcessUnfolds(cfg: Config, k: Kept)
    requires Usable(cfg)
    ensures Process(cfg, k) ==
            if |k.buf| < Target(cfg, k) || CutAt(k.buf, Target(cfg, k)) == 0 then k
            else Process(cfg, Flush(cfg, k, CutAt(k.buf, Target(cfg, k))))
  {
  }

  lemma AppendToKept(cfg: Config, k: Kept, p: bytes)
    ensures Stream(Append(k, p)) == Stream(k) + p
    ensures HeadFirst(cfg, Append(k, p)) == HeadFirst(cfg, k)
  {
    assert Log(Append(k, p)) == Log(k);
  }

  /** What another goroutine does to the store: write to it, or close it. */
  datatype Call = Written(p: bytes) | Closed

  predicate ClosedBy(calls: seq<Call>, closed: bool) {
    closed || Closed in calls
  }

  /** The bytes accepted from these calls: those written before the store is closed. */
  function Accepted(calls: seq<Call>, closed: bool): bytes {
    if calls == [] then []
    else
      var n := |calls| - 1;
      Accepted(calls[..n], closed)
      + if calls[n].Written? && !ClosedBy(calls[..n], closed) then calls[n].p else []
  }

  lemma NothingAccepted(calls: seq<Call>, closed: bool)
    ensures Accepted(calls[..0], closed) == [] && ClosedBy(calls[..0], closed) == closed
  {
  }

  lemma OneMoreCall(calls: seq<Call>, i: nat, closed: bool)
    requires i < |calls|
    ensures Accepted(calls[..i + 1], closed) ==
            Accepted(calls[..i], closed)
            + if calls[i].Written? && !ClosedBy(calls[..i], closed) then calls[i].p else []
    ensures ClosedBy(calls[..i + 1], closed) == (ClosedBy(calls[..i], closed) || calls[i].Closed?)
  {
    assert calls[..i + 1][..i] == calls[..i];
    assert calls[..i + 1] == calls[..i] + [calls[i]];
  }

  class Store {
    const cfg: Config
    const codec: Codec
    const backend: Backend
    const notice: nat -> bytes
    var pending: bytes
    var chunkBuf: array<byte>
    var chunkLen: nat
    var headChunks: seq<Chunk>
    var headBytes: nat
    var tailChunks: seq<Chunk>
    var tailBytes: nat
    var totalBytes: nat
    var closed: bool
    var busy: bool
    var err: bool
    /** What other goroutines do during each coming stretch of the drain without the lock. */
    var script: seq<seq<Call>>
    /** Every byte accepted, the raw bytes behind each chunk, and the chunks evicted. */
    ghost var stream: bytes
    ghost var headRaw: seq<bytes>
    ghost var tailRaw: seq<bytes>
    ghost var evicted: seq<bytes>
    /** The batches the drain has taken so far. */
    ghost var batches: seq<bytes>

    ghost function Abs(): Kept
      reads `headRaw, `evicted, `tailRaw, `chunkBuf, `chunkLen, chunkBuf
      requires chunkLen <= chunkBuf.Length
    {
      Kept(headRaw, evicted, tailRaw, chunkBuf[..chunkLen])
    }

    /** The recorded chunks are all there, each under its own handle. */
    ghost predicate Recorded()
      reads `headChunks, `tailChunks, `headRaw, `tailRaw, `headBytes, `tailBytes, backend`held
    {
      && Stored(backend.held, codec, headChunks, headRaw)
      && Stored(backend.held, codec, tailChunks, tailRaw)
      && Distinct(headChunks, tailChunks)
      && headBytes == |Concat(headRaw)|
      && tailBytes == |Concat(tailRaw)|
    }

    /** Nothing accepted is lost or duplicated: it is retained, evicted, buffered or pending. */
    ghost predicate Conserved()
      reads `headRaw, `evicted, `tailRaw, `chunkBuf, `chunkLen, `totalBytes, `stream, `err, `pending, chunkBuf
    {
      && chunkLen <= chunkBuf.Length
      && totalBytes == |stream|
      && (!err ==> HeadFirst(cfg, Abs()) && stream == Stream(Abs()) + pending)
    }

    ghost predicate Valid()
      reads `headChunks, `tailChunks, `headRaw, `tailRaw, `headBytes, `tailBytes, `evicted, `chunkBuf, `chunkLen,
            `totalBytes, `stream, `err, `pending, chunkBuf, backend, backend.Arrays()
    {
      Usable(cfg) && Lossless(codec) && backend.Valid() && Recorded() && Conserved()
    }

    /** The array about to be written is none that the backend keeps. */
    ghost predicate Separate()
      reads `chunkBuf, backend
    {
      chunkBuf !in backend.Arrays()
    }

    constructor (cfg: Config, codec: Codec, backend: Backend, notice: nat -> bytes, script: seq<seq<Call>>)
      requires Usable(cfg) && Lossless(codec) && backend.Valid()
      ensures Valid() && Separate() && fresh(chunkBuf)
      ensures this.cfg == cfg && this.codec == codec && this.backend == backend && this.notice == notice && this.script == script
      ensures stream == [] && pending == [] && batches == [] && Abs() == EMPTY && !err && !closed && !busy
      ensures Batched()
    {
      this.cfg, this.codec, this.backend, this.notice := cfg, codec, backend, notice;
      pending, chunkLen, headChunks, headBytes, tailChunks, tailBytes := [], 0, [], 0, [], 0;
      totalBytes, closed, busy, err := 0, false, false, false;
      this.script := script;
      chunkBuf := new byte[0];
      stream, headRaw, tailRaw, evicted, batches := [], [], [], [], [];
    }

    /** Accepts bytes; a closed store swallows them uncounted. */
    method Write(p: bytes)
      requires Valid()
      modifies `pending, `totalBytes, `busy, `stream
      ensures Valid()
      ensures var accepted := if closed then [] else p;
              && pending == old(pending) + accepted
              && stream == old(stream) + accepted
              && totalBytes == old(totalBytes) + |accepted|
      ensures busy == (old(busy) || (!closed && |p| > 0))
    {
      hide Recorded, Stream, HeadFirst, Lossless;
      if |p| == 0 {
        return;
      }
      if closed {
        return;
      }
      ghost var was := pending;
      pending := pending + p;
      totalBytes := totalBytes + |p|;
      busy := true;
      stream := stream + p;
      assert !err ==> stream == Stream(Abs()) + was + p == Stream(Abs()) + (was + p);
    }

    method Close()
      requires Valid()
      modifies `closed
      ensures closed && Valid()
    {
      closed := true;
    }

    /** The lock is free for a moment: whatever the script holds next happens. */
    method Unlocked()
      requires Valid()
      modifies `pending, `totalBytes, `busy, `stream, `script, `closed
      ensures Valid()
      ensures var calls := if old(script) == [] then [] else old(script)[0];
              && pending == old(pending) + Accepted(calls, old(closed))
              && stream == old(stream) + Accepted(calls, old(closed))
              && closed == ClosedBy(calls, old(closed))
      ensures script == if old(script) == [] then [] else old(script)[1..]
    {
      hide Recorded, Conserved, Lossless;
      if script == [] {
        return;
      }
      var calls := script[0];
      script := script[1..];
      Happen(calls);
    }

    method Happen(calls: seq<Call>)
      requires Valid()
      modifies `pending, `totalBytes, `busy, `stream, `closed
      ensures Valid()
      ensures pending == old(pending) + Accepted(calls, old(closed))
      ensures stream == old(stream) + Accepted(calls, old(closed))
      ensures closed == ClosedBy(calls, old(closed))
    {
      hide Valid, Accepted, ClosedBy;
      NothingAccepted(calls, closed);
      for i := 0 to |calls|
        invariant Valid()
        invariant pending == old(pending) + Accepted(calls[..i], old(closed))
        invariant stream == old(stream) + Accepted(calls[..i], old(closed))
        invariant closed == ClosedBy(calls[..i], old(closed))
      {
        OneMoreCall(calls, i, old(closed));
        match calls[i] {
          case Written(p) => Write(p);
          case Closed => Close();
        }
      }
      assert calls[..|calls|] == calls;
    }

    /** Scans forward for the cut near `target`; -1 when no boundary exists yet. */
    method BoundaryCut(target: nat) returns (best: int)
      requires chunkLen <= chunkBuf.Length && 0 < target <= chunkLen
      ensures best == -1 || best > 0
      ensures CutAt(chunkBuf[..chunkLen], target) == if best < 0 then 0 else best
    {
      hide CutAt, Next;
      ghost var buf := chunkBuf[..chunkLen];
      var sc := new Scanner();
      best := -1;
      var off := 1;
      while off <= chunkLen
        invariant 1 <= off <= chunkLen + 1
        invariant sc.Value() == After(START, buf, off - 1)
        invariant best == -1 || (0 < best <= target && best < off && Admissible(buf, best))
        invariant forall i :: 0 < i < off && i <= target && best < i ==> !Admissible(buf, i)
        invariant best == -1 ==> forall i :: 0 < i < off ==> !Admissible(buf, i)
      {
        sc.Step(chunkBuf[off - 1]);
        assert buf[off - 1] == chunkBuf[off - 1];
        if off < chunkLen && Continuation(chunkBuf[off]) {
          assert !Admissible(buf, off);
        } else if !sc.IsAtGround() {
          assert !Admissible(buf, off);
        } else if off <= target {
          best := off;
        } else {
          if best < 0 {
            best := off;
          }
          CutIsUnique(buf, target, best);
          return;
        }
        off := off + 1;
      }
      CutIsUnique(buf, target, if best < 0 then 0 else best);
    }

    /** Copies the bytes behind the cut to a fresh array: the old one may belong to the backend from now on. */
    method Rest(cut: nat) returns (rest: array<byte>)
      requires cut <= chunkLen <= chunkBuf.Length
      ensures fresh(rest) && rest.Length >= chunkLen - cut
      ensures rest[..chunkLen - cut] == chunkBuf[cut..chunkLen]
    {
      var n := chunkLen - cut;
      rest := new byte[if cfg.chunkSize > n then cfg.chunkSize else n];
      for i := 0 to n
        modifies rest
        invariant rest[..i] == chunkBuf[cut..cut + i]
      {
        rest[i] := chunkBuf[cut + i];
      }
    }

    /** The array handed to the backend: the chunk buffer itself, or the encoder's output. */
    method Encoded(cut: nat, compressed: bool) returns (data: array<byte>, len: nat)
      requires cut <= chunkLen <= chunkBuf.Length
      ensures len <= data.Length
      ensures data[..len] == if compressed then codec.encode(chunkBuf[..cut]) else chunkBuf[..cut]
      ensures data == chunkBuf || fresh(data)
    {
      if !compressed {
        return chunkBuf, cut;
      }
      var out := codec.encode(chunkBuf[..cut]);
      data := new byte[|out|](i requires 0 <= i < |out| => out[i]);
      len := |out|;
      assert data[..len] == out;
    }

    /**
     * Cuts the first `cut` buffered bytes off as a chunk. The lock is free
     * while the chunk is encoded and stored; whatever is written meanwhile
     * joins the pending bytes, and conservation holds there too. A chunk the
     * backend refuses is lost, but then the error sticks.
     */
    method FlushChunk(cut: nat, backlog: nat)
      requires Valid() && Separate() && 0 < cut <= chunkLen
      modifies this, backend
      ensures Valid() && Separate() && fresh(chunkBuf)
      ensures chunkLen == old(chunkLen) - cut
      ensures old(err) ==> err
      ensures old(backend.Calm()) ==> backend.Calm() && err == old(err)
      ensures !err ==> Abs() == Flush(cfg, old(Abs()), cut)
      ensures old(stream) <= stream && pending == old(pending) + stream[|old(stream)|..]
      ensures |script| < |old(script)| || (script == old(script) && pending == old(pending))
      ensures (old(closed) ==> closed) && batches == old(batches)
    {
      hide Concat, Evict, Holds, HeadFirst, Stream, Recorded, Lossless;
      ghost var k := Abs();
      var compressed := backlog <= cfg.fallbackBytes;
      var ok, h := Detach(cut, compressed);
      if !ok {
        err := true;
        return;
      }
      ghost var raw := k.buf[..cut];
      RecordChunk(Chunk(h, cut, compressed), raw);
      FlushIs(cfg, k, cut);
      if !err {
        FlushKeepsHeadFirst(cfg, k, cut);
      }
    }

    /** Stores the first `cut` bytes with the lock free, then takes the rest as the new chunk buffer. */
    method Detach(cut: nat, compressed: bool) returns (ok: bool, h: nat)
      requires Valid() && Separate() && 0 < cut <= chunkLen
      modifies `pending, `totalBytes, `busy, `stream, `script, `closed, `chunkBuf, `chunkLen, backend
      ensures backend.Valid() && Recorded() && Separate() && fresh(chunkBuf) && (old(closed) ==> closed)
      ensures chunkLen == old(chunkLen) - cut && chunkLen <= chunkBuf.Length
      ensures Abs() == old(Abs()).(buf := old(Abs()).buf[cut..])
      ensures ok ==> Holds(backend.held, codec, Chunk(h, cut, compressed), old(Abs()).buf[..cut])
      ensures ok ==> Unused(headChunks, h) && Unused(tailChunks, h)
      ensures old(backend.Calm()) ==> backend.Calm() && ok
      ensures old(stream) <= stream && pending == old(pending) + stream[|old(stream)|..]
      ensures |script| < |old(script)| || (script == old(script) && pending == old(pending))
      ensures totalBytes == |stream|
      ensures !err ==> HeadFirst(cfg, old(Abs())) && stream == Stream(old(Abs())) + pending
    {
      hide Concat, Holds, HeadFirst, Stream, Recorded, Lossless;
      var rest := Rest(cut);
      ghost var raw := Abs().buf[..cut];
      assert chunkBuf[..cut] == raw;
      ok, h := StoreChunk(cut, compressed);
      Unlocked();
      Continue(rest, cut);
    }

    /** The bytes behind the cut become the chunk buffer. */
    method Continue(rest: array<byte>, cut: nat)
      requires cut <= chunkLen <= chunkBuf.Length && chunkLen - cut <= rest.Length
      requires rest[..chunkLen - cut] == chunkBuf[cut..chunkLen]
      modifies `chunkBuf, `chunkLen
      ensures chunkBuf == rest && chunkLen == old(chunkLen) - cut
      ensures Abs() == old(Abs()).(buf := old(Abs()).buf[cut..])
    {
      ghost var buf := chunkBuf[..chunkLen];
      assert buf[cut..] == chunkBuf[cut..chunkLen];
      chunkBuf, chunkLen := rest, chunkLen - cut;
    }

    /** Routes a stored chunk to the head while it is filling, to the tail thereafter. */
    method RecordChunk(c: Chunk, ghost raw: bytes)
      requires backend.Valid() && Recorded() && chunkLen <= chunkBuf.Length
      requires Holds(backend.held, codec, c, raw) && Unused(headChunks, c.handle) && Unused(tailChunks, c.handle)
      modifies `headChunks, `headBytes, `headRaw, `tailChunks, `tailBytes, `tailRaw, `evicted, `err, backend
      ensures backend.Valid() && Recorded()
      ensures old(err) ==> err
      ensures old(backend.Calm()) ==> backend.Calm() && err == old(err)
      ensures var k := old(Abs());
              Abs() == if HeadBytes(k) < cfg.headSize then k.(head := k.head + [raw])
                       else Evict(cfg, k.(tail := k.tail + [raw]))
      ensures backend.Arrays() <= old(backend.Arrays())
    {
      hide Concat, Evict, Stored, Distinct, Unused;
      DistinctAppend(headChunks, tailChunks, c);
      if headBytes < cfg.headSize {
        ConcatSnoc(headRaw, raw);
        StoredAppend(backend.held, codec, headChunks, headRaw, c, raw);
        headChunks, headBytes := headChunks + [c], headBytes + c.rawLen;
        headRaw := headRaw + [raw];
        return;
      }
      ConcatSnoc(tailRaw, raw);
      StoredAppend(backend.held, codec, tailChunks, tailRaw, c, raw);
      tailChunks, tailBytes := tailChunks + [c], tailBytes + c.rawLen;
      tailRaw := tailRaw + [raw];
      EvictChunks();
    }

    /** Encodes and stores the first `cut` bytes; existing chunks stay where they are. */
    method StoreChunk(cut: nat, compressed: bool) returns (ok: bool, h: nat)
      requires Valid() && cut <= chunkLen
      modifies backend
      ensures Valid()
      ensures ok ==> Holds(backend.held, codec, Chunk(h, cut, compressed), chunkBuf[..cut])
      ensures ok ==> Unused(headChunks, h) && Unused(tailChunks, h)
      ensures old(backend.Calm()) ==> backend.Calm() && ok
      ensures forall a :: a in backend.Arrays() ==> a == chunkBuf || a in old(backend.Arrays()) || fresh(a)
    {
      hide Lossless, Stream, HeadFirst, Concat, Stored, Distinct, Unused;
      var data, len := Encoded(cut, compressed);
      ok, h := backend.Put(data, len);
      if ok {
        StoredPut(old(backend.held), codec, headChunks, headRaw, h, data[..len]);
        StoredPut(old(backend.held), codec, tailChunks, tailRaw, h, data[..len]);
      }
    }

    /** Drops the oldest trailing chunks while their removal still leaves at least `tailSize` bytes. */
    method EvictChunks()
      requires backend.Valid() && Recorded() && chunkLen <= chunkBuf.Length
      modifies `tailChunks, `tailBytes, `tailRaw, `evicted, `err, backend
      ensures backend.Valid() && Recorded()
      ensures old(err) ==> err
      ensures old(backend.Calm()) ==> backend.Calm() && err == old(err)
      ensures Abs() == Evict(cfg, old(Abs()))
      ensures backend.Arrays() <= old(backend.Arrays())
    {
      while |tailChunks| > 1 && tailBytes - tailChunks[0].rawLen >= cfg.tailSize
        invariant backend.Valid() && Recorded() && chunkLen <= chunkBuf.Length
        invariant old(err) ==> err
        invariant old(backend.Calm()) ==> backend.Calm() && err == old(err)
        invariant Evict(cfg, Abs()) == Evict(cfg, old(Abs()))
        invariant backend.Arrays() <= old(backend.Arrays())
        decreases |tailChunks|
      {
        DropOldest();
      }
    }

    method DropOldest()
      requires backend.Valid() && Recorded() && chunkLen <= chunkBuf.Length && |tailChunks| > 0
      modifies `tailChunks, `tailBytes, `tailRaw, `evicted, `err, backend
      ensures backend.Valid() && Recorded()
      ensures old(err) ==> err
      ensures old(backend.Calm()) ==> backend.Calm() && err == old(err)
      ensures |tailChunks| == |old(tailChunks)| - 1
      ensures Abs() == old(Abs()).(evicted := old(evicted) + [old(tailRaw)[0]], tail := old(tailRaw)[1..])
      ensures backend.Arrays() <= old(backend.Arrays())
    {
      hide Concat, Stored, Distinct, Unused;
      DistinctOldest(headChunks, tailChunks);
      StoredTail(backend.held, codec, tailChunks, tailRaw);
      StoredDrop(backend.held, codec, headChunks, headRaw, tailChunks[0].handle);
      StoredDrop(backend.held, codec, tailChunks[1..], tailRaw[1..], tailChunks[0].handle);
      var ok := backend.Drop(tailChunks[0].handle);
      if !ok {
        err := true;
      }
      ForgetOldest();
    }

    /** The oldest trailing chunk leaves the list; the others are still stored. */
    method ForgetOldest()
      requires |tailChunks| > 0 && |tailRaw| > 0 && tailChunks[0].rawLen == |tailRaw[0]|
      requires Stored(backend.held, codec, headChunks, headRaw)
      requires Stored(backend.held, codec, tailChunks[1..], tailRaw[1..])
      requires Distinct(headChunks, tailChunks[1..])
      requires headBytes == |Concat(headRaw)| && tailBytes == |Concat(tailRaw)|
      modifies `tailChunks, `tailBytes, `tailRaw, `evicted
      ensures Recorded() && tailChunks == old(tailChunks)[1..]
      ensures tailRaw == old(tailRaw)[1..] && evicted == old(evicted) + [old(tailRaw)[0]]
    {
      hide Concat, Stored, Distinct;
      ConcatHead(tailRaw);
      tailBytes := tailBytes - tailChunks[0].rawLen;
      tailChunks := tailChunks[1..];
      evicted := evicted + [tailRaw[0]];
      tailRaw := tailRaw[1..];
    }

    /** A batch has been taken off the pending bytes but not yet joined the chunk buffer. */
    ghost predicate Unbatched(buf: bytes)
      reads this, chunkBuf, backend, backend.Arrays()
    {
      && Usable(cfg) && Lossless(codec) && backend.Valid() && Recorded()
      && chunkLen <= chunkBuf.Length
      && totalBytes == |stream|
      && (!err ==> HeadFirst(cfg, Abs()) && stream == Stream(Abs()) + buf + pending)
    }

    method AppendChunkBuf(buf: bytes)
      requires Unbatched(buf) && Separate()
      modifies `chunkBuf, `chunkLen, chunkBuf
      ensures Valid() && Separate() && (chunkBuf == old(chunkBuf) || fresh(chunkBuf))
      ensures Abs() == Append(old(Abs()), buf)
    {
      hide Recorded, Stream, HeadFirst, Lossless;
      ghost var k := Abs();
      chunkBuf := AppendSlice(chunkBuf, chunkLen, buf);
      chunkLen := chunkLen + |buf|;
      AppendToKept(cfg, k, buf);
    }

    /**
     * Takes a batch into the chunk buffer and cuts off every full chunk. It
     * ends because each flush shortens the buffer. Without an error the result
     * is the batch fed to the retained state.
     */
    method ProcessBatch(buf: bytes)
      requires Unbatched(buf) && Separate()
      modifies this, backend, chunkBuf
      ensures Valid() && Separate() && (chunkBuf == old(chunkBuf) || fresh(chunkBuf))
      ensures old(err) ==> err
      ensures old(backend.Calm()) ==> backend.Calm() && err == old(err)
      ensures !err ==> Abs() == Feed(cfg, old(Abs()), buf)
      ensures old(stream) <= stream && pending == old(pending) + stream[|old(stream)|..]
      ensures |script| < |old(script)| || (script == old(script) && pending == old(pending))
      ensures (old(closed) ==> closed) && batches == old(batches)
    {
      hide Recorded, Lossless, Process, Stream, HeadFirst;
      AppendChunkBuf(buf);
      ghost var goal := Process(cfg, Abs());
      var more := true;
      while more
        invariant Valid() && Separate() && (chunkBuf == old(chunkBuf) || fresh(chunkBuf))
        invariant old(err) ==> err
        invariant old(backend.Calm()) ==> backend.Calm() && err == old(err)
        invariant !err ==> Process(cfg, Abs()) == goal
        invariant !err && !more ==> Abs() == goal
        invariant old(stream) <= stream && pending == old(pending) + stream[|old(stream)|..]
        invariant |script| < |old(script)| || (script == old(script) && pending == old(pending))
        invariant (old(closed) ==> closed) && batches == old(batches)
        decreases more, chunkLen
      {
        more := FlushOne();
      }
    }

    /** One round of the loop: flushes a chunk if one is due and a boundary exists. */
    method FlushOne() returns (flushed: bool)
      requires Valid() && Separate()
      modifies this, backend
      ensures Valid() && Separate() && (chunkBuf == old(chunkBuf) || fresh(chunkBuf))
      ensures old(err) ==> err
      ensures old(backend.Calm()) ==> backend.Calm() && err == old(err)
      ensures !err ==> Process(cfg, Abs()) == Process(cfg, old(Abs()))
      ensures !err && !flushed ==> Abs() == Process(cfg, Abs())
      ensures flushed ==> chunkLen < old(chunkLen)
      ensures !flushed ==> chunkLen == old(chunkLen)
      ensures old(stream) <= stream && pending == old(pending) + stream[|old(stream)|..]
      ensures |script| < |old(script)| || (script == old(script) && pending == old(pending))
      ensures (old(closed) ==> closed) && batches == old(batches)
    {
      hide Lossless, Stream, HeadFirst, Flush, Concat, Holds;
      var target := cfg.chunkSize;
      if 0 < cfg.headSize - headBytes < target {
        target := cfg.headSize - headBytes;
      }
      ghost var k := Abs();
      assert target == Target(cfg, k);
      hide Recorded, Target;
      if chunkLen < target {
        return false;
      }
      var cut := BoundaryCut(target);
      ProcessUnfolds(cfg, k);
      if cut <= 0 {
        return false;
      }
      var backlog := chunkLen - cut + |pending|;
      FlushChunk(cut, backlog);
      return true;
    }

    /** Between batches, what is retained is the batches taken so far, fed one by one. */
    ghost predicate Batched()
      reads `headRaw, `evicted, `tailRaw, `chunkBuf, `chunkLen, `batches, `stream, `err, `pending, chunkBuf
    {
      && chunkLen <= chunkBuf.Length
      && Usable(cfg)
      && (!err ==> Abs() == FeedAll(cfg, EMPTY, batches) && stream == Concat(batches) + pending)
    }

    /**
     * The background loop, until nothing is pending: it takes whatever has
     * accumulated as one batch, again and again, while the script keeps
     * writing. Then, without an error, what is retained is well formed, holds
     * the whole accepted stream, and on a stream without stray continuation
     * bytes depends on nothing but that stream: not on the writes, the
     * batches, the compression fallback or the backend.
     */
    method Drain()
      requires Valid() && Separate() && Batched()
      modifies this, backend, chunkBuf
      ensures Valid() && Separate() && Batched() && pending == [] && !busy
      ensures old(backend.Calm()) ==> backend.Calm() && err == old(err)
      ensures old(stream) <= stream && (old(closed) ==> closed)
      ensures !err ==> Wf(cfg, Abs()) && Stream(Abs()) == stream
      ensures !err && NoStray(stream) ==> Abs() == Feed(cfg, EMPTY, stream)
    {
      hide Recorded, Lossless, Conserved, FeedAll, Feed, NoStray, HeadFirst, Stream, Wf, Process;
      while |pending| > 0
        invariant Valid() && Separate() && Batched() && (chunkBuf == old(chunkBuf) || fresh(chunkBuf))
        invariant old(backend.Calm()) ==> backend.Calm() && err == old(err)
        invariant old(stream) <= stream && (old(closed) ==> closed)
        decreases |script|, |pending|
      {
        TakeBatch();
      }
      busy := false;
      if !err {
        FeedAllKeeps(cfg, batches);
        if NoStray(stream) {
          assert stream == Concat(batches);
          BatchingIsInvisible(cfg, batches);
        }
      }
    }

    method TakeBatch()
      requires Valid() && Separate() && Batched() && |pending| > 0
      modifies this, backend, chunkBuf
      ensures Valid() && Separate() && Batched() && (chunkBuf == old(chunkBuf) || fresh(chunkBuf))
      ensures old(backend.Calm()) ==> backend.Calm() && err == old(err)
      ensures old(stream) <= stream && (old(closed) ==> closed)
      ensures |script| < |old(script)| || (script == old(script) && pending == [])
    {
      hide Recorded, Lossless, FeedAll, Feed, HeadFirst, Stream, Concat;
      ghost var s, k := stream, Abs();
      var buf := pending;
      assert !err ==> k == FeedAll(cfg, EMPTY, batches) && s == Concat(batches) + buf;
      pending := [];
      assert Abs() == k;
      ProcessBatch(buf);
      ghost var before := batches;
      batches := batches + [buf];
      FeedAllSnoc(cfg, before, buf);
      assert stream == s + pending;
      assert !err ==> Abs() == Feed(cfg, k, buf) && stream == Concat(before) + buf + pending;
    }

    /** The raw bytes behind a list of chunks; unreadable chunks are skipped and the error sticks. */
    method DecodeChunks(chunks: seq<Chunk>, ghost raws: seq<bytes>) returns (out: bytes)
      requires backend.Valid() && Lossless(codec)
      requires Stored(backend.held, codec, chunks, raws)
      modifies `err, backend`faults
      ensures backend.Valid()
      ensures old(err) ==> err
      ensures old(backend.Calm()) ==> backend.Calm() && err == old(err)
      ensures !err ==> out == Concat(raws)
    {
      out := [];
      for i := 0 to |chunks|
        invariant backend.Valid()
        invariant old(err) ==> err
        invariant old(backend.Calm()) ==> backend.Calm() && err == old(err)
        invariant !err ==> out == Concat(raws[..i])
      {
        assert raws[..i + 1] == raws[..i] + [raws[i]];
        ConcatSnoc(raws[..i], raws[i]);
        assert Holds(backend.held, codec, chunks[i], raws[i]);
        var ok, data := backend.Get(chunks[i].handle);
        if !ok {
          err := true;
        } else if chunks[i].compressed {
          out := out + codec.decode(data);
        } else {
          out := out + data;
        }
      }
      assert raws[..|chunks|] == raws;
    }

    /** The snapshot of a quiescent store, as Retention defines it. */
    method TakeSnapshot() returns (out: bytes)
      requires Valid() && Batched() && !busy && pending == []
      modifies `err, backend`faults
      ensures Valid() && Abs() == old(Abs())
      ensures old(err) ==> err
      ensures old(backend.Calm()) ==> backend.Calm() && err == old(err)
      ensures !err ==> out == Snapshot(cfg, Abs(), totalBytes, notice)
    {
      hide Concat, Batched, TrimTail, Stream, HeadFirst, Recorded, Lossless;
      var head, tail := DecodeBoth();
      tail := Trimmed(tail);
      out := Assemble(head, tail);
    }

    method Trimmed(tail: bytes) returns (kept: bytes)
      ensures kept == TrimTail(cfg, tail)
    {
      kept := tail;
      if |tail| > cfg.tailSize {
        var cut := BoundaryTrim(tail, |tail| - cfg.tailSize);
        kept := tail[cut..];
      }
    }

    method Assemble(head: bytes, tail: bytes) returns (out: bytes)
      ensures out == head + (if totalBytes > |head| + |tail| then notice(totalBytes - |head| - |tail|) else []) + tail
    {
      var discarded := totalBytes - |head| - |tail|;
      out := head;
      if discarded > 0 {
        out := out + notice(discarded);
      }
      out := out + tail;
    }

    method DecodeBoth() returns (head: bytes, tail: bytes)
      requires Valid()
      modifies `err, backend`faults
      ensures Valid()
      ensures old(err) ==> err
      ensures old(backend.Calm()) ==> backend.Calm() && err == old(err)
      ensures !err ==> head == Concat(headRaw) && tail == Concat(tailRaw) + chunkBuf[..chunkLen]
    {
      hide Concat, Stream, HeadFirst, Holds;
      head := DecodeChunks(headChunks, headRaw);
      tail := DecodeChunks(tailChunks, tailRaw);
      tail := tail + chunkBuf[..chunkLen];
    }
  }

  lemma FeedAllSnoc(cfg: Config, batches: seq<bytes>, p: bytes)
    requires Usable(cfg)
    ensures FeedAll(cfg, EMPTY, batches + [p]) == Feed(cfg, FeedAll(cfg, EMPTY, batches), p)
    ensures Concat(batches + [p]) == Concat(batches) + p
  {
    assert (batches + [p])[..|batches|] == batches;
    ConcatSnoc(batches, p);
  }

  /**
   * Where the tail is trimmed. The tail begins at ground, so the first search
   * always succeeds, never beyond `want`: the program's fallback to the last
   * cut of the whole buffer is unreachable.
   */
  method BoundaryTrim(buf: bytes, want: nat) returns (off: nat)
    requires want <= |buf|
    ensures off == Largest(buf, want)
  {
    var sc := new Scanner();
    var cut := sc.SafeCut(buf, want);
    if cut < 0 {
      assert false;
    }
    assert cut > 0 ==> Admissible(buf, cut);
    assert forall n :: cut < n <= want ==> !Admissible(buf, n);
    return cut;
  }
}
