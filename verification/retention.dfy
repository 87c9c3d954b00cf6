/**
 * What the scrollback store retains, as a function of the stream: the leading
 * chunks, the chunks evicted from the middle, the trailing chunks, and the
 * bytes not yet cut into a chunk. `Feed` is one drained batch. The class in
 * store.dfy is proved to follow it.
 */
module Retention {
  import opened Bytes
  import opened VtScan
  import T = Tracker

  datatype Config = Config(headSize: nat, tailSize: nat, chunkSize: nat, fallbackBytes: nat)

  predicate Usable(cfg: Config) {
    cfg.headSize > 0 && cfg.tailSize > 0 && cfg.chunkSize > 0
  }

  datatype Kept = Kept(head: seq<bytes>, evicted: seq<bytes>, tail: seq<bytes>, buf: bytes)

  const EMPTY := Kept([], [], [], [])

  function HeadBytes(k: Kept): nat { |Concat(k.head)| }

  function TailBytes(k: Kept): nat { |Concat(k.tail)| }

  /** Every chunk ever cut, in order. */
  function Log(k: Kept): seq<bytes> { k.head + k.evicted + k.tail }

  function Stream(k: Kept): bytes { Concat(Log(k)) + k.buf }

  // ---- where a chunk may end

  predicate Admissible(buf: bytes, n: nat) {
    0 < n <= |buf| && Cuttable(START, buf, n)
  }

  /** The largest admissible cut in [1, m], or 0. */
  function Largest(buf: bytes, m: nat): (n: nat)
    requires m <= |buf|
    ensures n <= m && (n > 0 ==> Admissible(buf, n))
    ensures forall i :: n < i <= m ==> !Admissible(buf, i)
  {
    if m == 0 || Admissible(buf, m) then m else Largest(buf, m - 1)
  }

  /** The smallest admissible cut beyond m, or 0. */
  function Smallest(buf: bytes, m: nat): (n: nat)
    requires m <= |buf|
    ensures n > 0 ==> n > m && Admissible(buf, n) && forall i :: m < i < n ==> !Admissible(buf, i)
    ensures n == 0 ==> forall i :: m < i <= |buf| ==> !Admissible(buf, i)
    decreases |buf| - m
  {
    if m == |buf| then 0 else if Admissible(buf, m + 1) then m + 1 else Smallest(buf, m + 1)
  }

  /** The cut near `target`: the largest admissible one up to it, else the next beyond, else 0. */
  function CutAt(buf: bytes, target: nat): (n: nat)
    requires target <= |buf|
  {
    if Largest(buf, target) > 0 then Largest(buf, target) else Smallest(buf, target)
  }

  predicate IsCut(buf: bytes, target: nat, n: nat) {
    if n == 0 then forall i :: 0 < i <= |buf| ==> !Admissible(buf, i)
    else
      && Admissible(buf, n)
      && (n <= target ==> forall i :: n < i <= target && i <= |buf| ==> !Admissible(buf, i))
      && (n > target ==> forall i :: 0 < i < n ==> !Admissible(buf, i))
  }

  /** `IsCut` leaves no choice. */
  lemma CutIsUnique(buf: bytes, target: nat, n: nat)
    requires target <= |buf|
    ensures IsCut(buf, target, n) <==> n == CutAt(buf, target)
  {
    var c := CutAt(buf, target);
    if IsCut(buf, target, n) {
      if n > 0 && c > 0 {
        assert Admissible(buf, n) && Admissible(buf, c);
      }
    }
  }

  // ---- one drained batch

  function Target(cfg: Config, k: Kept): nat
    requires Usable(cfg)
    ensures Target(cfg, k) > 0
  {
    if 0 < cfg.headSize - HeadBytes(k) < cfg.chunkSize then cfg.headSize - HeadBytes(k) else cfg.chunkSize
  }

  /** Drops the oldest trailing chunks while enough remains without them. */
  function Evict(cfg: Config, k: Kept): Kept
    decreases |k.tail|
  {
    if |k.tail| > 1 && TailBytes(k) - |k.tail[0]| >= cfg.tailSize then
      Evict(cfg, k.(evicted := k.evicted + [k.tail[0]], tail := k.tail[1..]))
    else k
  }

  function Flush(cfg: Config, k: Kept, cut: nat): Kept
    requires cut <= |k.buf|
  {
    var rest := k.(buf := k.buf[cut..]);
    if HeadBytes(k) < cfg.headSize then rest.(head := k.head + [k.buf[..cut]])
    else Evict(cfg, rest.(tail := k.tail + [k.buf[..cut]]))
  }

  function Process(cfg: Config, k: Kept): Kept
    requires Usable(cfg)
    decreases |k.buf|
  {
    if |k.buf| < Target(cfg, k) then k
    else
      var cut := CutAt(k.buf, Target(cfg, k));
      if cut == 0 then k
      else
        FlushShape(cfg, k, cut);
        Process(cfg, Flush(cfg, k, cut))
  }

  function Feed(cfg: Config, k: Kept, p: bytes): Kept
    requires Usable(cfg)
  {
    Process(cfg, Append(k, p))
  }

  function Append(k: Kept, p: bytes): Kept {
    k.(buf := k.buf + p)
  }

  function FeedAll(cfg: Config, k: Kept, batches: seq<bytes>): Kept
    requires Usable(cfg)
  {
    if batches == [] then k
    else Feed(cfg, FeedAll(cfg, k, batches[..|batches| - 1]), batches[|batches| - 1])
  }

  // ---- what a flush does to the log

  lemma {:induction false} EvictShape(cfg: Config, k: Kept)
    ensures var e := Evict(cfg, k);
            && e.head == k.head && e.buf == k.buf && Log(e) == Log(k)
            && (|k.tail| > 0 ==> |e.tail| > 0)
            && (e.evicted != k.evicted ==> TailBytes(e) >= cfg.tailSize)
            && (e.evicted == k.evicted ==> e == k)
            && (|e.tail| > 1 ==> TailBytes(e) - |e.tail[0]| < cfg.tailSize)
    decreases |k.tail|
  {
    if |k.tail| > 1 && TailBytes(k) - |k.tail[0]| >= cfg.tailSize {
      var n := k.(evicted := k.evicted + [k.tail[0]], tail := k.tail[1..]);
      assert Log(n) == Log(k);
      assert TailBytes(n) == TailBytes(k) - |k.tail[0]|;
      EvictShape(cfg, n);
      EvictedGrows(cfg, n);
    }
  }

  lemma {:induction false} EvictedGrows(cfg: Config, k: Kept)
    ensures k.evicted <= Evict(cfg, k).evicted
    decreases |k.tail|
  {
    if |k.tail| > 1 && TailBytes(k) - |k.tail[0]| >= cfg.tailSize {
      EvictedGrows(cfg, k.(evicted := k.evicted + [k.tail[0]], tail := k.tail[1..]));
    }
  }

  lemma FlushShape(cfg: Config, k: Kept, cut: nat)
    requires cut <= |k.buf|
    ensures Flush(cfg, k, cut).buf == k.buf[cut..]
  {
    EvictShape(cfg, k.(buf := k.buf[cut..], tail := k.tail + [k.buf[..cut]]));
  }

  /** Nothing reaches the tail before the head is sealed. */
  predicate HeadFirst(cfg: Config, k: Kept) {
    k.tail + k.evicted != [] ==> HeadBytes(k) >= cfg.headSize
  }

  lemma FlushKeepsHeadFirst(cfg: Config, k: Kept, cut: nat)
    requires HeadFirst(cfg, k) && cut <= |k.buf|
    ensures HeadFirst(cfg, Flush(cfg, k, cut))
    ensures Log(Flush(cfg, k, cut)) == Log(k) + [k.buf[..cut]]
    ensures Stream(Flush(cfg, k, cut)) == Stream(k)
  {
    FlushShape(cfg, k, cut);
    EvictShape(cfg, k.(buf := k.buf[cut..], tail := k.tail + [k.buf[..cut]]));
    ConcatSnoc(Log(k), k.buf[..cut]);
    assert k.buf[..cut] + k.buf[cut..] == k.buf;
  }

  /** Cutting, routing and evicting never lose or reorder a byte, and never rewrite the log. */
  lemma {:induction false} ProcessKeepsStream(cfg: Config, k: Kept)
    requires Usable(cfg) && HeadFirst(cfg, k)
    ensures var p := Process(cfg, k);
            HeadFirst(cfg, p) && Stream(p) == Stream(k) && Log(k) <= Log(p)
    decreases |k.buf|
  {
    if |k.buf| >= Target(cfg, k) {
      var cut := CutAt(k.buf, Target(cfg, k));
      if cut > 0 {
        FlushKeepsHeadFirst(cfg, k, cut);
        FlushShape(cfg, k, cut);
        ProcessKeepsStream(cfg, Flush(cfg, k, cut));
      }
    }
  }

  // ---- where a stream is cut

  /** How long the next chunk should be, with `done` bytes cut before it: a full chunk, or what the head still lacks. */
  function Room(cfg: Config, done: nat): int {
    if done < cfg.headSize && cfg.headSize - done < cfg.chunkSize then cfg.headSize - done else cfg.chunkSize
  }

  /**
   * `s`, with `done` bytes before it, falls into these chunks: each ends at the
   * documented cut of what begins with it, and what is left is too short for
   * another or has no cut.
   */
  predicate CutInto(cfg: Config, done: nat, s: bytes, chunks: seq<bytes>, left: bytes)
    decreases |chunks|
  {
    if chunks == [] then
      left == s && (|s| < Room(cfg, done) || IsCut(s, if Room(cfg, done) > 0 then Room(cfg, done) else 0, 0))
    else
      var c := chunks[0];
      && c != [] && c <= s && 0 < Room(cfg, done) <= |s| && IsCut(s, Room(cfg, done), |c|)
      && CutInto(cfg, done + |c|, s[|c|..], chunks[1..], left)
  }

  lemma TargetIsRoom(cfg: Config, k: Kept)
    requires Usable(cfg) && HeadFirst(cfg, k)
    ensures Target(cfg, k) == Room(cfg, |Concat(Log(k))|)
  {
    ConcatAppend(k.head, k.evicted + k.tail);
    assert Log(k) == k.head + (k.evicted + k.tail);
    if HeadBytes(k) < cfg.headSize {
      assert k.evicted + k.tail == [];
      assert Log(k) == k.head;
    }
  }

  /** What a batch adds to the log are the documented cuts of what was buffered, all of them, in order. */
  lemma {:induction false} ProcessCuts(cfg: Config, k: Kept)
    requires Usable(cfg) && HeadFirst(cfg, k)
    ensures var p := Process(cfg, k);
            Log(k) <= Log(p) && CutInto(cfg, |Concat(Log(k))|, k.buf, Log(p)[|Log(k)|..], p.buf)
    decreases |k.buf|
  {
    hide Concat, IsCut, CutAt, HeadFirst, Log, Flush, Target;
    TargetIsRoom(cfg, k);
    ProcessKeepsStream(cfg, k);
    var p := Process(cfg, k);
    if |k.buf| < Target(cfg, k) {
      assert Log(p)[|Log(k)|..] == [];
    } else {
      var cut := CutAt(k.buf, Target(cfg, k));
      CutIsUnique(k.buf, Target(cfg, k), cut);
      if cut == 0 {
        assert Log(p)[|Log(k)|..] == [];
      } else {
        CutWithin(k.buf, Target(cfg, k));
        var f := Flush(cfg, k, cut);
        FlushShape(cfg, k, cut);
        FlushKeepsHeadFirst(cfg, k, cut);
        ProcessCuts(cfg, f);
        ConcatSnoc(Log(k), k.buf[..cut]);
        OneMoreCut(cfg, Log(k), k.buf, cut, Log(p), p.buf);
      }
    }
  }

  lemma CutWithin(buf: bytes, target: nat)
    requires target <= |buf|
    ensures CutAt(buf, target) <= |buf|
  {
  }

  lemma OneMoreCut(cfg: Config, log: seq<bytes>, buf: bytes, cut: nat, all: seq<bytes>, left: bytes)
    requires 0 < cut <= |buf| && 0 < Room(cfg, |Concat(log)|) <= |buf| && IsCut(buf, Room(cfg, |Concat(log)|), cut)
    requires log + [buf[..cut]] <= all && |Concat(log + [buf[..cut]])| == |Concat(log)| + cut
    requires CutInto(cfg, |Concat(log)| + cut, buf[cut..], all[|log| + 1..], left)
    ensures CutInto(cfg, |Concat(log)|, buf, all[|log|..], left)
  {
    hide IsCut, Concat;
    var chunks := all[|log|..];
    assert chunks[0] == all[|log|] == (log + [buf[..cut]])[|log|];
    assert chunks[1..] == all[|log| + 1..];
  }

  /**
   * Which chunks a stream without stray continuation bytes is kept in, however
   * it was batched: it falls, from its beginning, into the documented cuts.
   */
  lemma StreamIsCut(cfg: Config, batches: seq<bytes>)
    requires Usable(cfg) && NoStray(Concat(batches))
    ensures var k := FeedAll(cfg, EMPTY, batches);
            CutInto(cfg, 0, Concat(batches), Log(k), k.buf)
  {
    hide Process, NoStray, CutInto;
    BatchingIsInvisible(cfg, batches);
    var s := Append(EMPTY, Concat(batches));
    assert s.buf == Concat(batches) && Log(s) == [];
    NothingKept();
    ProcessCuts(cfg, s);
    var log := Log(Process(cfg, s));
    assert log[0..] == log;
  }

  // ---- batching does not matter

  /** No rune begins with a continuation byte: a ground position is never followed by one. */
  predicate NoStray(p: bytes) {
    forall n :: 0 <= n < |p| && GroundAt(p, n) ==> RuneStart(p[n])
  }

  lemma AdmissibleInside(b: bytes, more: bytes, n: nat)
    requires n < |b|
    ensures Admissible(b + more, n) == Admissible(b, n)
  {
    assert (b + more)[..n] == b[..n];
    AfterPrefix(START, b, b + more, n);
    assert (b + more)[n] == b[n];
  }

  lemma AdmissibleAtEnd(b: bytes, more: bytes)
    requires |b| > 0
    ensures Admissible(b + more, |b|) == (GroundAt(b, |b|) && (more == [] || RuneStart(more[0])))
    ensures Admissible(b, |b|) == GroundAt(b, |b|)
  {
    assert (b + more)[..|b|] == b == b[..|b|];
    AfterPrefix(START, b, b + more, |b|);
    assert more != [] ==> (b + more)[|b|] == more[0];
  }

  /** More input behind the buffer leaves its cut alone, except one at its very end before a stray byte. */
  lemma CutIsStable(b: bytes, more: bytes, target: nat)
    requires target <= |b| && CutAt(b, target) > 0
    ensures CutAt(b + more, target) == CutAt(b, target) <==>
            !(CutAt(b, target) == |b| && more != [] && Continuation(more[0]))
  {
    var c := CutAt(b, target);
    CutIsUnique(b, target, c);
    AdmissibleAtEnd(b, more);
    forall i | 0 < i < |b|
      ensures Admissible(b + more, i) == Admissible(b, i)
    {
      AdmissibleInside(b, more, i);
    }
    if CutAt(b, target) == |b| && more != [] && Continuation(more[0]) {
      CutIsUnique(b + more, target, CutAt(b + more, target));
      assert !Admissible(b + more, |b|);
    } else {
      assert IsCut(b + more, target, c);
      CutIsUnique(b + more, target, c);
    }
  }

  lemma FlushAppend(cfg: Config, k: Kept, cut: nat, more: bytes)
    requires cut <= |k.buf|
    ensures Flush(cfg, Append(k, more), cut) == Append(Flush(cfg, k, cut), more)
  {
    var b := k.buf + more;
    assert b[..cut] == k.buf[..cut] && b[cut..] == k.buf[cut..] + more;
    EvictAppend(cfg, k.(buf := k.buf[cut..], tail := k.tail + [k.buf[..cut]]), more);
  }

  lemma {:induction false} EvictAppend(cfg: Config, k: Kept, more: bytes)
    ensures Evict(cfg, Append(k, more)) == Append(Evict(cfg, k), more)
    decreases |k.tail|
  {
    if |k.tail| > 1 && TailBytes(k) - |k.tail[0]| >= cfg.tailSize {
      EvictAppend(cfg, k.(evicted := k.evicted + [k.tail[0]], tail := k.tail[1..]), more);
    }
  }

  /** The batch just processed ended exactly on a chunk end, and the next begins with a stray byte. */
  predicate StrayBehindChunk(before: Kept, after: Kept, more: bytes) {
    after.buf == [] && Log(after) != Log(before) && more != [] && Continuation(more[0])
  }

  /**
   * Two batches leave what one batch of both would leave, chunk for chunk, if
   * and only if the first did not end on a chunk end with a stray continuation
   * byte behind it: the end of a buffer skips the rune test.
   */
  lemma {:induction false} SplitAgreesIff(cfg: Config, k: Kept, more: bytes)
    requires Usable(cfg) && HeadFirst(cfg, k)
    ensures var first := Process(cfg, k);
            && (!StrayBehindChunk(k, first, more) ==> Feed(cfg, first, more) == Process(cfg, Append(k, more)))
            && (StrayBehindChunk(k, first, more) ==> Log(Feed(cfg, first, more)) != Log(Process(cfg, Append(k, more))))
    decreases |k.buf|
  {
    if |k.buf| >= Target(cfg, k) && CutAt(k.buf, Target(cfg, k)) > 0 {
      var target := Target(cfg, k);
      var cut := CutAt(k.buf, target);
      var f := Flush(cfg, k, cut);
      FlushShape(cfg, k, cut);
      FlushKeepsHeadFirst(cfg, k, cut);
      CutIsStable(k.buf, more, target);
      ProcessKeepsStream(cfg, f);
      assert Process(cfg, k) == Process(cfg, f);
      assert Log(Process(cfg, k)) != Log(k);
      if cut == |k.buf| && more != [] && Continuation(more[0]) {
        assert f.buf == [] && Process(cfg, f) == f;
        StrayDiverges(cfg, k, more);
      } else {
        FlushAppend(cfg, k, cut, more);
        assert Target(cfg, Append(k, more)) == target;
        assert Process(cfg, Append(k, more)) == Process(cfg, Append(f, more));
        SplitAgreesIff(cfg, f, more);
        if Process(cfg, f).buf == [] && Log(Process(cfg, f)) == Log(f) {
          NoFlushNoChange(cfg, f);
          assert f.buf == [];
          assert cut == |k.buf|;
        }
      }
    }
  }

  lemma NoFlushNoChange(cfg: Config, k: Kept)
    requires Usable(cfg) && HeadFirst(cfg, k) && Log(Process(cfg, k)) == Log(k)
    ensures Process(cfg, k) == k
  {
    if |k.buf| >= Target(cfg, k) && CutAt(k.buf, Target(cfg, k)) > 0 {
      var cut := CutAt(k.buf, Target(cfg, k));
      FlushKeepsHeadFirst(cfg, k, cut);
      ProcessKeepsStream(cfg, Flush(cfg, k, cut));
    }
  }

  const FOUR_BYTES := Config(100, 1, 4, 4)

  /** One such pair: with chunks of four bytes, "abcd" and then a stray byte, against both at once. */
  lemma StrayWitness()
    ensures FeedAll(FOUR_BYTES, EMPTY, [Ascii("abcd"), [0x80]]) == Kept([Ascii("abcd")], [], [], [0x80])
    ensures Feed(FOUR_BYTES, EMPTY, Ascii("abcd") + [0x80]) == Kept([Ascii("abc")], [], [], Ascii("d") + [0x80])
  {
    hide Feed, FeedAll;
    var a, b: bytes := Ascii("abcd"), [0x80];
    assert Plain(a);
    TwoBatches(a, b);
    OneBatch(a, b);
    assert a[..3] == Ascii("abc") && a[3..] == Ascii("d");
  }

  lemma TwoBatches(a: bytes, b: bytes)
    requires |a| == 4 && Plain(a) && |b| == 1
    ensures FeedAll(FOUR_BYTES, EMPTY, [a, b]) == Kept([a], [], [], b)
  {
    hide After, Admissible, CutAt;
    PlainStaysGround(a, 4);
    assert CutAt(a, 4) == 4 by {
      WholeIsCut(a);
    }
    assert a[..4] == a && a[4..] == [];
    assert Append(EMPTY, a) == Kept([], [], [], a);
    NoBytes();
    OneChunk(a);
    assert Flush(FOUR_BYTES, Append(EMPTY, a), 4) == Kept([a], [], [], []);
    assert Process(FOUR_BYTES, Kept([a], [], [], [])) == Kept([a], [], [], []);
    assert Feed(FOUR_BYTES, EMPTY, a) == Kept([a], [], [], []);
    var first := Kept([a], [], [], []);
    assert Append(first, b) == Kept([a], [], [], b);
    assert Feed(FOUR_BYTES, first, b) == Kept([a], [], [], b);
    assert [a, b][..1] == [a] && [a][..0] == [];
    hide Feed;
    assert FeedAll(FOUR_BYTES, EMPTY, [a]) == Feed(FOUR_BYTES, FeedAll(FOUR_BYTES, EMPTY, []), a);
    assert FeedAll(FOUR_BYTES, EMPTY, [a, b]) == Feed(FOUR_BYTES, FeedAll(FOUR_BYTES, EMPTY, [a]), b);
  }

  lemma WholeIsCut(a: bytes)
    requires |a| > 0 && GroundAt(a, |a|)
    ensures CutAt(a, |a|) == |a|
  {
    assert Admissible(a, |a|);
  }

  lemma OneBatch(a: bytes, b: bytes)
    requires |a| == 4 && Plain(a) && |b| == 1 && Continuation(b[0])
    ensures Feed(FOUR_BYTES, EMPTY, a + b) == Kept([a[..3]], [], [], a[3..] + b)
  {
    hide After, Admissible, CutAt, Plain, Concat;
    var w := a + b;
    StrayCut(a, b);
    assert Append(EMPTY, w) == Kept([], [], [], w);
    assert w[..3] == a[..3] && w[3..] == a[3..] + b;
    NoBytes();
    OneChunk(a[..3]);
    assert Flush(FOUR_BYTES, Append(EMPTY, w), 3) == Kept([a[..3]], [], [], a[3..] + b);
    assert Process(FOUR_BYTES, Kept([a[..3]], [], [], a[3..] + b)) == Kept([a[..3]], [], [], a[3..] + b);
  }

  lemma NoBytes()
    ensures HeadBytes(EMPTY) == 0
  {
  }

  lemma OneChunk(c: bytes)
    ensures [] + [c] == [c] && Concat([c]) == c
  {
    assert [c][1..] == [];
  }

  /** The cut before the last byte that is not followed by the stray one. */
  lemma StrayCut(a: bytes, b: bytes)
    requires |a| == 4 && Plain(a) && |b| == 1 && Continuation(b[0])
    ensures CutAt(a + b, 4) == 3
  {
    var w := a + b;
    PlainStaysGround(a, 3);
    assert w[..3] == a[..3];
    AfterPrefix(START, a, w, 3);
    assert Admissible(w, 3);
    assert !Admissible(w, 4);
  }

  lemma StrayDiverges(cfg: Config, k: Kept, more: bytes)
    requires Usable(cfg) && HeadFirst(cfg, k)
    requires |k.buf| >= Target(cfg, k) && CutAt(k.buf, Target(cfg, k)) == |k.buf|
    requires more != [] && Continuation(more[0])
    ensures Log(Feed(cfg, Flush(cfg, k, |k.buf|), more)) != Log(Process(cfg, Append(k, more)))
  {
    var target := Target(cfg, k);
    var n := |Log(k)|;
    var f := Flush(cfg, k, |k.buf|);
    FlushKeepsHeadFirst(cfg, k, |k.buf|);
    ProcessKeepsStream(cfg, Append(f, more));
    var one := Log(Feed(cfg, f, more));
    assert Log(f) <= one;
    assert one[n] == Log(f)[n] == k.buf[..|k.buf|];
    var j := Append(k, more);
    assert Target(cfg, j) == target;
    CutIsStable(k.buf, more, target);
    var cut := CutAt(j.buf, target);
    if cut > 0 {
      FlushKeepsHeadFirst(cfg, j, cut);
      ProcessKeepsStream(cfg, Flush(cfg, j, cut));
      var other := Log(Process(cfg, j));
      assert Log(Flush(cfg, j, cut)) <= other;
      assert other[n] == Log(Flush(cfg, j, cut))[n] == j.buf[..cut];
    }
  }

  lemma NoStrayPrefix(p: bytes, n: nat)
    requires n <= |p| && NoStray(p)
    ensures NoStray(p[..n])
  {
    forall i | 0 <= i < n && GroundAt(p[..n], i)
      ensures RuneStart(p[..n][i])
    {
      assert p[..n][..i] == p[..i];
      AfterPrefix(START, p[..n], p, i);
    }
  }

  // ---- what holds of every retained state

  predicate LogAligned(k: Kept) {
    forall i :: 0 <= i < |Log(k)| ==> |Log(k)[i]| > 0 && Aligned(Log(k)[i])
  }

  /** A chunk that no admissible cut divides. */
  predicate Unsplittable(chunk: bytes) {
    forall n :: 0 < n < |chunk| ==> !(GroundAt(chunk, n) && RuneStart(chunk[n]))
  }

  /** The head is sealed by the chunk that reaches its size, and overshoots only if that chunk cannot be divided. */
  predicate HeadTight(cfg: Config, k: Kept) {
    k.head != [] ==>
      var last := k.head[|k.head| - 1];
      && HeadBytes(k) - |last| < cfg.headSize
      && (HeadBytes(k) > cfg.headSize ==> Unsplittable(last))
  }

  /** The tail is what eviction leaves: enough, and no whole chunk more than enough. */
  predicate TailTight(cfg: Config, k: Kept) {
    && (k.evicted != [] ==> TailBytes(k) >= cfg.tailSize)
    && (|k.tail| > 1 ==> TailBytes(k) - |k.tail[0]| < cfg.tailSize)
  }

  predicate Wf(cfg: Config, k: Kept) {
    HeadFirst(cfg, k) && LogAligned(k) && HeadTight(cfg, k) && TailTight(cfg, k)
  }

  /** Nothing more can be cut: too little is buffered, or no admissible cut exists yet. */
  predicate Settled(cfg: Config, k: Kept)
    requires Usable(cfg)
  {
    |k.buf| < Target(cfg, k) || forall n :: 0 < n <= |k.buf| ==> !Admissible(k.buf, n)
  }

  lemma EmptyWf(cfg: Config)
    requires Usable(cfg)
    ensures Wf(cfg, EMPTY)
  {
  }

  lemma FlushKeepsWf(cfg: Config, k: Kept)
    requires Usable(cfg) && Wf(cfg, k) && |k.buf| >= Target(cfg, k) && CutAt(k.buf, Target(cfg, k)) > 0
    ensures Wf(cfg, Flush(cfg, k, CutAt(k.buf, Target(cfg, k))))
  {
    hide LogAligned, HeadTight, TailTight, Log;
    FlushKeepsHeadFirst(cfg, k, CutAt(k.buf, Target(cfg, k)));
    FlushKeepsLogAligned(cfg, k);
    FlushKeepsHeadTight(cfg, k);
    FlushKeepsTailTight(cfg, k, CutAt(k.buf, Target(cfg, k)));
  }

  lemma FlushKeepsLogAligned(cfg: Config, k: Kept)
    requires Usable(cfg) && HeadFirst(cfg, k) && LogAligned(k)
    requires |k.buf| >= Target(cfg, k) && CutAt(k.buf, Target(cfg, k)) > 0
    ensures LogAligned(Flush(cfg, k, CutAt(k.buf, Target(cfg, k))))
  {
    var cut := CutAt(k.buf, Target(cfg, k));
    var chunk := k.buf[..cut];
    FlushKeepsHeadFirst(cfg, k, cut);
    AfterPrefix(START, k.buf, chunk, cut);
    hide After, Flush, Log;
    assert Aligned(chunk);
  }

  lemma FlushKeepsTailTight(cfg: Config, k: Kept, cut: nat)
    requires Usable(cfg) && TailTight(cfg, k) && HeadFirst(cfg, k) && cut <= |k.buf|
    ensures TailTight(cfg, Flush(cfg, k, cut))
  {
    var chunk := k.buf[..cut];
    var n := k.(buf := k.buf[cut..], tail := k.tail + [chunk]);
    EvictShape(cfg, n);
    ConcatSnoc(k.tail, chunk);
  }

  lemma FlushKeepsHeadTight(cfg: Config, k: Kept)
    requires Usable(cfg) && HeadTight(cfg, k)
    requires |k.buf| >= Target(cfg, k) && CutAt(k.buf, Target(cfg, k)) > 0
    ensures HeadTight(cfg, Flush(cfg, k, CutAt(k.buf, Target(cfg, k))))
  {
    var target := Target(cfg, k);
    var cut := CutAt(k.buf, target);
    var chunk := k.buf[..cut];
    EvictShape(cfg, k.(buf := k.buf[cut..], tail := k.tail + [chunk]));
    ConcatSnoc(k.head, chunk);
    if HeadBytes(k) < cfg.headSize && cut > target {
      BeyondIsUnsplittable(k.buf, target, cut);
    }
  }

  /** A cut beyond the target has no admissible cut before it. */
  lemma BeyondIsUnsplittable(buf: bytes, target: nat, cut: nat)
    requires target < cut <= |buf| && cut == CutAt(buf, target)
    ensures Unsplittable(buf[..cut])
  {
    CutIsUnique(buf, target, cut);
    var chunk := buf[..cut];
    forall n | 0 < n < |chunk|
      ensures !(GroundAt(chunk, n) && RuneStart(chunk[n]))
    {
      assert !Admissible(buf, n);
      assert chunk[..n] == buf[..n];
      AfterPrefix(START, chunk, buf, n);
    }
  }

  /** Every batch leaves a well-formed, settled state. */
  lemma {:induction false} ProcessKeepsWf(cfg: Config, k: Kept)
    requires Usable(cfg) && Wf(cfg, k)
    ensures Wf(cfg, Process(cfg, k)) && Settled(cfg, Process(cfg, k))
    decreases |k.buf|
  {
    if |k.buf| >= Target(cfg, k) {
      var cut := CutAt(k.buf, Target(cfg, k));
      CutIsUnique(k.buf, Target(cfg, k), cut);
      if cut > 0 {
        FlushShape(cfg, k, cut);
        FlushKeepsWf(cfg, k);
        ProcessKeepsWf(cfg, Flush(cfg, k, cut));
      }
    }
  }

  lemma AppendKeepsWf(cfg: Config, k: Kept, p: bytes)
    requires Wf(cfg, k)
    ensures Wf(cfg, Append(k, p)) && Stream(Append(k, p)) == Stream(k) + p
  {
    hide Concat, Aligned, GroundAt, Unsplittable;
    assert Log(Append(k, p)) == Log(k);
    Reassociate(Concat(Log(k)), k.buf, p);
  }

  lemma EmptyStream()
    ensures Stream(EMPTY) == []
  {
  }

  lemma WfHeadFirst(cfg: Config, k: Kept)
    ensures Wf(cfg, k) ==> HeadFirst(cfg, k)
  {
  }

  lemma {:induction false} FeedAllKeeps(cfg: Config, batches: seq<bytes>)
    requires Usable(cfg)
    ensures var k := FeedAll(cfg, EMPTY, batches);
            Wf(cfg, k) && Stream(k) == Concat(batches)
  {
    hide Process, Wf, Stream;
    if batches == [] {
      EmptyWf(cfg);
      EmptyStream();
    } else {
      var before := batches[..|batches| - 1];
      var p := batches[|batches| - 1];
      FeedAllKeeps(cfg, before);
      WfHeadFirst(cfg, Append(FeedAll(cfg, EMPTY, before), p));
      var k := FeedAll(cfg, EMPTY, before);
      AppendKeepsWf(cfg, k, p);
      ProcessKeepsWf(cfg, Append(k, p));
      ProcessKeepsStream(cfg, Append(k, p));
      assert before + [p] == batches;
      ConcatSnoc(before, p);
    }
  }

  // ---- chunk ends in the whole stream

  lemma {:induction false} ConcatAligned(chunks: seq<bytes>)
    requires forall i :: 0 <= i < |chunks| ==> Aligned(chunks[i])
    ensures Aligned(Concat(chunks))
  {
    if chunks != [] {
      ConcatAligned(chunks[1..]);
      AfterConcat(START, chunks[0], Concat(chunks[1..]), |Concat(chunks[1..])|);
    }
  }

  /**
   * Although every cut restarts a fresh scanner, each chunk end is a ground
   * position of one scanner run over the whole stream.
   */
  lemma ChunkEndsAreGround(k: Kept, i: nat)
    requires LogAligned(k) && i <= |Log(k)|
    ensures |Concat(Log(k)[..i])| <= |Stream(k)| && GroundAt(Stream(k), |Concat(Log(k)[..i])|)
  {
    var before := Log(k)[..i];
    assert before + Log(k)[i..] == Log(k);
    ConcatAppend(before, Log(k)[i..]);
    ConcatAligned(before);
    var s := Stream(k);
    var p := Concat(before);
    assert s == p + (Concat(Log(k)[i..]) + k.buf);
    assert s[..|p|] == p[..|p|];
    AfterPrefix(START, p, s, |p|);
  }

  lemma NeverStray(cfg: Config, s: bytes, p: bytes)
    requires Usable(cfg) && NoStray(s + p)
    ensures var k := Append(EMPTY, s); !StrayBehindChunk(k, Process(cfg, k), p)
  {
    hide NoStray, GroundAt, Process, Log, Wf, Stream;
    var k := Append(EMPTY, s);
    var first := Process(cfg, k);
    FirstBatch(cfg, s);
    if first.buf == [] && p != [] {
      EmptyBufferIsGround(cfg, first);
      NothingStrayBehind(s, p);
    }
  }

  lemma FirstBatch(cfg: Config, s: bytes)
    requires Usable(cfg)
    ensures var first := Process(cfg, Append(EMPTY, s));
            Wf(cfg, first) && Stream(first) == s
  {
    hide Process, LogAligned, HeadTight, TailTight;
    EmptyWf(cfg);
    AppendKeepsWf(cfg, EMPTY, s);
    ProcessKeepsWf(cfg, Append(EMPTY, s));
    ProcessKeepsStream(cfg, Append(EMPTY, s));
    EmptyStream();
    assert Log(EMPTY) == [];
    assert Stream(Append(EMPTY, s)) == s;
  }

  lemma EmptyBufferIsGround(cfg: Config, k: Kept)
    requires Wf(cfg, k) && k.buf == []
    ensures GroundAt(Stream(k), |Stream(k)|)
  {
    hide GroundAt, HeadTight, TailTight, HeadFirst;
    ChunkEndsAreGround(k, |Log(k)|);
    assert Log(k)[..|Log(k)|] == Log(k);
  }

  lemma NothingStrayBehind(s: bytes, p: bytes)
    requires NoStray(s + p) && GroundAt(s, |s|) && p != []
    ensures RuneStart(p[0])
  {
    assert (s + p)[..|s|] == s[..|s|];
    AfterPrefix(START, s, s + p, |s|);
    assert GroundAt(s + p, |s|) && (s + p)[|s|] == p[0];
  }

  /**
   * Confluence: on a stream without stray continuation bytes, what is retained
   * depends on the stream alone, not on how it was batched.
   */
  lemma {:induction false} BatchingIsInvisible(cfg: Config, batches: seq<bytes>)
    requires Usable(cfg) && NoStray(Concat(batches))
    ensures FeedAll(cfg, EMPTY, batches) == Feed(cfg, EMPTY, Concat(batches))
  {
    if batches != [] {
      var before := batches[..|batches| - 1];
      var p := batches[|batches| - 1];
      assert before + [p] == batches;
      ConcatSnoc(before, p);
      var s := Concat(before);
      assert (s + p)[..|s|] == s;
      NoStrayPrefix(s + p, |s|);
      BatchingIsInvisible(cfg, before);
      var k := Append(EMPTY, s);
      EmptyWf(cfg);
      AppendKeepsWf(cfg, EMPTY, s);
      SplitAgreesIff(cfg, k, p);
      NeverStray(cfg, s, p);
      assert Append(Append(EMPTY, s), p) == Append(EMPTY, s + p);
    } else {
      assert Append(EMPTY, []) == EMPTY;
      assert |EMPTY.buf| < Target(cfg, EMPTY);
    }
  }

  // ---- snapshots

  /** The retained tail, trimmed at a ground position near the last `tailSize` bytes. */
  function KeptTail(cfg: Config, k: Kept): bytes {
    TrimTail(cfg, Concat(k.tail) + k.buf)
  }

  function TrimTail(cfg: Config, tail: bytes): bytes {
    if |tail| > cfg.tailSize then tail[Largest(tail, |tail| - cfg.tailSize)..] else tail
  }

  /** Head, truncation notice if anything is missing, tail; `total` counts every byte ever accepted. */
  function Snapshot(cfg: Config, k: Kept, total: nat, notice: nat -> bytes): bytes {
    var head, tail := Concat(k.head), KeptTail(cfg, k);
    head + (if total > |head| + |tail| then notice(total - |head| - |tail|) else []) + tail
  }

  /** The stream splits at a ground position into head and evicted chunks, and what is still there behind them. */
  lemma FrontAndRest(k: Kept)
    requires LogAligned(k)
    ensures var front := Concat(k.head + k.evicted);
            && Stream(k) == front + (Concat(k.tail) + k.buf)
            && GroundAt(Stream(k), |front|)
            && |front| >= HeadBytes(k)
            && (k.evicted == [] ==> |front| == HeadBytes(k))
  {
    var front := k.head + k.evicted;
    ConcatAppend(front, k.tail);
    ConcatAppend(k.head, k.evicted);
    assert Log(k)[..|front|] == front;
    ChunkEndsAreGround(k, |front|);
  }

  lemma SuffixOf(s: bytes, front: bytes, full: bytes, n: nat)
    requires s == front + full && n <= |full| && GroundAt(s, |front|) && (n == 0 || Admissible(full, n))
    ensures full[n..] == s[|front| + n..] && GroundAt(s, |front| + n)
  {
    assert s[|front|..] == full;
    GroundRestart(s, |front|, n);
  }

  /** No shorter suffix of `s` still has `m` bytes and begins where a stream may be cut. */
  predicate NoShorter(s: bytes, t: nat, m: nat) {
    forall n :: |s| - t < n <= |s| - m && n >= 0 ==> !(GroundAt(s, n) && (n == |s| || RuneStart(s[n])))
  }

  lemma CutsBehind(s: bytes, front: bytes, full: bytes, n: nat, m: nat)
    requires s == front + full && n <= |full| && GroundAt(s, |front|)
    requires forall i :: n < i <= |full| - m ==> !Admissible(full, i)
    ensures NoShorter(s, |full| - n, m)
  {
    hide After;
    assert s[|front|..] == full;
    forall i: nat | |front| + n < i <= |s| - m && i <= |s|
      ensures !(GroundAt(s, i) && (i == |s| || RuneStart(s[i])))
    {
      var j := i - |front|;
      GroundRestart(s, |front|, j);
      assert i < |s| ==> full[j] == s[i];
      assert !Admissible(full, j);
    }
  }

  /** Text in which every position will do is trimmed to exactly `tailSize` bytes. */
  lemma PlainTailIsExact(cfg: Config, k: Kept, notice: nat -> bytes)
    requires Usable(cfg) && Wf(cfg, k) && HeadBytes(k) >= cfg.headSize
    requires Plain(Stream(k)) && |Stream(k)| - HeadBytes(k) >= cfg.tailSize
    ensures var s, h := Stream(k), HeadBytes(k);
            var missing := |s| - h - cfg.tailSize;
            Snapshot(cfg, k, |s|, notice) == s[..h] + (if missing > 0 then notice(missing) else []) + s[|s| - cfg.tailSize..]
  {
    hide GroundAt, KeptTail, Stream, Wf, HeadBytes;
    SealedSnapshot(cfg, k, notice);
    var s, t := Stream(k), |KeptTail(cfg, k)|;
    PlainStaysGround(s, |s| - cfg.tailSize);
    assert RuneStart(s[|s| - cfg.tailSize]);
  }

  /** The tail of a snapshot: a suffix of the stream, long enough, and the shortest such that begins at a cut. */
  lemma TailIsSuffix(cfg: Config, k: Kept)
    requires Usable(cfg) && Wf(cfg, k)
    ensures var s, t := Stream(k), KeptTail(cfg, k);
            && |t| <= |s| - HeadBytes(k)
            && t == s[|s| - |t|..]
            && GroundAt(s, |s| - |t|)
            && (|t| >= cfg.tailSize || (k.evicted == [] && |t| == |s| - HeadBytes(k)))
            && NoShorter(s, |t|, cfg.tailSize)
  {
    hide GroundAt, After, Concat, Log, Stream, LogAligned;
    var front, full := Concat(k.head + k.evicted), Concat(k.tail) + k.buf;
    FrontAndRest(k);
    var n := if |full| > cfg.tailSize then Largest(full, |full| - cfg.tailSize) else 0;
    assert KeptTail(cfg, k) == full[n..];
    SuffixOf(Stream(k), front, full, n);
    CutsBehind(Stream(k), front, full, n, cfg.tailSize);
    if k.evicted != [] {
      assert |full| >= TailBytes(k) >= cfg.tailSize;
    }
  }

  /**
   * A sealed store's snapshot: a verbatim prefix of at least `headSize` bytes,
   * a notice exactly when bytes are missing between it and the tail, and a
   * verbatim suffix of at least `tailSize` bytes (or everything behind the
   * head), the shortest that begins where a stream may be cut. Both edges are
   * ground positions of the whole stream, and nothing is missing while at most
   * `tailSize` bytes follow the head.
   */
  lemma SealedSnapshot(cfg: Config, k: Kept, notice: nat -> bytes)
    requires Usable(cfg) && Wf(cfg, k) && HeadBytes(k) >= cfg.headSize
    ensures var s, h, t := Stream(k), HeadBytes(k), |KeptTail(cfg, k)|;
            && cfg.headSize <= h && h + t <= |s|
            && (t >= cfg.tailSize || t == |s| - h)
            && GroundAt(s, h) && GroundAt(s, |s| - t)
            && (forall n :: |s| - t < n <= |s| - cfg.tailSize ==> !(GroundAt(s, n) && (n == |s| || RuneStart(s[n]))))
            && Snapshot(cfg, k, |s|, notice) ==
               s[..h] + (if h + t < |s| then notice(|s| - h - t) else []) + s[|s| - t..]
            && (|s| - h <= cfg.tailSize ==> Snapshot(cfg, k, |s|, notice) == s)
  {
    hide GroundAt, KeptTail, Stream, LogAligned, HeadTight, TailTight, Concat;
    var s, h, t := Stream(k), HeadBytes(k), KeptTail(cfg, k);
    HeadIsPrefix(k);
    TailIsSuffix(cfg, k);
    HeadEndIsGround(k);
    assert s[..h] + [] + s[h..] == s;
    if |s| - h <= cfg.tailSize {
      assert h + |t| == |s|;
    }
  }

  lemma HeadEndIsGround(k: Kept)
    requires LogAligned(k)
    ensures HeadBytes(k) <= |Stream(k)| && GroundAt(Stream(k), HeadBytes(k))
  {
    ChunkEndsAreGround(k, |k.head|);
    assert Log(k)[..|k.head|] == k.head;
  }

  lemma HeadIsPrefix(k: Kept)
    ensures HeadBytes(k) <= |Stream(k)| && Stream(k)[..HeadBytes(k)] == Concat(k.head)
  {
    assert Log(k) == k.head + (k.evicted + k.tail);
    ConcatAppend(k.head, k.evicted + k.tail);
  }

  /** Before the head is sealed its bytes may be trimmed as tail: the snapshot is the stream exactly when none are (or the notice happens to spell them). */
  lemma UnsealedSnapshot(cfg: Config, k: Kept, notice: nat -> bytes)
    requires Usable(cfg) && Wf(cfg, k) && HeadBytes(k) < cfg.headSize
    ensures var s, h, cut := Stream(k), HeadBytes(k), TrimmedHead(cfg, k);
            && h + cut <= |s|
            && Snapshot(cfg, k, |s|, notice) == s[..h] + (if cut > 0 then notice(cut) else []) + s[h + cut..]
            && (Snapshot(cfg, k, |s|, notice) == s <==> cut == 0 || notice(cut) == s[h..h + cut])
  {
    hide Concat, Stream, Log, KeptTail, TrimmedHead, Wf, HeadBytes;
    var head, s, cut := Concat(k.head), Stream(k), TrimmedHead(cfg, k);
    UnsealedParts(cfg, k);
    SpliceIsWhole(head, k.buf, cut, notice(cut));
    UnsealedSplice(cfg, k, cut, notice);
  }

  /**
   * What is promised of the first `headSize` bytes: a snapshot begins with as
   * many of them as were written if and only if nothing was trimmed behind the
   * sealed chunks, or notice and tail happen to spell what was; and nothing is
   * trimmed exactly if there is no cut more than `tailSize` bytes before the
   * end.
   */
  lemma UnsealedPrefix(cfg: Config, k: Kept, notice: nat -> bytes)
    requires Usable(cfg) && Wf(cfg, k) && HeadBytes(k) < cfg.headSize
    ensures var s, h, cut := Stream(k), HeadBytes(k), TrimmedHead(cfg, k);
            var n := if |s| < cfg.headSize then |s| else cfg.headSize;
            && h <= n && h + cut <= |s|
            && (s[..n] <= Snapshot(cfg, k, |s|, notice) <==>
                cut == 0 || s[h..n] <= notice(cut) + s[h + cut..])
    ensures TrimmedHead(cfg, k) == 0 <==> forall i :: 0 < i <= |k.buf| - cfg.tailSize ==> !Admissible(k.buf, i)
  {
    hide Stream, Wf, HeadBytes, Snapshot, TrimmedHead, Admissible;
    UnsealedSnapshot(cfg, k, notice);
    UntrimmedIff(cfg, k);
    UnsealedWithin(cfg, k);
    var s, h, cut := Stream(k), HeadBytes(k), TrimmedHead(cfg, k);
    var n := if |s| < cfg.headSize then |s| else cfg.headSize;
    PrefixKept(s, h, n, cut, notice(cut), Snapshot(cfg, k, |s|, notice));
  }

  lemma UnsealedWithin(cfg: Config, k: Kept)
    ensures HeadBytes(k) <= |Stream(k)|
  {
    HeadIsPrefix(k);
  }

  lemma PrefixKept(s: bytes, h: nat, n: nat, cut: nat, note: bytes, out: bytes)
    requires h <= n <= |s| && h + cut <= |s|
    requires out == s[..h] + (if cut > 0 then note else []) + s[h + cut..]
    ensures s[..n] <= out <==> cut == 0 || s[h..n] <= note + s[h + cut..]
  {
    var middle := if cut > 0 then note else [];
    Reassociate(s[..h], middle, s[h + cut..]);
    PrefixBehind(s, h, n, middle + s[h + cut..]);
    if cut == 0 {
      Reassociate([], [], s[h..]);
    }
  }

  lemma Reassociate(a: bytes, b: bytes, c: bytes)
    ensures a + b + c == a + (b + c) && [] + c == c
  {
  }

  lemma UntrimmedIff(cfg: Config, k: Kept)
    ensures TrimmedHead(cfg, k) == 0 <==> forall i :: 0 < i <= |k.buf| - cfg.tailSize ==> !Admissible(k.buf, i)
  {
    hide Admissible;
  }

  lemma PrefixBehind(s: bytes, h: nat, n: nat, rest: bytes)
    requires h <= n <= |s|
    ensures s[..n] <= s[..h] + rest <==> s[h..n] <= rest
    ensures s[h..n] <= s[h..]
  {
    var out := s[..h] + rest;
    assert s[..n] == s[..h] + s[h..n];
    if s[..n] <= out {
      assert rest[..n - h] == out[h..n] == s[..n][h..];
    }
  }

  lemma UnsealedParts(cfg: Config, k: Kept)
    requires Usable(cfg) && Wf(cfg, k) && HeadBytes(k) < cfg.headSize
    ensures Stream(k) == Concat(k.head) + k.buf
    ensures KeptTail(cfg, k) == k.buf[TrimmedHead(cfg, k)..]
    ensures HeadBytes(k) == |Concat(k.head)|
  {
    hide Concat, LogAligned, HeadTight, TailTight;
    assert Log(k) == k.head;
    NothingKept();
    assert Concat(k.tail) + k.buf == k.buf;
  }

  lemma UnsealedSplice(cfg: Config, k: Kept, cut: nat, notice: nat -> bytes)
    requires cut <= |k.buf| && KeptTail(cfg, k) == k.buf[cut..]
    ensures Snapshot(cfg, k, |Concat(k.head)| + |k.buf|, notice) ==
            Concat(k.head) + (if cut > 0 then notice(cut) else []) + k.buf[cut..]
  {
    hide KeptTail, Concat;
  }

  lemma NothingKept()
    ensures Concat([]) == []
  {
  }

  /** How many buffered bytes a snapshot drops while the head is still filling. */
  function TrimmedHead(cfg: Config, k: Kept): (n: nat)
    ensures n <= |k.buf|
  {
    if |k.buf| > cfg.tailSize then Largest(k.buf, |k.buf| - cfg.tailSize) else 0
  }

  lemma SpliceIsWhole(head: bytes, buf: bytes, cut: nat, note: bytes)
    requires cut <= |buf|
    ensures var s, h := head + buf, |head|;
            && s[..h] == head && s[h..h + cut] == buf[..cut] && s[h + cut..] == buf[cut..]
            && (head + note + buf[cut..] == s <==> note == buf[..cut])
            && head + [] + buf == s
  {
    var s := head + buf;
    assert buf[..cut] + buf[cut..] == buf;
    if head + note + buf[cut..] == s {
      var out := head + note + buf[cut..];
      assert |out| == |s|;
      assert out[|head|..|head| + cut] == note;
    }
  }

  /** The first bytes written are not always kept: six bytes, a head of ten, a tail of two. */
  lemma UnsealedPrefixIsLost(notice: nat -> bytes)
    ensures var cfg := Config(10, 2, 10, 10);
            var k := Feed(cfg, EMPTY, Ascii("abcdef"));
            && Stream(k) == Ascii("abcdef")
            && Snapshot(cfg, k, 6, notice) == notice(4) + Ascii("ef")
  {
    hide After, GroundAt;
    var cfg := Config(10, 2, 10, 10);
    var p := Ascii("abcdef");
    var k := Feed(cfg, EMPTY, p);
    assert Append(EMPTY, p).buf == p;
    assert k == Kept([], [], [], p);
    CutAtFour(p);
    assert p[4..] == Ascii("ef");
    assert Concat(k.tail) + k.buf == p;
  }

  lemma CutAtFour(p: bytes)
    requires |p| == 6 && Plain(p)
    ensures Largest(p, 4) == 4
  {
    PlainStaysGround(p, 4);
    assert Admissible(p, 4);
  }

  // ---- the truncation notice

  const LINE: bytes := [0xE2, 0x94, 0x80]

  function Rule(n: nat): bytes {
    if n == 0 then [] else LINE + Rule(n - 1)
  }

  const CRLF: bytes := [0x0D, 0x0A]
  const BLANK: bytes := CRLF + CRLF
  const FULL_RESET: bytes := [ESC, 0x63]

  function NoticeText(n: nat, humanize: nat -> bytes): bytes {
    CRLF + Ascii("[...] truncated ") + humanize(n) + CRLF
  }

  /** The notice for `n` missing bytes, ending in a full reset so that the tail renders on a clean state. */
  function TruncationBlock(n: nat, humanize: nat -> bytes): bytes {
    BLANK + Rule(40) + NoticeText(n, humanize) + Rule(40) + BLANK + FULL_RESET
  }

  lemma {:induction false} RuleAligned(n: nat)
    ensures Aligned(Rule(n))
  {
    if n > 0 {
      RuleAligned(n - 1);
      assert VtScan.Rune(LINE);
      RuneStates(LINE, 3);
      AlignedConcat(LINE, Rule(n - 1));
    }
  }

  lemma ResetAligned()
    ensures Aligned(FULL_RESET)
  {
    assert After(START, FULL_RESET, 1) == Next(After(START, FULL_RESET, 0), ESC);
  }

  lemma NoticeTextPlain(n: nat, humanize: nat -> bytes)
    requires Plain(humanize(n))
    ensures Plain(NoticeText(n, humanize)) && Plain(BLANK)
  {
    var a := Ascii("[...] truncated ");
    assert Plain(a);
  }

  /** The reset takes effect: the notice begins and ends at ground, so the tail behind it does too. */
  lemma TruncationBlockAligned(n: nat, humanize: nat -> bytes)
    requires Plain(humanize(n))
    ensures Aligned(TruncationBlock(n, humanize))
  {
    hide Rule, Aligned, NoticeText, Plain;
    var text := NoticeText(n, humanize);
    NoticeTextPlain(n, humanize);
    PlainAligned(BLANK);
    PlainAligned(text);
    RuleAligned(40);
    ResetAligned();
    AlignedConcat(BLANK, Rule(40));
    AlignedConcat(BLANK + Rule(40), text);
    AlignedConcat(BLANK + Rule(40) + text, Rule(40));
    AlignedConcat(BLANK + Rule(40) + text + Rule(40), BLANK);
    AlignedConcat(BLANK + Rule(40) + text + Rule(40) + BLANK, FULL_RESET);
  }

  lemma ResetResets(t: T.Tracker)
    requires Coherent(t.scan)
    ensures T.Wrote(t, FULL_RESET).scan == START && T.Wrote(t, FULL_RESET).modes == T.POWER_ON
  {
    T.TrackEsc(t, FULL_RESET);
    var e := T.Track(t, FULL_RESET, 1);
    assert T.Wrote(t, FULL_RESET) == T.Feed(e, 0x63);
    assert T.Collect(e, 0x63) == FULL_RESET;
  }

  /**
   * And whatever state the head left a terminal in, behind the notice it is on
   * its primary screen with the modes of power-on.
   */
  lemma TruncationBlockResets(t: T.Tracker, n: nat, humanize: nat -> bytes)
    requires Coherent(t.scan)
    ensures var w := T.Wrote(t, TruncationBlock(n, humanize));
            w.scan == START && w.modes == T.POWER_ON
  {
    hide T.Track, Rule, NoticeText;
    var before := BLANK + Rule(40) + NoticeText(n, humanize) + Rule(40) + BLANK;
    T.WroteConcat(t, before, FULL_RESET);
    T.TrackScans(t, before, |before|);
    StaysCoherent(t.scan, before, |before|);
    ResetResets(T.Wrote(t, before));
  }

  lemma PlainAligned(p: bytes)
    requires Plain(p)
    ensures Aligned(p)
  {
    PlainStaysGround(p, |p|);
  }
}
