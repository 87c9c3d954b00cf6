/**
 * The part of the terminal wrapper that follows the session locally: which
 * screen is active and which DEC private modes are set, read off each completed
 * escape sequence. `Feed` is one byte's effect, `Track` the state after a
 * number of bytes; the class `Terminal` is the wrapper's write loop.
 */
module Tracker {
  import opened Bytes
  import opened VtScan

  const TRACKED: set<int> := {1, 25, 1000, 1002, 1003, 1004, 1006, 2004}
  const MAX_SEQUENCE: nat := 64
  const SEMICOLON: byte := 0x3B
  const SET: byte := 0x68
  const RESET: byte := 0x6C

  /** Screen and mode state: whether the alternate screen is active, and the tracked modes that are set. */
  datatype Modes = Modes(alt: bool, on: set<int>)

  const POWER_ON := Modes(false, {25})

  /** The tracker: scanner, the in-progress sequence (capped), and the screen and modes. */
  datatype Tracker = Tracker(scan: Scan, esc: bytes, modes: Modes)

  const FRESH := Tracker(START, [], POWER_ON)

  // ---- what a completed sequence means

  predicate Digit(b: byte) { 0x30 <= b <= 0x39 }

  /** A plain decimal parameter of one to five digits; anything else is no mode number. */
  function ModeNumber(param: bytes): int {
    if 1 <= |param| <= 5 && forall k :: 0 <= k < |param| ==> Digit(param[k]) then Decimal(param) else -1
  }

  function Decimal(p: bytes): int {
    if p == [] then 0 else 10 * Decimal(p[..|p| - 1]) + (p[|p| - 1] as int - 0x30)
  }

  function SetMode(m: Modes, n: int, on: bool): Modes {
    if n in {47, 1047, 1049} then m.(alt := on)
    else if n in TRACKED then m.(on := if on then m.on + {n} else m.on - {n})
    else m
  }

  /** The parameters of a semicolon-separated list: the one way to write it without semicolons inside. */
  function Params(body: bytes): (r: seq<bytes>)
    ensures |r| > 0 && Joined(r) == body
    ensures forall i :: 0 <= i < |r| ==> SEMICOLON !in r[i]
    decreases |body|
  {
    var i := IndexSemicolon(body);
    if i == |body| then
      assert body[..i] == body;
      [body]
    else
      assert body == body[..i] + [SEMICOLON] + body[i + 1..];
      [body[..i]] + Params(body[i + 1..])
  }

  function Joined(params: seq<bytes>): bytes
    requires |params| > 0
  {
    if |params| == 1 then params[0] else params[0] + [SEMICOLON] + Joined(params[1..])
  }

  function IndexSemicolon(body: bytes): (i: nat)
    ensures i <= |body|
    ensures i < |body| ==> body[i] == SEMICOLON
    ensures SEMICOLON !in body[..i]
  {
    if body == [] then 0
    else if body[0] == SEMICOLON then 0
    else
      var i := 1 + IndexSemicolon(body[1..]);
      assert body[..i] == [body[0]] + body[1..][..i - 1];
      i
  }

  function SetModes(m: Modes, params: seq<bytes>, on: bool): Modes {
    if params == [] then m
    else SetMode(SetModes(m, params[..|params| - 1], on), ModeNumber(params[|params| - 1]), on)
  }

  predicate IsReset(q: bytes) { q == [ESC, 0x63] }

  predicate IsPrivateMode(q: bytes) {
    |q| >= 5 && q[..3] == [ESC, 0x5B, 0x3F] && q[|q| - 1] in {SET, RESET}
  }

  function Complete(m: Modes, q: bytes): Modes {
    if IsReset(q) then POWER_ON
    else if IsPrivateMode(q) then SetModes(m, Params(q[3..|q| - 1]), q[|q| - 1] == SET)
    else m
  }

  // ---- one byte, many bytes

  /** A byte at ground, or an ESC anywhere, begins a new sequence. */
  predicate Begins(t: Tracker, b: byte) {
    AtGround(t.scan) || b == ESC
  }

  function Collect(t: Tracker, b: byte): bytes {
    var q := if Begins(t, b) then [] else t.esc;
    if |q| < MAX_SEQUENCE then q + [b] else q
  }

  predicate Ends(t: Tracker, b: byte) {
    !AtGround(t.scan) && AtGround(Next(t.scan, b))
  }

  function Feed(t: Tracker, b: byte): Tracker {
    var q := Collect(t, b);
    Tracker(Next(t.scan, b), q, if Ends(t, b) then Complete(t.modes, q) else t.modes)
  }

  function Track(t: Tracker, p: bytes, n: nat): Tracker
    requires n <= |p|
  {
    if n == 0 then t else Feed(Track(t, p, n - 1), p[n - 1])
  }

  /** The n-th byte completes a sequence that toggles the active screen. */
  predicate Toggles(t: Tracker, p: bytes, n: nat)
    requires 0 < n <= |p|
  {
    Track(t, p, n).modes.alt != Track(t, p, n - 1).modes.alt
  }

  /** Where the sequence that byte n belongs to begins; 0 when it began before `p`. */
  function SequenceStart(s: Scan, p: bytes, n: nat): (i: nat)
    requires n <= |p|
    ensures i <= n && (n > 0 ==> i < n)
  {
    if n == 0 then 0
    else if AtGround(After(s, p, n - 1)) || p[n - 1] == ESC then n - 1
    else SequenceStart(s, p, n - 1)
  }

  // ---- splitting is invisible

  lemma {:induction false} TrackPrefix(t: Tracker, p: bytes, q: bytes, n: nat)
    requires n <= |p| && n <= |q| && p[..n] == q[..n]
    ensures Track(t, p, n) == Track(t, q, n)
  {
    if n > 0 {
      assert p[..n - 1] == p[..n][..n - 1] == q[..n][..n - 1] == q[..n - 1];
      assert p[n - 1] == p[..n][n - 1] == q[..n][n - 1] == q[n - 1];
      TrackPrefix(t, p, q, n - 1);
    }
  }

  lemma {:induction false} TrackConcat(t: Tracker, a: bytes, b: bytes, k: nat)
    requires k <= |b|
    ensures Track(t, a + b, |a| + k) == Track(Track(t, a, |a|), b, k)
  {
    hide Feed;
    if k == 0 {
      assert (a + b)[..|a|] == a == a[..|a|];
      TrackPrefix(t, a + b, a, |a|);
    } else {
      TrackConcat(t, a, b, k - 1);
      assert (a + b)[|a| + k - 1] == b[k - 1];
    }
  }

  lemma NothingTracked(t: Tracker, p: bytes)
    ensures Track(t, p, 0) == t && After(t.scan, p, 0) == t.scan && SequenceStart(t.scan, p, 0) == 0
  {
  }

  lemma OneMore(t: Tracker, p: bytes, i: nat)
    requires i < |p|
    ensures Track(t, p, i + 1) == Feed(Track(t, p, i), p[i])
    ensures After(t.scan, p, i + 1) == Next(After(t.scan, p, i), p[i])
    ensures SequenceStart(t.scan, p, i + 1) ==
            if AtGround(After(t.scan, p, i)) || p[i] == ESC then i else SequenceStart(t.scan, p, i)
    ensures Feed(Track(t, p, i), p[i]).scan == Next(Track(t, p, i).scan, p[i])
  {
    hide Next, Complete;
  }

  lemma TrackFrom(t: Tracker, p: bytes, n: nat, k: nat)
    requires n + k <= |p|
    ensures Track(t, p, n + k) == Track(Track(t, p, n), p[n..], k)
  {
    assert p[..n] + p[n..] == p;
    TrackConcat(t, p[..n], p[n..], k);
    TrackPrefix(t, p[..n], p, n);
  }

  /** The tracker's scanner is the plain scanner. */
  lemma {:induction false} TrackScans(t: Tracker, p: bytes, n: nat)
    requires n <= |p|
    ensures Track(t, p, n).scan == After(t.scan, p, n)
  {
    hide Next, Complete;
    if n > 0 {
      TrackScans(t, p, n - 1);
    }
  }

  // ---- the cap

  /** Everything from the start of byte n's sequence up to n lies inside one sequence. */
  lemma {:induction false} WithinSequence(p: bytes, n: nat)
    requires n <= |p| && !GroundAt(p, n)
    ensures var i := SequenceStart(START, p, n);
            && i < n
            && (forall k :: i < k <= n ==> !GroundAt(p, k))
            && (forall k :: i < k < n ==> p[k] != ESC)
  {
    if !GroundAt(p, n - 1) && p[n - 1] != ESC {
      WithinSequence(p, n - 1);
    }
  }

  function Capped(q: bytes): bytes {
    if |q| <= MAX_SEQUENCE then q else q[..MAX_SEQUENCE]
  }

  /** The buffer holds the current sequence from its start, up to the cap. */
  lemma {:induction false} CollectedSequence(p: bytes, n: nat)
    requires n <= |p|
    ensures Track(FRESH, p, n).esc == Capped(p[SequenceStart(START, p, n)..n])
  {
    hide Track, SequenceStart, Capped;
    if n == 0 {
      NothingTracked(FRESH, p);
      NothingCapped();
      assert p[..0] == [];
    } else {
      CollectedSequence(p, n - 1);
      CollectsOne(p, n);
    }
  }

  lemma NothingCapped()
    ensures Capped([]) == []
  {
  }

  /** The induction's step: one byte more, in the buffer and in the sequence. */
  lemma CollectsOne(p: bytes, n: nat)
    requires 0 < n <= |p| && Track(FRESH, p, n - 1).esc == Capped(p[SequenceStart(START, p, n - 1)..n - 1])
    ensures Track(FRESH, p, n).esc == Capped(p[SequenceStart(START, p, n)..n])
  {
    hide Track, After, Next, Feed, SequenceStart, Capped, AtGround;
    TrackScans(FRESH, p, n - 1);
    OneMore(FRESH, p, n - 1);
    FeedCollects(Track(FRESH, p, n - 1), p[n - 1]);
    CapSlice(p, SequenceStart(START, p, n - 1), n);
    CapOne(p, n);
  }

  lemma FeedCollects(t: Tracker, b: byte)
    ensures Feed(t, b).esc ==
            if AtGround(t.scan) || b == ESC then [b]
            else if |t.esc| < MAX_SEQUENCE then t.esc + [b]
            else t.esc
  {
    hide Complete, Next;
  }

  lemma CapSlice(p: bytes, i: nat, n: nat)
    requires i < n <= |p|
    ensures var q := Capped(p[i..n - 1]);
            Capped(p[i..n]) == if |q| < MAX_SEQUENCE then q + [p[n - 1]] else q
  {
    assert p[i..n] == p[i..n - 1] + [p[n - 1]];
  }

  lemma CapOne(p: bytes, n: nat)
    requires 0 < n <= |p|
    ensures Capped(p[n - 1..n]) == [p[n - 1]]
  {
  }

  /** Inside a control sequence no final byte has been seen yet. */
  lemma {:induction false} InsideCsi(p: bytes, i: nat, n: nat)
    requires i + 2 <= n <= |p| && p[i] == ESC && p[i + 1] == 0x5B
    requires forall k :: i < k <= n ==> !GroundAt(p, k)
    requires forall k :: i < k < n ==> p[k] != ESC
    ensures InCsi(After(START, p, n).st) && After(START, p, n).utf8Pending == 0
    ensures forall k :: i + 2 <= k < n ==> !Final(p[k])
  {
    assert After(START, p, n) == Next(After(START, p, n - 1), p[n - 1]);
    assert !GroundAt(p, n);
    if n == i + 2 {
      StaysCoherent(START, p, i);
      assert After(START, p, i + 1) == Next(After(START, p, i), p[i]) == Scan(Escape, 0);
    } else {
      InsideCsi(p, i, n - 1);
    }
  }

  /**
   * The cap never misreads: a completed sequence is read in full when it fits,
   * and one that was cut off at the cap changes neither screen nor modes. So
   * the tracker agrees with an uncapped reading that ignores overlong sequences.
   */
  lemma CompletedSequence(p: bytes, n: nat)
    requires 0 < n <= |p| && !GroundAt(p, n - 1) && GroundAt(p, n)
    ensures var i := SequenceStart(START, p, n - 1);
            && i < n
            && Track(FRESH, p, n).modes ==
               if n - i > MAX_SEQUENCE then Track(FRESH, p, n - 1).modes
               else Complete(Track(FRESH, p, n - 1).modes, p[i..n])
  {
    var i := SequenceStart(START, p, n - 1);
    hide Track, Complete;
    CompletedCapped(p, n);
    if n - i > MAX_SEQUENCE {
      CutOffChangesNothing(p, i, n);
      assert Capped(p[i..n]) == p[i..i + MAX_SEQUENCE];
      CompleteOther(Track(FRESH, p, n - 1).modes, p[i..i + MAX_SEQUENCE]);
    }
  }

  lemma CompletedCapped(p: bytes, n: nat)
    requires 0 < n <= |p| && !GroundAt(p, n - 1) && GroundAt(p, n)
    ensures var i := SequenceStart(START, p, n - 1);
            Track(FRESH, p, n).modes == Complete(Track(FRESH, p, n - 1).modes, Capped(p[i..n]))
  {
    hide Complete, Inside;
    TrackScans(FRESH, p, n - 1);
    CollectedSequence(p, n);
    assert p[n - 1] != ESC;
    assert SequenceStart(START, p, n) == SequenceStart(START, p, n - 1);
    assert Track(FRESH, p, n) == Feed(Track(FRESH, p, n - 1), p[n - 1]);
  }

  lemma CompleteOther(m: Modes, q: bytes)
    requires !IsReset(q) && !IsPrivateMode(q)
    ensures Complete(m, q) == m
  {
  }

  lemma CutOffChangesNothing(p: bytes, i: nat, n: nat)
    requires i + MAX_SEQUENCE < n <= |p| && !GroundAt(p, n - 1)
    requires i == SequenceStart(START, p, n - 1)
    ensures var q := p[i..i + MAX_SEQUENCE]; !IsReset(q) && !IsPrivateMode(q)
  {
    WithinSequence(p, n - 1);
    var q := p[i..i + MAX_SEQUENCE];
    if IsPrivateMode(q) {
      assert p[i] == q[..3][0] && p[i + 1] == q[..3][1];
      InsideCsi(p, i, n - 1);
      assert false;
    }
  }

  /** A byte that completes nothing changes neither screen nor modes. */
  lemma NothingCompleted(p: bytes, n: nat)
    requires 0 < n <= |p| && (GroundAt(p, n - 1) || !GroundAt(p, n))
    ensures Track(FRESH, p, n).modes == Track(FRESH, p, n - 1).modes
  {
    hide Complete, Next;
    TrackScans(FRESH, p, n - 1);
    assert After(START, p, n) == Next(After(START, p, n - 1), p[n - 1]);
  }

  /** The sequences (and runes) that a plain scanner sees completed in the first `n` bytes, each in full. */
  function CompletedIn(p: bytes, n: nat): seq<bytes>
    requires n <= |p|
  {
    if n == 0 then []
    else CompletedIn(p, n - 1)
         + if !GroundAt(p, n - 1) && GroundAt(p, n) then [p[SequenceStart(START, p, n - 1)..n]] else []
  }

  /** Sequences applied one after the other, without those over the cap. */
  function Applied(m: Modes, qs: seq<bytes>): Modes {
    if qs == [] then m
    else
      var before := Applied(m, qs[..|qs| - 1]);
      var q := qs[|qs| - 1];
      if |q| > MAX_SEQUENCE then before else Complete(before, q)
  }

  /**
   * The state after any stream is what its completed sequences make of it, in
   * order and each as a whole: nothing else in the stream, and not how it was
   * collected, matters. Only sequences over the cap are passed over.
   */
  lemma {:induction false} StateIsCompletedSequences(p: bytes, n: nat)
    requires n <= |p|
    ensures Track(FRESH, p, n).modes == Applied(POWER_ON, CompletedIn(p, n))
  {
    if n == 0 {
      NothingTracked(FRESH, p);
      assert CompletedIn(p, 0) == [];
    } else {
      hide Track, Applied, CompletedIn;
      StateIsCompletedSequences(p, n - 1);
      OneByteMore(p, n);
    }
  }

  /** The induction's step: what one byte more completes is applied to what was. */
  lemma OneByteMore(p: bytes, n: nat)
    requires 0 < n <= |p| && Track(FRESH, p, n - 1).modes == Applied(POWER_ON, CompletedIn(p, n - 1))
    ensures Track(FRESH, p, n).modes == Applied(POWER_ON, CompletedIn(p, n))
  {
    hide Track, GroundAt, Complete, SequenceStart, Applied, CompletedIn;
    OneMoreCompleted(p, n);
    var qs := CompletedIn(p, n - 1);
    if !GroundAt(p, n - 1) && GroundAt(p, n) {
      CompletedSequence(p, n);
      ApplyOne(POWER_ON, qs, p[SequenceStart(START, p, n - 1)..n]);
    } else {
      NothingCompleted(p, n);
      assert qs + [] == qs;
    }
  }

  lemma OneMoreCompleted(p: bytes, n: nat)
    requires 0 < n <= |p|
    ensures CompletedIn(p, n) ==
            CompletedIn(p, n - 1)
            + if !GroundAt(p, n - 1) && GroundAt(p, n) then [p[SequenceStart(START, p, n - 1)..n]] else []
  {
    hide GroundAt, SequenceStart;
  }

  lemma ApplyOne(m: Modes, qs: seq<bytes>, q: bytes)
    ensures Applied(m, qs + [q]) == if |q| > MAX_SEQUENCE then Applied(m, qs) else Complete(Applied(m, qs), q)
  {
    hide Complete;
    assert (qs + [q])[..|qs|] == qs;
  }

  // ---- writing sequences of one's own

  /** The decimal digits of a number. */
  function Digits(n: nat): (d: bytes)
    ensures |d| > 0 && forall k :: 0 <= k < |d| ==> Digit(d[k])
  {
    if n < 10 then [0x30 + n] else Digits(n / 10) + [0x30 + n % 10]
  }

  function Csi(params: bytes, final: byte): bytes {
    [ESC, 0x5B] + params + [final]
  }

  function ModeSequence(n: nat, on: bool): bytes {
    Csi([0x3F] + Digits(n), if on then SET else RESET)
  }

  /** A sequence for each listed mode, set or reset as `on` says. */
  function ModeList(ns: seq<nat>, on: set<int>): bytes {
    if ns == [] then [] else ModeList(ns[..|ns| - 1], on) + ModeSequence(ns[|ns| - 1], ns[|ns| - 1] in on)
  }

  const MODE_ORDER: seq<nat> := [1, 25, 1000, 1002, 1003, 1004, 1006, 2004]

  function Elements(ns: seq<nat>): set<int> {
    if ns == [] then {} else Elements(ns[..|ns| - 1]) + {ns[|ns| - 1]}
  }

  function Wrote(t: Tracker, p: bytes): Tracker {
    Track(t, p, |p|)
  }

  lemma WroteConcat(t: Tracker, a: bytes, b: bytes)
    ensures Wrote(t, a + b) == Wrote(Wrote(t, a), b)
  {
    TrackConcat(t, a, b, |b|);
  }

  /** A control sequence restarts whatever was in progress and takes effect at its final byte. */
  lemma WriteControlSequence(t: Tracker, u: bytes)
    requires Coherent(t.scan) && ControlSequence(u) && |u| <= MAX_SEQUENCE
    ensures Wrote(t, u) == Tracker(START, u, Complete(t.modes, u))
  {
    hide Next, Feed, Complete, Inside;
    var n := |u| - 1;
    DuringControlSequence(t, u, n);
    ControlSequenceStates(t.scan, u, n);
    OneMore(t, u, n);
    FeedFinal(Track(t, u, n), u[n]);
    assert u[..n] + [u[n]] == u;
  }

  lemma FeedFinal(t: Tracker, b: byte)
    requires InCsi(t.scan.st) && t.scan.utf8Pending == 0 && Final(b) && |t.esc| < MAX_SEQUENCE
    ensures Feed(t, b) == Tracker(START, t.esc + [b], Complete(t.modes, t.esc + [b]))
  {
    hide Complete;
  }

  lemma {:induction false} DuringControlSequence(t: Tracker, u: bytes, n: nat)
    requires Coherent(t.scan) && ControlSequence(u) && |u| <= MAX_SEQUENCE && 1 <= n < |u|
    ensures Track(t, u, n) == Tracker(After(t.scan, u, n), u[..n], t.modes)
  {
    hide Next, Feed;
    ControlSequenceStates(t.scan, u, n);
    if n == 1 {
      TrackEsc(t, u);
      assert u[..1] == [ESC];
    } else {
      DuringControlSequence(t, u, n - 1);
      ControlSequenceStates(t.scan, u, n - 1);
      assert u[n - 1] != ESC by {
        var i :| 2 <= i < |u| && ParametersThenIntermediates(u, i);
        assert n - 1 == 1 || Parameter(u[n - 1]) || Intermediate(u[n - 1]);
      }
      FeedInside(Track(t, u, n - 1), u[n - 1]);
      assert u[..n - 1] + [u[n - 1]] == u[..n];
    }
  }

  lemma TrackEsc(t: Tracker, u: bytes)
    requires Coherent(t.scan) && |u| > 0 && u[0] == ESC
    ensures After(t.scan, u, 1) == Scan(Escape, 0)
    ensures Track(t, u, 1) == Tracker(Scan(Escape, 0), [ESC], t.modes)
  {
    hide Complete;
    assert Track(t, u, 0) == t && After(t.scan, u, 0) == t.scan;
  }

  lemma FeedInside(t: Tracker, b: byte)
    requires !AtGround(t.scan) && !AtGround(Next(t.scan, b)) && b != ESC && |t.esc| < MAX_SEQUENCE
    ensures Feed(t, b) == Tracker(Next(t.scan, b), t.esc + [b], t.modes)
  {
  }

  lemma CsiIsControlSequence(params: bytes, final: byte)
    requires Final(final) && forall k :: 0 <= k < |params| ==> Parameter(params[k])
    ensures ControlSequence(Csi(params, final))
  {
    var u := Csi(params, final);
    assert ParametersThenIntermediates(u, |u| - 1);
  }

  lemma {:induction false} DecimalDigits(n: nat)
    ensures Decimal(Digits(n)) == n
  {
    if n >= 10 {
      DecimalDigits(n / 10);
      assert Digits(n)[..|Digits(n)| - 1] == Digits(n / 10);
    } else {
      assert Decimal(Digits(n)) == 10 * Decimal(Digits(n)[..0]) + n;
    }
  }

  /** `p` is the decimal form of `n`, possibly behind leading zeros. */
  predicate Reads(p: bytes, n: nat) {
    var z := |p| - |Digits(n)|;
    z >= 0 && p[z..] == Digits(n) && forall k :: 0 <= k < z ==> p[k] == 0x30
  }

  lemma {:induction false} DecimalReads(p: bytes)
    requires 1 <= |p| <= 5 && forall k :: 0 <= k < |p| ==> Digit(p[k])
    ensures 0 <= Decimal(p) < 100000 && Reads(p, Decimal(p))
  {
    hide Reads;
    DecimalBound(p);
    var front, d := p[..|p| - 1], p[|p| - 1];
    assert p == front + [d];
    if front == [] {
      OneDigit(d);
    } else {
      DecimalReads(front);
      OneDigitMore(front, d, Decimal(front), Decimal(p));
    }
  }

  lemma OneDigit(d: byte)
    requires Digit(d)
    ensures Decimal([] + [d]) >= 0 && Reads([] + [d], Decimal([] + [d]))
  {
    var p: bytes := [] + [d];
    assert p[..0] == [];
    assert Decimal(p[..0]) == 0;
    assert p == Digits(Decimal(p));
  }

  lemma {:induction false} DecimalBound(p: bytes)
    requires |p| <= 5 && forall k :: 0 <= k < |p| ==> Digit(p[k])
    ensures 0 <= Decimal(p) < [1, 10, 100, 1000, 10000, 100000][|p|]
  {
    if p != [] {
      DecimalBound(p[..|p| - 1]);
    }
  }

  lemma OneDigitMore(front: bytes, d: byte, m: nat, n: nat)
    requires front != [] && Digit(d) && Reads(front, m) && n == 10 * m + (d as int - 0x30)
    ensures Reads(front + [d], n)
  {
    var p := front + [d];
    var z := |front| - |Digits(m)|;
    assert n / 10 == m && n % 10 == d as int - 0x30;
    if n >= 10 {
      assert Digits(n) == Digits(m) + [d];
      assert p[z..] == front[z..] + [d];
    } else {
      assert m == 0 && Digits(m) == [0x30] && Digits(n) == [d];
      assert front[z] == front[z..][0] == 0x30;
      assert p[z + 1..] == [d];
    }
  }

  lemma DigitsLength(n: nat)
    requires n < 100000
    ensures |Digits(n)| <= 5
  {
    assert |Digits(n)| == 1 || |Digits(n / 10)| == 1 || |Digits(n / 10 / 10)| == 1
        || |Digits(n / 10 / 10 / 10)| == 1 || |Digits(n / 10 / 10 / 10 / 10)| == 1;
  }

  /** Setting a mode by its sequence, from any state, sets exactly that mode. */
  lemma WriteModeSequence(t: Tracker, n: nat, on: bool)
    requires Coherent(t.scan) && n < 100000
    ensures Wrote(t, ModeSequence(n, on)).scan == START
    ensures Wrote(t, ModeSequence(n, on)).modes == SetMode(t.modes, n, on)
  {
    var u := ModeSequence(n, on);
    DigitsLength(n);
    CsiIsControlSequence([0x3F] + Digits(n), if on then SET else RESET);
    WriteControlSequence(t, u);
    assert u[..3] == [ESC, 0x5B, 0x3F];
    var body := u[3..|u| - 1];
    assert body == Digits(n);
    assert IndexSemicolon(body) == |body|;
    var one: seq<bytes> := [body];
    assert Params(body) == one;
    DecimalDigits(n);
    assert ModeNumber(body) == n;
    assert one[..0] == [];
    assert SetModes(t.modes, one, on) == SetMode(SetModes(t.modes, one[..0], on), n, on);
  }

  // ---- lists of modes

  lemma FirstSemicolon(ps: seq<bytes>)
    requires |ps| > 0 && forall i :: 0 <= i < |ps| ==> SEMICOLON !in ps[i]
    ensures var j := Joined(ps);
            && |ps[0]| <= |j| && j[..|ps[0]|] == ps[0]
            && (|ps| > 1 ==> |ps[0]| < |j| && j[|ps[0]|] == SEMICOLON && j[|ps[0]| + 1..] == Joined(ps[1..]))
            && (|ps| == 1 ==> |j| == |ps[0]|)
  {
  }

  /** There is one way to take a list apart at its semicolons. */
  lemma {:induction false} JoinedOnce(a: seq<bytes>, b: seq<bytes>)
    requires |a| > 0 && |b| > 0 && Joined(a) == Joined(b)
    requires forall i :: 0 <= i < |a| ==> SEMICOLON !in a[i]
    requires forall i :: 0 <= i < |b| ==> SEMICOLON !in b[i]
    ensures a == b
  {
    hide Joined;
    FirstSemicolon(a);
    FirstSemicolon(b);
    SemicolonAt(Joined(a), |a[0]|);
    SemicolonAt(Joined(b), |b[0]|);
    assert a[0] == b[0];
    JoinedAlone(a);
    JoinedAlone(b);
    if |a| > 1 {
      JoinedOnce(a[1..], b[1..]);
    }
    assert a == [a[0]] + a[1..] && b == [b[0]] + b[1..];
  }

  lemma SemicolonAt(body: bytes, n: nat)
    requires n <= |body| && SEMICOLON !in body[..n] && (n < |body| ==> body[n] == SEMICOLON)
    ensures IndexSemicolon(body) == n
  {
    var i := IndexSemicolon(body);
    assert forall k :: 0 <= k < n ==> body[..n][k] == body[k];
    assert forall k :: 0 <= k < i ==> body[..i][k] == body[k];
  }

  lemma JoinedAlone(ps: seq<bytes>)
    requires |ps| > 0
    ensures |ps| == 1 ==> Joined(ps) == ps[0] && ps[1..] == []
  {
  }

  /** `CSI ? p h` or `l`, whatever the parameters say. */
  function Private(p: bytes, on: bool): bytes {
    Csi([0x3F] + p, if on then SET else RESET)
  }

  /** A sequence of its own for each parameter. */
  function Each(ps: seq<bytes>, on: bool): bytes {
    if ps == [] then [] else Each(ps[..|ps| - 1], on) + Private(ps[|ps| - 1], on)
  }

  predicate Parameters(ps: seq<bytes>) {
    forall i, k :: 0 <= i < |ps| && 0 <= k < |ps[i]| ==> Parameter(ps[i][k]) && ps[i][k] != SEMICOLON
  }

  lemma {:induction false} JoinedParameters(ps: seq<bytes>)
    requires |ps| > 0 && Parameters(ps)
    ensures forall k :: 0 <= k < |Joined(ps)| ==> Parameter(Joined(ps)[k])
    ensures forall i :: 0 <= i < |ps| ==> |ps[i]| <= |Joined(ps)| && SEMICOLON !in ps[i]
  {
    if |ps| > 1 {
      assert Parameters(ps[1..]);
      JoinedParameters(ps[1..]);
      forall i | 0 < i < |ps| ensures |ps[i]| <= |Joined(ps)| && SEMICOLON !in ps[i] {
        assert ps[i] == ps[1..][i - 1];
      }
    }
  }

  lemma CompletePrivate(m: Modes, p: bytes, on: bool)
    ensures Complete(m, Private(p, on)) == if p == [] then m else SetModes(m, Params(p), on)
  {
    var q := Private(p, on);
    assert !IsReset(q);
    assert q[3..|q| - 1] == p;
    assert q[..3] == [ESC, 0x5B, 0x3F];
  }

  lemma WritePrivate(t: Tracker, p: bytes, on: bool)
    requires Coherent(t.scan) && |p| + 4 <= MAX_SEQUENCE && forall k :: 0 <= k < |p| ==> Parameter(p[k])
    ensures var w := Wrote(t, Private(p, on));
            w.scan == START && w.modes == if p == [] then t.modes else SetModes(t.modes, Params(p), on)
  {
    hide Complete, Params;
    var u := Private(p, on);
    CsiIsControlSequence([0x3F] + p, if on then SET else RESET);
    WriteControlSequence(t, u);
    CompletePrivate(t.modes, p, on);
  }

  lemma OneParameter(m: Modes, p: bytes, on: bool)
    requires SEMICOLON !in p
    ensures (if p == [] then m else SetModes(m, Params(p), on)) == SetModes(m, [p], on)
  {
    JoinedAlone([p]);
    JoinedOnce(Params(p), [p]);
    var one: seq<bytes> := [p];
    assert one[..0] == [];
  }

  lemma {:induction false} WriteEach(t: Tracker, ps: seq<bytes>, on: bool)
    requires Coherent(t.scan) && Parameters(ps) && forall i :: 0 <= i < |ps| ==> |ps[i]| + 4 <= MAX_SEQUENCE
    ensures var w := Wrote(t, Each(ps, on));
            Coherent(w.scan) && (ps != [] ==> w.scan == START) && w.modes == SetModes(t.modes, ps, on)
  {
    hide Track, Params, Private, SetMode;
    if ps == [] {
      NothingTracked(t, []);
    } else {
      var front, p := ps[..|ps| - 1], ps[|ps| - 1];
      assert Parameters(front);
      WriteEach(t, front, on);
      var w := Wrote(t, Each(front, on));
      WroteConcat(t, Each(front, on), Private(p, on));
      WritePrivate(w, p, on);
      OneParameter(w.modes, p, on);
      var one: seq<bytes> := [p];
      assert one[..0] == [];
    }
  }

  /**
   * A list of modes sets or resets each of them: it leaves any terminal as a
   * sequence for each, one after the other, would.
   */
  lemma ListIsEach(t: Tracker, ps: seq<bytes>, on: bool)
    requires Coherent(t.scan) && |ps| > 0 && Parameters(ps) && |Private(Joined(ps), on)| <= MAX_SEQUENCE
    ensures Wrote(t, Private(Joined(ps), on)).modes == Wrote(t, Each(ps, on)).modes
    ensures Wrote(t, Private(Joined(ps), on)).scan == Wrote(t, Each(ps, on)).scan == START
  {
    hide Track, Joined, Params, Each, SetMode;
    JoinedParameters(ps);
    WritePrivate(t, Joined(ps), on);
    WriteEach(t, ps, on);
    if Joined(ps) == [] {
      EmptyList(t.modes, ps, on);
    } else {
      JoinedOnce(Params(Joined(ps)), ps);
    }
  }

  lemma EmptyList(m: Modes, ps: seq<bytes>, on: bool)
    requires |ps| > 0 && Joined(ps) == []
    ensures SetModes(m, ps, on) == m
  {
    assert |ps| == 1 && ps[0] == [];
    assert ps[..0] == [];
  }

  function Spelled(ns: seq<nat>): (ps: seq<bytes>)
    ensures |ps| == |ns| && forall i :: 0 <= i < |ns| ==> ps[i] == Digits(ns[i])
  {
    if ns == [] then [] else Spelled(ns[..|ns| - 1]) + [Digits(ns[|ns| - 1])]
  }

  const SCREEN_MODES: set<int> := {47, 1047, 1049}

  /** Which modes are set behind a list of them, and which screen is active. */
  lemma ListedModes(t: Tracker, ns: seq<nat>, on: bool)
    requires Coherent(t.scan) && |ns| > 0 && forall i :: 0 <= i < |ns| ==> ns[i] < 100000
    requires |Private(Joined(Spelled(ns)), on)| <= MAX_SEQUENCE
    ensures var w := Wrote(t, Private(Joined(Spelled(ns)), on));
            && (forall m :: m in w.modes.on <==> if m in TRACKED && m in ns then on else m in t.modes.on)
            && (w.modes.alt <==> if exists n :: n in ns && n in SCREEN_MODES then on else t.modes.alt)
  {
    hide Track, Joined, Spelled, Digits, Each;
    SpelledParameters(ns);
    ListIsEach(t, Spelled(ns), on);
    JoinedParameters(Spelled(ns));
    WriteEach(t, Spelled(ns), on);
    SetSpelled(t.modes, ns, on);
  }

  lemma SpelledParameters(ns: seq<nat>)
    ensures Parameters(Spelled(ns))
  {
    hide Spelled, Digits;
    assert forall b: byte :: Digit(b) ==> Parameter(b) && b != SEMICOLON;
  }

  ghost predicate Sets(m: Modes, ns: seq<nat>, on: bool, w: Modes) {
    && (forall k :: k in w.on <==> if k in TRACKED && k in ns then on else k in m.on)
    && (w.alt <==> if exists n :: n in ns && n in SCREEN_MODES then on else m.alt)
  }

  lemma SetsOneMore(m: Modes, ns: seq<nat>, on: bool, w: Modes, n: nat)
    requires Sets(m, ns, on, w)
    ensures Sets(m, ns + [n], on, SetMode(w, n, on))
  {
    assert forall k :: k in ns + [n] <==> k in ns || k == n;
    if n in SCREEN_MODES {
      assert n in ns + [n];
    }
  }

  lemma {:induction false} SetSpelled(m: Modes, ns: seq<nat>, on: bool)
    requires forall i :: 0 <= i < |ns| ==> ns[i] < 100000
    ensures Sets(m, ns, on, SetModes(m, Spelled(ns), on))
  {
    hide Sets, SetMode, Digits, ModeNumber;
    if ns == [] {
      SetsNothing(m, on);
    } else {
      var front, n := ns[..|ns| - 1], ns[|ns| - 1];
      assert ns == front + [n];
      SetSpelled(m, front, on);
      ReadsBack(n);
      assert Spelled(ns)[..|ns| - 1] == Spelled(front);
      SetsOneMore(m, front, on, SetModes(m, Spelled(front), on), n);
    }
  }

  lemma SetsNothing(m: Modes, on: bool)
    ensures Sets(m, [], on, m) && SetModes(m, [], on) == m
  {
  }

  lemma ReadsBack(n: nat)
    requires n < 100000
    ensures ModeNumber(Digits(n)) == n
  {
    DigitsLength(n);
    DecimalDigits(n);
  }

  /** Listing one more mode. */
  lemma OneMoreMode(was: set<int>, listed: set<int>, on: set<int>, n: int)
    ensures var so := (was - listed) + (listed * on);
            (if n in on then so + {n} else so - {n}) == (was - (listed + {n})) + ((listed + {n}) * on)
  {
  }

  /** A mode list brings any terminal into agreement on the listed modes and touches nothing else. */
  lemma {:induction false} WriteModeList(t: Tracker, ns: seq<nat>, on: set<int>)
    requires Coherent(t.scan) && Elements(ns) <= TRACKED
    ensures var w := Wrote(t, ModeList(ns, on));
            && Coherent(w.scan)
            && (ns != [] ==> w.scan == START)
            && w.modes == Modes(t.modes.alt, (t.modes.on - Elements(ns)) + (Elements(ns) * on))
  {
    if ns != [] {
      var n := ns[|ns| - 1];
      var before := ModeList(ns[..|ns| - 1], on);
      WriteModeList(t, ns[..|ns| - 1], on);
      WroteConcat(t, before, ModeSequence(n, n in on));
      assert n in TRACKED;
      WriteModeSequence(Wrote(t, before), n, n in on);
      OneMoreMode(t.modes.on, Elements(ns[..|ns| - 1]), on, n);
    }
  }

  /** Every mode sequence of one terminal, written to any other, makes the other's tracked modes its own. */
  lemma ModeSequencesAgree(t: Tracker, on: set<int>)
    requires Coherent(t.scan) && on <= TRACKED && t.modes.on <= TRACKED
    ensures var w := Wrote(t, ModeList(MODE_ORDER, on));
            w.scan == START && w.modes == Modes(t.modes.alt, on)
  {
    ModeOrderIsTracked();
    WriteModeList(t, MODE_ORDER, on);
  }

  lemma ModeOrderIsTracked()
    ensures Elements(MODE_ORDER) == TRACKED
  {
    var a: seq<nat> := [1, 25, 1000, 1002];
    assert Elements(a) == {1, 25, 1000, 1002} by {
      assert a[..3] == [1, 25, 1000] && a[..3][..2] == [1, 25] && a[..3][..2][..1] == [1];
      assert Elements(a[..3][..2][..1]) == {1};
    }
    ElementsSnoc(a, 1003);
    ElementsSnoc(a + [1003], 1004);
    ElementsSnoc(a + [1003] + [1004], 1006);
    ElementsSnoc(a + [1003] + [1004] + [1006], 2004);
    assert MODE_ORDER == a + [1003] + [1004] + [1006] + [2004];
  }

  lemma ElementsSnoc(ns: seq<nat>, n: nat)
    ensures Elements(ns + [n]) == Elements(ns) + {n}
  {
    assert (ns + [n])[..|ns|] == ns;
  }

  // ---- the mutable wrapper

  class Terminal {
    const scan: Scanner
    var seqBuf: bytes
    var alt: bool
    var on: set<int>
    /** The bytes given to the emulator. */
    ghost var fed: bytes

    function Value(): Tracker
      reads this, scan
    {
      Tracker(scan.Value(), seqBuf, Modes(alt, on))
    }

    constructor ()
      ensures Value() == FRESH && fed == [] && fresh(scan)
    {
      scan := new Scanner();
      seqBuf, alt, on, fed := [], false, {25}, [];
    }

    method ResetModes()
      modifies `alt, `on
      ensures Modes(alt, on) == POWER_ON
    {
      alt, on := false, {25};
    }

    method VTWrite(p: bytes)
      modifies `fed
      ensures fed == old(fed) + p
    {
      fed := fed + p;
    }

    /** All of `p` reaches the emulator and the tracker. */
    method Write(p: bytes)
      modifies this, scan
      ensures Value() == Track(old(Value()), p, |p|)
      ensures fed == old(fed) + p
    {
      var before, consumed, switched := WriteBody(p, false);
    }

    /** Stops right behind the first sequence in `p` that toggles the screen, if there is one. */
    method WriteUntilScreenSwitch(p: bytes) returns (before: nat, consumed: nat, switched: bool)
      modifies this, scan
      ensures before <= consumed <= |p|
      ensures Value() == Track(old(Value()), p, consumed)
      ensures fed == old(fed) + p[..consumed]
      ensures forall k :: 0 < k < consumed ==> !Toggles(old(Value()), p, k)
      ensures switched ==> consumed > 0 && Toggles(old(Value()), p, consumed)
      ensures switched ==> before == SequenceStart(old(scan.Value()), p, consumed)
      ensures !switched ==> before == consumed == |p|
      ensures !switched ==> forall k :: 0 < k <= |p| ==> !Toggles(old(Value()), p, k)
    {
      hide Track, Feed, Next;
      before, consumed, switched := WriteBody(p, true);
    }

    method WriteBody(p: bytes, stopOnSwitch: bool) returns (before: nat, consumed: nat, switched: bool)
      modifies this, scan
      ensures before <= consumed <= |p|
      ensures Value() == Track(old(Value()), p, consumed)
      ensures fed == old(fed) + p[..consumed]
      ensures !stopOnSwitch ==> !switched
      ensures !switched ==> before == consumed == |p|
      ensures stopOnSwitch ==> forall k :: 0 < k < consumed ==> !Toggles(old(Value()), p, k)
      ensures stopOnSwitch && consumed > 0 ==> switched == Toggles(old(Value()), p, consumed)
      ensures switched ==> consumed > 0 && before == SequenceStart(old(scan.Value()), p, consumed)
    {
      hide Track, Feed, Next, After, SequenceStart;
      var start := 0;
      var seqStart := -1;
      ghost var t := Value();
      NothingTracked(t, p);
      for i := 0 to |p|
        invariant 0 <= start <= i
        invariant Value() == Track(t, p, i)
        invariant scan.Value() == After(t.scan, p, i)
        invariant fed == old(fed) + p[..start]
        invariant -1 <= seqStart < i || (i == 0 && seqStart == -1)
        invariant SequenceStart(t.scan, p, i) == if seqStart < 0 then 0 else seqStart
        invariant stopOnSwitch ==> forall k :: 0 < k <= i ==> !Toggles(t, p, k)
      {
        var b := p[i];
        OneMore(t, p, i);
        var control := b < 0x20 || b == 0x7F;
        if scan.IsAtGround() && (b == ESC || control) {
          start := Flush(p, start, i, old(fed));
        }
        if scan.IsAtGround() || b == ESC {
          seqStart := i;
        }
        var wasGround, sequenceEnded, toggled := Consume(b);
        var groundControl := wasGround && control && b != ESC;
        if toggled && stopOnSwitch {
          start := Flush(p, start, i + 1, old(fed));
          return if seqStart < 0 then 0 else seqStart, i + 1, true;
        }
        if sequenceEnded || groundControl {
          start := Flush(p, start, i + 1, old(fed));
        }
      }
      start := Flush(p, start, |p|, old(fed));
      return |p|, |p|, false;
    }

    /** One byte's share of the write loop. */
    method Consume(b: byte) returns (wasGround: bool, sequenceEnded: bool, toggled: bool)
      modifies `seqBuf, `alt, `on, scan
      ensures Value() == Feed(old(Value()), b)
      ensures wasGround == AtGround(old(scan.Value()))
      ensures sequenceEnded == Ends(old(Value()), b)
      ensures toggled == (alt != old(alt))
    {
      wasGround := scan.IsAtGround();
      if wasGround || b == ESC {
        seqBuf := [];
      }
      if |seqBuf| < MAX_SEQUENCE {
        seqBuf := seqBuf + [b];
      }
      scan.Step(b);
      sequenceEnded := !wasGround && scan.IsAtGround();
      toggled := false;
      if sequenceEnded {
        toggled := TrackSequence(seqBuf);
      }
    }

    method Flush(p: bytes, start: nat, end: nat, ghost p0: bytes) returns (next: nat)
      requires start <= end <= |p|
      modifies `fed
      ensures next == end
      ensures fed == old(fed) + p[start..end]
      ensures old(fed) == p0 + p[..start] ==> fed == p0 + p[..end]
    {
      if start != end {
        VTWrite(p[start..end]);
      }
      assert p[..start] + p[start..end] == p[..end];
      return end;
    }

    method TrackSequence(q: bytes) returns (switched: bool)
      modifies `alt, `on
      ensures Modes(alt, on) == Complete(old(Modes(alt, on)), q)
      ensures switched == (alt != old(alt))
    {
      if |q| < 2 || q[0] != ESC {
        return false;
      }
      var wasAlt := alt;
      if |q| == 2 && q[1] == 0x63 {
        ResetModes();
        return wasAlt;
      }
      if |q| < 5 || q[1] != 0x5B || q[2] != 0x3F {
        return false;
      }
      var final := q[|q| - 1];
      if final != SET && final != RESET {
        return false;
      }
      assert q[..3] == [ESC, 0x5B, 0x3F];
      var set_ := final == SET;
      var params := Params(q[3..|q| - 1]);
      ghost var m := Modes(alt, on);
      for i := 0 to |params|
        invariant Modes(alt, on) == SetModes(m, params[..i], set_)
      {
        assert params[..i + 1][..i] == params[..i];
        var n := ParseModeParam(params[i]);
        if n == 1049 || n == 47 || n == 1047 {
          alt := set_;
        } else if n in TRACKED {
          on := if set_ then on + {n} else on - {n};
        }
      }
      assert params[..|params|] == params;
      return alt != wasAlt;
    }

    /** Explicit sequences for every tracked mode. */
    method ModeSequences() returns (b: bytes)
      ensures b == ModeList(MODE_ORDER, on)
    {
      b := [];
      for i := 0 to |MODE_ORDER|
        invariant b == ModeList(MODE_ORDER[..i], on)
      {
        assert MODE_ORDER[..i + 1][..i] == MODE_ORDER[..i];
        b := b + ModeSequence(MODE_ORDER[i], MODE_ORDER[i] in on);
      }
      assert MODE_ORDER[..|MODE_ORDER|] == MODE_ORDER;
    }

    /** The decimal value of a parameter, or -1. */
    method ParseModeParam(param: bytes) returns (n: int)
      ensures n == ModeNumber(param)
      ensures n == -1 <==> |param| == 0 || |param| > 5 || exists k :: 0 <= k < |param| && !Digit(param[k])
      ensures n != -1 ==> 0 <= n < 100000 && Reads(param, n)
    {
      if |param| == 0 || |param| > 5 {
        return -1;
      }
      n := 0;
      for i := 0 to |param|
        invariant forall k :: 0 <= k < i ==> Digit(param[k])
        invariant n == Decimal(param[..i])
      {
        var c := param[i];
        if c < 0x30 || c > 0x39 {
          return -1;
        }
        assert param[..i + 1][..i] == param[..i];
        n := n * 10 + (c - 0x30);
      }
      assert param[..|param|] == param;
      DecimalReads(param);
    }

    /**
     * Follows the session from screen to screen: the write is taken up to each
     * toggle in turn, until it is used up. The terminal ends where one plain
     * write of the whole would leave it, and the stops are all the toggles.
     */
    method WriteByScreens(p: bytes) returns (stops: seq<nat>)
      modifies this, scan
      ensures Value() == Track(old(Value()), p, |p|)
      ensures fed == old(fed) + p
      ensures forall i, j :: 0 <= i < j < |stops| ==> stops[i] < stops[j]
      ensures forall n :: n in stops <==> 0 < n <= |p| && Toggles(old(Value()), p, n)
    {
      hide Track, Feed, Next, After, SequenceStart, Toggles;
      stops := [];
      var at := 0;
      ghost var t := Value();
      NothingTracked(t, p);
      while at < |p|
        invariant at <= |p|
        invariant Value() == Track(t, p, at)
        invariant fed == old(fed) + p[..at]
        invariant forall i, j :: 0 <= i < j < |stops| ==> stops[i] < stops[j]
        invariant forall i :: 0 <= i < |stops| ==> stops[i] <= at
        invariant forall n :: n in stops <==> 0 < n <= at && Toggles(t, p, n)
      {
        ghost var here := Value();
        var before, consumed, switched := WriteUntilScreenSwitch(p[at..]);
        ShiftToggles(t, p, at, consumed);
        assert p[..at] + p[at..][..consumed] == p[..at + consumed];
        if !switched {
          assert p[at..][..consumed] == p[at..];
        }
        at := at + consumed;
        if switched {
          stops := stops + [at];
        } else {
          break;
        }
      }
      assert p[..|p|] == p;
    }
  }

  /** Seen from the middle of a write, toggles are where the whole write has them. */
  lemma ShiftToggles(t: Tracker, p: bytes, at: nat, upTo: nat)
    requires at + upTo <= |p|
    ensures Track(t, p, at + upTo) == Track(Track(t, p, at), p[at..], upTo)
    ensures forall k :: 0 < k <= upTo ==> Toggles(t, p, at + k) == Toggles(Track(t, p, at), p[at..], k)
    ensures forall n :: at < n <= at + upTo ==> Toggles(t, p, n) == Toggles(Track(t, p, at), p[at..], n - at)
  {
    TrackFrom(t, p, at, upTo);
    forall k | 0 < k <= upTo
      ensures Toggles(t, p, at + k) == Toggles(Track(t, p, at), p[at..], k)
    {
      TrackFrom(t, p, at, k);
      TrackFrom(t, p, at, k - 1);
    }
    forall n | at < n <= at + upTo
      ensures Toggles(t, p, n) == Toggles(Track(t, p, at), p[at..], n - at)
    {
      assert Toggles(t, p, at + (n - at)) == Toggles(Track(t, p, at), p[at..], n - at);
    }
  }
}
