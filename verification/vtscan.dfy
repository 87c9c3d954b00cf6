/**
 * The VT/UTF-8 scanner. `Next` is the transition table, `After` the state a
 * scanner reaches after a number of bytes; the class `Scanner` is the mutable
 * scanner, proved to follow them. The escape, CSI and string states come from
 * the VT500 parser model; control sequences are those of section 5.4 of ECMA-48
 * and runes those of section 3 of RFC 3629.
 */
module VtScan {
  import opened Bytes

  datatype State =
    | Ground
    | Escape
    | EscapeIntermediate
    | CsiEntry
    | CsiParam
    | CsiIntermediate
    | CsiIgnore
    | DcsEntry
    | DcsParam
    | DcsIntermediate
    | DcsPassthrough
    | DcsIgnore
    | OscString
    | StringIgnore

  datatype Scan = Scan(st: State, utf8Pending: nat)

  const START := Scan(Ground, 0)

  predicate AtGround(s: Scan) {
    s.st == Ground && s.utf8Pending == 0
  }

  /** A scanner inside a sequence is never also inside a rune. */
  predicate Coherent(s: Scan) {
    s.st != Ground ==> s.utf8Pending == 0
  }

  predicate Intermediate(b: byte) { 0x20 <= b <= 0x2F }

  predicate Parameter(b: byte) { 0x30 <= b <= 0x3F }

  predicate Separated(b: byte) { 0x30 <= b <= 0x39 || b == 0x3B }

  predicate Final(b: byte) { 0x40 <= b <= 0x7E }

  predicate Continuation(b: byte) { 0x80 <= b <= 0xBF }

  predicate RuneStart(b: byte) { !Continuation(b) }

  predicate InCsi(st: State) {
    st in {CsiEntry, CsiParam, CsiIntermediate, CsiIgnore}
  }

  /** Continuation bytes that a lead byte announces. */
  function Announced(b: byte): nat {
    if 0xC0 <= b < 0xE0 then 1
    else if 0xE0 <= b < 0xF0 then 2
    else if 0xF0 <= b < 0xF8 then 3
    else 0
  }

  /** The successor of a state inside a sequence, for bytes other than CAN, SUB and ESC. */
  function Inside(st: State, b: byte): State {
    match st
    case Ground => Ground
    case Escape =>
      if b == 0x50 then DcsEntry
      else if b == 0x5B then CsiEntry
      else if b == 0x5D then OscString
      else if b in {0x58, 0x5E, 0x5F} then StringIgnore
      else if Intermediate(b) then EscapeIntermediate
      else if Parameter(b) || Final(b) then Ground
      else Escape
    case EscapeIntermediate => if Parameter(b) || Final(b) then Ground else st
    case CsiEntry =>
      if Final(b) then Ground
      else if Intermediate(b) then CsiIntermediate
      else if b == 0x3A then CsiIgnore
      else if Parameter(b) then CsiParam
      else st
    case CsiParam =>
      if Final(b) then Ground
      else if Intermediate(b) then CsiIntermediate
      else if Separated(b) then CsiParam
      else if Parameter(b) then CsiIgnore
      else st
    case CsiIntermediate => if Final(b) then Ground else if Parameter(b) then CsiIgnore else st
    case CsiIgnore => if Final(b) then Ground else st
    case DcsEntry =>
      if Intermediate(b) then DcsIntermediate
      else if b == 0x3A then DcsIgnore
      else if Parameter(b) then DcsParam
      else if Final(b) then DcsPassthrough
      else st
    case DcsParam =>
      if Separated(b) then st
      else if Parameter(b) then DcsIgnore
      else if Intermediate(b) then DcsIntermediate
      else if Final(b) then DcsPassthrough
      else st
    case DcsIntermediate => if Parameter(b) then DcsIgnore else if Final(b) then DcsPassthrough else st
    case OscString => if b == 0x07 then Ground else st
    case DcsPassthrough => st
    case DcsIgnore => st
    case StringIgnore => st
  }

  function Next(s: Scan, b: byte): Scan {
    if s.st == Ground then
      if s.utf8Pending > 0 && Continuation(b) then Scan(Ground, s.utf8Pending - 1)
      else if b == ESC then Scan(Escape, 0)
      else Scan(Ground, Announced(b))
    else if b == 0x18 || b == 0x1A then Scan(Ground, s.utf8Pending)
    else if b == ESC then Scan(Escape, s.utf8Pending)
    else Scan(Inside(s.st, b), s.utf8Pending)
  }

  /** The state reached from `s` after the first `n` bytes of `p`. */
  function After(s: Scan, p: bytes, n: nat): Scan
    requires n <= |p|
  {
    if n == 0 then s else Next(After(s, p, n - 1), p[n - 1])
  }

  /** A scanner that has read `p` from the start of a stream is at ground after `n` bytes. */
  predicate GroundAt(p: bytes, n: nat)
    requires n <= |p|
  {
    AtGround(After(START, p, n))
  }

  /** A block that begins and ends at ground, and so tiles with others. */
  predicate Aligned(p: bytes) {
    GroundAt(p, |p|)
  }

  /** A position the cutting code accepts: ground, and not followed by a continuation byte. */
  predicate Cuttable(s: Scan, p: bytes, n: nat)
    requires n <= |p|
  {
    AtGround(After(s, p, n)) && (n == |p| || RuneStart(p[n]))
  }

  // ---- composition

  lemma {:induction false} AfterPrefix(s: Scan, p: bytes, q: bytes, n: nat)
    requires n <= |p| && n <= |q| && p[..n] == q[..n]
    ensures After(s, p, n) == After(s, q, n)
  {
    if n > 0 {
      assert p[..n - 1] == p[..n][..n - 1] == q[..n][..n - 1] == q[..n - 1];
      assert p[n - 1] == p[..n][n - 1] == q[..n][n - 1] == q[n - 1];
      AfterPrefix(s, p, q, n - 1);
    }
  }

  /** Scanning two strings one after the other is scanning their concatenation. */
  lemma {:induction false} AfterConcat(s: Scan, a: bytes, b: bytes, k: nat)
    requires k <= |b|
    ensures After(s, a + b, |a| + k) == After(After(s, a, |a|), b, k)
  {
    if k == 0 {
      assert (a + b)[..|a|] == a == a[..|a|];
      AfterPrefix(s, a + b, a, |a|);
    } else {
      AfterConcat(s, a, b, k - 1);
      assert (a + b)[|a| + k - 1] == b[k - 1];
    }
  }

  /** A suffix that starts at ground can be scanned afresh. */
  lemma GroundRestart(p: bytes, n: nat, k: nat)
    requires n + k <= |p| && GroundAt(p, n)
    ensures After(START, p, n + k) == After(START, p[n..], k)
  {
    hide After;
    AfterConcat(START, p[..n], p[n..], k);
    assert p[..n] + p[n..] == p;
    AfterPrefix(START, p[..n], p, n);
    assert After(START, p[..n], n) == START;
  }

  lemma AlignedConcat(a: bytes, b: bytes)
    requires Aligned(a) && Aligned(b)
    ensures Aligned(a + b)
  {
    AfterConcat(START, a, b, |b|);
  }

  lemma {:induction false} StaysCoherent(s: Scan, p: bytes, n: nat)
    requires n <= |p| && Coherent(s)
    ensures Coherent(After(s, p, n))
  {
    if n > 0 {
      StaysCoherent(s, p, n - 1);
    }
  }

  // ---- what SafeCut may drop

  /**
   * At ground a stray continuation byte keeps the scanner at ground, so the
   * run of continuation bytes that disqualifies a cut ends in a later, accepted
   * one (or at the end of the buffer).
   */
  lemma {:induction false} CuttableBeyond(s: Scan, p: bytes, n: nat) returns (m: nat)
    requires n <= |p| && AtGround(After(s, p, n))
    ensures n <= m <= |p| && Cuttable(s, p, m)
    ensures forall k :: n <= k <= m ==> AtGround(After(s, p, k))
    decreases |p| - n
  {
    m := n;
    if n < |p| && Continuation(p[n]) {
      assert After(s, p, n + 1) == Next(After(s, p, n), p[n]);
      m := CuttableBeyond(s, p, n + 1);
    }
  }

  /** With the whole buffer as target, the last accepted cut is the last ground position. */
  lemma LastCutIsLastGround(s: Scan, p: bytes, best: nat)
    requires best <= |p| && AtGround(After(s, p, best))
    requires forall n :: best < n <= |p| ==> !Cuttable(s, p, n)
    ensures forall n :: best < n <= |p| ==> !AtGround(After(s, p, n))
  {
    forall n | best < n <= |p|
      ensures !AtGround(After(s, p, n))
    {
      if AtGround(After(s, p, n)) {
        var m := CuttableBeyond(s, p, n);
        assert false;
      }
    }
  }

  /** Text of one-byte characters other than ESC never leaves ground. */
  predicate Plain(p: bytes) {
    forall i :: 0 <= i < |p| ==> p[i] < 0x80 && p[i] != ESC
  }

  lemma {:induction false} PlainStaysGround(p: bytes, n: nat)
    requires Plain(p) && n <= |p|
    ensures GroundAt(p, n)
  {
    if n > 0 {
      PlainStaysGround(p, n - 1);
      assert p[n - 1] < 0x80;
    }
  }

  // ---- sequences and runes are never cut

  /** A control sequence as section 5.4 of ECMA-48 writes it, in its 7-bit form. */
  predicate ControlSequence(u: bytes) {
    && |u| >= 3
    && u[0] == ESC
    && u[1] == 0x5B
    && Final(u[|u| - 1])
    && exists i :: 2 <= i < |u| && ParametersThenIntermediates(u, i)
  }

  predicate ParametersThenIntermediates(u: bytes, i: int)
    requires 2 <= i < |u|
  {
    && (forall k :: 2 <= k < i ==> Parameter(u[k]))
    && (forall k :: i <= k < |u| - 1 ==> Intermediate(u[k]))
  }

  /** Anything between the introducer and a final byte: malformed parameters are passed over. */
  predicate Introduced(u: bytes) {
    && |u| >= 3
    && u[0] == ESC
    && u[1] == 0x5B
    && Final(u[|u| - 1])
    && forall k :: 2 <= k < |u| - 1 ==> !Final(u[k]) && !Cancels(u[k])
  }

  lemma ControlSequenceIsIntroduced(u: bytes)
    ensures ControlSequence(u) ==> Introduced(u)
  {
  }

  /** CAN, SUB and ESC cut a sequence off. */
  predicate Cancels(b: byte) { b in {0x18, 0x1A, ESC} }

  /** An escape sequence: intermediates and a final byte that introduces nothing longer. */
  predicate EscapeSequence(u: bytes) {
    && |u| >= 2
    && u[0] == ESC
    && (Parameter(u[|u| - 1]) || Final(u[|u| - 1]))
    && (|u| == 2 ==> u[1] !in {0x50, 0x58, 0x5B, 0x5D, 0x5E, 0x5F})
    && forall k :: 1 <= k < |u| - 1 ==> Intermediate(u[k])
  }

  /** A device control, start-of-string, privacy or application string, ended by ESC \. */
  predicate StringCommand(u: bytes) {
    && |u| >= 4
    && u[0] == ESC
    && u[1] in {0x50, 0x58, 0x5E, 0x5F}
    && u[|u| - 2] == ESC
    && u[|u| - 1] == 0x5C
    && forall k :: 2 <= k < |u| - 2 ==> !Cancels(u[k])
  }

  /** An operating system command with its payload, ended by BEL or by ESC \. */
  predicate OscCommand(u: bytes) {
    && |u| >= 3
    && u[0] == ESC
    && u[1] == 0x5D
    && var end := if u[|u| - 1] == 0x07 then |u| - 1 else |u| - 2;
       && end >= 2
       && (end == |u| - 2 ==> u[end] == ESC && u[end + 1] == 0x5C)
       && forall k :: 2 <= k < end ==> u[k] != 0x07 && !Cancels(u[k])
  }

  /** A multi-byte rune as section 3 of RFC 3629 writes it: a lead byte and its continuations. */
  predicate Rune(u: bytes) {
    && |u| >= 2
    && (|u| == 2 ==> 0xC0 <= u[0] <= 0xDF)
    && (|u| == 3 ==> 0xE0 <= u[0] <= 0xEF)
    && (|u| >= 4 ==> |u| == 4 && 0xF0 <= u[0] <= 0xF7)
    && forall k :: 1 <= k < |u| ==> Continuation(u[k])
  }

  predicate Unit(u: bytes) {
    ControlSequence(u) || Introduced(u) || EscapeSequence(u) || StringCommand(u) || OscCommand(u) || Rune(u)
  }

  /** CAN and SUB end whatever they stand in. */
  lemma CancelEndsAll(pre: bytes, b: byte, post: bytes)
    requires b == 0x18 || b == 0x1A
    ensures GroundAt(pre + [b] + post, |pre| + 1)
  {
    StaysCoherent(START, pre, |pre|);
    OneByteOn(START, pre, b, post);
  }

  /** A byte that does not continue a rune begun is read as if the rune had not begun. */
  lemma BrokenRuneIsAbandoned(pre: bytes, b: byte, post: bytes)
    requires After(START, pre, |pre|).st == Ground && RuneStart(b)
    ensures After(START, pre + [b] + post, |pre| + 1) == After(START, [b], 1)
  {
    OneByteOn(START, pre, b, post);
    assert After(START, [b], 1) == Next(After(START, [b], 0), b);
  }

  lemma OneByteOn(s: Scan, pre: bytes, b: byte, post: bytes)
    ensures After(s, pre + [b] + post, |pre| + 1) == Next(After(s, pre, |pre|), b)
  {
    var p := pre + [b] + post;
    assert p[..|pre|] == pre;
    AfterPrefix(s, p, pre, |pre|);
    assert p[|pre|] == b;
  }

  lemma {:induction false} ControlSequenceStates(s: Scan, u: bytes, n: nat)
    requires Coherent(s) && Introduced(u) && 1 <= n < |u|
    ensures var a := After(s, u, n);
            a.utf8Pending == 0 && if n == 1 then a.st == Escape else InCsi(a.st)
  {
    assert After(s, u, n) == Next(After(s, u, n - 1), u[n - 1]);
    if n == 1 {
      assert After(s, u, 0) == s;
    } else {
      ControlSequenceStates(s, u, n - 1);
    }
  }

  lemma {:induction false} EscapeSequenceStates(s: Scan, u: bytes, n: nat)
    requires Coherent(s) && EscapeSequence(u) && 1 <= n < |u|
    ensures After(s, u, n) == Scan(if n == 1 then Escape else EscapeIntermediate, 0)
  {
    assert After(s, u, n) == Next(After(s, u, n - 1), u[n - 1]);
    if n == 1 {
      assert After(s, u, 0) == s;
    } else {
      EscapeSequenceStates(s, u, n - 1);
    }
  }

  predicate InString(st: State) {
    st in {DcsEntry, DcsParam, DcsIntermediate, DcsPassthrough, DcsIgnore, StringIgnore}
  }

  lemma {:induction false} StringCommandStates(s: Scan, u: bytes, n: nat)
    requires Coherent(s) && StringCommand(u) && 1 <= n < |u|
    ensures var a := After(s, u, n);
            a.utf8Pending == 0 && if n == 1 || n == |u| - 1 then a.st == Escape else InString(a.st)
  {
    assert After(s, u, n) == Next(After(s, u, n - 1), u[n - 1]);
    if n == 1 {
      assert After(s, u, 0) == s;
    } else {
      StringCommandStates(s, u, n - 1);
    }
  }

  lemma {:induction false} OscCommandStates(s: Scan, u: bytes, n: nat)
    requires Coherent(s) && OscCommand(u) && 1 <= n < |u|
    ensures var a := After(s, u, n);
            && a.utf8Pending == 0
            && if n == 1 || (n == |u| - 1 && u[|u| - 1] != 0x07) then a.st == Escape else a.st == OscString
  {
    assert After(s, u, n) == Next(After(s, u, n - 1), u[n - 1]);
    if n == 1 {
      assert After(s, u, 0) == s;
    } else {
      OscCommandStates(s, u, n - 1);
    }
  }

  lemma {:induction false} RuneStates(u: bytes, n: nat)
    requires Rune(u) && 1 <= n <= |u|
    ensures After(START, u, n) == Scan(Ground, |u| - n)
  {
    assert After(START, u, n) == Next(After(START, u, n - 1), u[n - 1]);
    if n == 1 {
      assert After(START, u, 0) == START;
    } else {
      RuneStates(u, n - 1);
    }
  }

  /**
   * Wherever a complete sequence, command, string or rune stands in a stream,
   * the scanner is at ground right behind it and nowhere inside it. A sequence
   * begins with ESC and may follow anything; a rune must begin at ground.
   */
  lemma UnitNeverSplit(pre: bytes, u: bytes, post: bytes)
    requires Unit(u)
    requires Rune(u) ==> GroundAt(pre, |pre|)
    ensures GroundAt(pre + u + post, |pre| + |u|)
    ensures forall n :: |pre| < n < |pre| + |u| ==> !GroundAt(pre + u + post, n)
  {
    hide After;
    var s := After(START, pre, |pre|);
    StaysCoherent(START, pre, |pre|);
    forall k: nat | k <= |u|
      ensures After(START, pre + u + post, |pre| + k) == After(s, u, k)
    {
      assert pre + u + post == pre + (u + post);
      AfterConcat(START, pre, u + post, k);
      assert (u + post)[..k] == u[..k];
      AfterPrefix(s, u + post, u, k);
    }
    forall n | |pre| < n <= |pre| + |u|
      ensures GroundAt(pre + u + post, n) <==> n == |pre| + |u|
    {
      UnitStates(s, u, n - |pre|);
      assert After(START, pre + u + post, |pre| + (n - |pre|)) == After(s, u, n - |pre|);
    }
    assert |u| >= 2;
    assert GroundAt(pre + u + post, |pre| + |u|);
  }

  /** Inside a unit the scanner is never at ground; behind it, it is. */
  lemma UnitStates(s: Scan, u: bytes, k: nat)
    requires Coherent(s) && Unit(u) && 1 <= k <= |u|
    requires Rune(u) ==> s == START
    ensures AtGround(After(s, u, k)) <==> k == |u|
  {
    if Rune(u) {
      RuneStates(u, k);
      return;
    }
    var n := if k < |u| then k else k - 1;
    assert After(s, u, |u|) == Next(After(s, u, |u| - 1), u[|u| - 1]);
    if ControlSequence(u) || Introduced(u) {
      ControlSequenceIsIntroduced(u);
      ControlSequenceStates(s, u, n);
    } else if EscapeSequence(u) {
      EscapeSequenceStates(s, u, n);
    } else if StringCommand(u) {
      StringCommandStates(s, u, n);
    } else {
      OscCommandStates(s, u, n);
    }
  }

  // ---- the mutable scanner

  class Scanner {
    var st: State
    var utf8Pending: nat

    function Value(): Scan
      reads this
    {
      Scan(st, utf8Pending)
    }

    constructor ()
      ensures Value() == START
    {
      st, utf8Pending := Ground, 0;
    }

    constructor Copy(other: Scanner)
      ensures Value() == other.Value()
    {
      st, utf8Pending := other.st, other.utf8Pending;
    }

    method Reset()
      modifies this
      ensures Value() == START
    {
      st, utf8Pending := Ground, 0;
    }

    predicate IsAtGround()
      reads this
      ensures IsAtGround() <==> Value() == START
    {
      st == Ground && utf8Pending == 0
    }

    method Step(b: byte)
      modifies this
      ensures Value() == Next(old(Value()), b)
    {
      if st == Ground {
        StepGround(b);
        return;
      }
      if b == 0x18 || b == 0x1A {
        st := Ground;
        return;
      }
      if b == ESC {
        st := Escape;
        return;
      }
      match st {
        case Escape =>
          StepEscape(b);
        case EscapeIntermediate =>
          if 0x30 <= b <= 0x7E {
            st := Ground;
          }
        case CsiEntry | CsiParam =>
          StepCSI(b);
        case CsiIntermediate =>
          StepCSIIntermediate(b);
        case CsiIgnore =>
          if 0x40 <= b <= 0x7E {
            st := Ground;
          }
        case DcsEntry | DcsParam | DcsIntermediate =>
          StepDCS(b);
        case OscString =>
          if b == 0x07 {
            st := Ground;
          }
        case DcsPassthrough | DcsIgnore | StringIgnore =>
      }
    }

    method StepGround(b: byte)
      requires st == Ground
      modifies this
      ensures Value() == Next(old(Value()), b)
    {
      if utf8Pending > 0 {
        if 0x80 <= b <= 0xBF {
          utf8Pending := utf8Pending - 1;
          return;
        }
        utf8Pending := 0;
      }
      if b == ESC {
        st := Escape;
      } else if b < 0x80 {
      } else if b < 0xC0 {
      } else if b < 0xE0 {
        utf8Pending := 1;
      } else if b < 0xF0 {
        utf8Pending := 2;
      } else if b < 0xF8 {
        utf8Pending := 3;
      }
    }

    method StepEscape(b: byte)
      requires st == Escape && b !in {0x18, 0x1A, ESC}
      modifies `st
      ensures st == Inside(Escape, b)
    {
      if b == 0x50 {
        st := DcsEntry;
      } else if b == 0x5B {
        st := CsiEntry;
      } else if b == 0x5D {
        st := OscString;
      } else if b == 0x58 || b == 0x5E || b == 0x5F {
        st := StringIgnore;
      } else if 0x20 <= b <= 0x2F {
        st := EscapeIntermediate;
      } else if 0x30 <= b <= 0x7E {
        st := Ground;
      }
    }

    method StepCSI(b: byte)
      requires st in {CsiEntry, CsiParam} && b !in {0x18, 0x1A, ESC}
      modifies `st
      ensures st == Inside(old(st), b)
    {
      if 0x40 <= b <= 0x7E {
        st := Ground;
      } else if 0x20 <= b <= 0x2F {
        st := CsiIntermediate;
      } else if b == 0x3A {
        st := CsiIgnore;
      } else if 0x30 <= b <= 0x39 || b == 0x3B {
        st := CsiParam;
      } else if 0x3C <= b <= 0x3F {
        if st == CsiEntry {
          st := CsiParam;
        } else {
          st := CsiIgnore;
        }
      }
    }

    method StepCSIIntermediate(b: byte)
      requires st == CsiIntermediate && b !in {0x18, 0x1A, ESC}
      modifies `st
      ensures st == Inside(CsiIntermediate, b)
    {
      if 0x40 <= b <= 0x7E {
        st := Ground;
      } else if 0x20 <= b <= 0x2F {
      } else if 0x30 <= b <= 0x3F {
        st := CsiIgnore;
      }
    }

    method StepDCS(b: byte)
      requires st in {DcsEntry, DcsParam, DcsIntermediate} && b !in {0x18, 0x1A, ESC}
      modifies `st
      ensures st == Inside(old(st), b)
    {
      match st {
        case DcsEntry =>
          if 0x20 <= b <= 0x2F {
            st := DcsIntermediate;
          } else if b == 0x3A {
            st := DcsIgnore;
          } else if 0x30 <= b <= 0x39 || 0x3B <= b <= 0x3F {
            st := DcsParam;
          } else if 0x40 <= b <= 0x7E {
            st := DcsPassthrough;
          }
        case DcsParam =>
          if 0x30 <= b <= 0x39 || b == 0x3B {
          } else if b == 0x3A || 0x3C <= b <= 0x3F {
            st := DcsIgnore;
          } else if 0x20 <= b <= 0x2F {
            st := DcsIntermediate;
          } else if 0x40 <= b <= 0x7E {
            st := DcsPassthrough;
          }
        case DcsIntermediate =>
          if 0x20 <= b <= 0x2F {
          } else if 0x30 <= b <= 0x3F {
            st := DcsIgnore;
          } else if 0x40 <= b <= 0x7E {
            st := DcsPassthrough;
          }
      }
    }

    method Advance(p: bytes)
      modifies this
      ensures Value() == After(old(Value()), p, |p|)
    {
      for i := 0 to |p|
        invariant Value() == After(old(Value()), p, i)
      {
        Step(p[i]);
      }
    }

    /**
     * The largest acceptable cut at or before `target`, or -1. Offset 0 is
     * accepted whenever the scanner is already at ground.
     */
    method SafeCut(buf: bytes, target: int) returns (best: int)
      ensures best == -1 || (0 <= best <= target && best <= |buf|)
      ensures best > 0 ==> Cuttable(Value(), buf, best)
      ensures best == 0 ==> AtGround(Value())
      ensures AtGround(Value()) && target >= 0 ==> best >= 0
      ensures forall n :: 0 < n <= |buf| && best < n <= target ==> !Cuttable(Value(), buf, n)
      ensures target >= |buf| ==> forall n :: 0 <= n <= |buf| && best < n ==> !AtGround(After(Value(), buf, n))
    {
      var limit := target;
      if limit > |buf| {
        limit := |buf|;
      }
      if limit < 0 {
        return -1;
      }
      var cp := new Scanner.Copy(this);
      best := -1;
      if cp.IsAtGround() {
        best := 0;
      }
      var i := 0;
      while i < |buf|
        invariant 0 <= i <= |buf|
        invariant i <= limit + 1
        invariant i <= limit ==> cp.Value() == After(Value(), buf, i)
        invariant -1 <= best <= limit && best <= i
        invariant best > 0 ==> Cuttable(Value(), buf, best)
        invariant best == 0 ==> AtGround(Value())
        invariant AtGround(Value()) ==> best >= 0
        invariant forall n :: 0 < n <= i && best < n <= limit ==> !Cuttable(Value(), buf, n)
      {
        cp.Step(buf[i]);
        var off := i + 1;
        if off > limit {
          break;
        }
        i := i + 1;
        if off < |buf| && Continuation(buf[off]) {
          continue;
        }
        if cp.IsAtGround() {
          best := off;
        }
      }
      if target >= |buf| {
        assert limit == |buf|;
        forall n | 0 <= n <= |buf| && best < n
          ensures !AtGround(After(Value(), buf, n))
        {
          if AtGround(After(Value(), buf, n)) {
            var m := CuttableBeyond(Value(), buf, n);
            assert false;
          }
        }
      }
    }
  }
}
