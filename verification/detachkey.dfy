/**
 * The detach key in the terminal's input: ctrl+\ as a control byte or as a
 * Kitty keyboard protocol `CSI u` key. The parser is proved against the
 * grammar; the scanner, which holds back what may grow into the key, against
 * the input as a whole, however it was split into reads.
 */
module DetachKey {
  import opened Bytes
  import T = Tracker

  const FS: byte := 0x1C
  const COLON: byte := 0x3A
  const SEMI: byte := 0x3B
  const END: byte := 0x75
  const WORD: nat := 0x1_0000_0000
  const BACKSLASH: nat := 0x5C
  const CTRL: nat := 4

  // ---- the parser's positions

  function DigitsEnd(s: bytes, i: nat): (j: nat)
    requires i <= |s|
    ensures i <= j <= |s|
    decreases |s| - i
  {
    if i < |s| && T.Digit(s[i]) then DigitsEnd(s, i + 1) else i
  }

  /** A decimal in 32 bits, wrapping. */
  function Number(d: bytes): nat {
    if d == [] then 0 else (Number(d[..|d| - 1]) * 10 + (d[|d| - 1] as int - 0x30)) % WORD
  }

  function AlternatesEnd(s: bytes, i: nat): (j: nat)
    requires i <= |s|
    ensures i <= j <= |s|
    decreases |s| - i
  {
    if i < |s| && s[i] == COLON then AlternatesEnd(s, DigitsEnd(s, i + 1)) else i
  }

  predicate TextByte(b: byte) { T.Digit(b) || b == COLON }

  function TextEnd(s: bytes, i: nat): (j: nat)
    requires i <= |s|
    ensures i <= j <= |s|
    decreases |s| - i
  {
    if i < |s| && TextByte(s[i]) then TextEnd(s, i + 1) else i
  }

  /** Modifiers are one more than their bits; the lock keys' bits are ignored. */
  predicate Held(modifiers: nat, expected: nat) {
    modifiers >= 1 && (expected > 0 ==> (modifiers - 1) % 64 == expected)
  }

  /** A number is read back modulo 32 bits, whatever zeros lead it. */
  lemma {:induction false} NumberOfDigits(n: nat, zeros: bytes)
    requires forall i :: 0 <= i < |zeros| ==> zeros[i] == 0x30
    ensures Number(zeros + T.Digits(n)) == n % WORD
    decreases n
  {
    var d := zeros + T.Digits(n);
    assert d[|d| - 1] == 0x30 + n % 10;
    if n < 10 {
      assert d[..|d| - 1] == zeros;
      NumberOfZeros(zeros);
    } else {
      assert d[..|d| - 1] == zeros + T.Digits(n / 10);
      NumberOfDigits(n / 10, zeros);
      OneMoreDigit(n / 10, n % 10);
    }
  }

  lemma {:induction false} NumberOfZeros(zeros: bytes)
    requires forall i :: 0 <= i < |zeros| ==> zeros[i] == 0x30
    ensures Number(zeros) == 0
  {
    if zeros != [] {
      NumberOfZeros(zeros[..|zeros| - 1]);
    }
  }

  lemma OneMoreDigit(n: nat, d: nat)
    requires d < 10
    ensures (n % WORD * 10 + d) % WORD == (n * 10 + d) % WORD
  {
    assert n * 10 + d == n / WORD * 10 * WORD + (n % WORD * 10 + d);
    SameModulo(n % WORD * 10 + d, n / WORD * 10);
  }

  lemma {:induction false} SameModulo(r: nat, q: nat)
    ensures (q * WORD + r) % WORD == r % WORD
    decreases q
  {
    if q > 0 {
      SameModulo(r, q - 1);
      assert q * WORD + r == (q - 1) * WORD + r + WORD;
    }
  }

  /** The lock keys come in steps of 64, so exactly one modifier value in each step counts. */
  lemma HeldIffLocks(modifiers: nat, expected: nat)
    requires 0 < expected < 64
    ensures Held(modifiers, expected) <==> exists locks: nat :: modifiers == 1 + expected + 64 * locks
  {
    if Held(modifiers, expected) {
      assert modifiers == 1 + expected + 64 * ((modifiers - 1) / 64);
    }
  }

  predicate Keypress(s: bytes, key: nat, mods: nat) {
    var a := DigitsEnd(s, 0);
    && a > 0 && Number(s[..a]) == key
    && var b := AlternatesEnd(s, a);
    && b < |s| && s[b] == SEMI
    && var c := DigitsEnd(s, b + 1);
    && c > b + 1 && Held(Number(s[b + 1..c]), mods)
    && AfterModifiers(s, c)
  }

  /** The rest of the key: an event type other than release, text, and the final byte. */
  predicate AfterModifiers(s: bytes, c: nat)
    requires c <= |s|
  {
    var event := c < |s| && s[c] == COLON;
    var d := if event then DigitsEnd(s, c + 1) else c;
    && (event ==> d > c + 1 && Number(s[c + 1..d]) != 3)
    && var e := if d < |s| && s[d] == SEMI then TextEnd(s, d + 1) else d;
    && e < |s| && s[e] == END
  }

  method ParseDecimal(s: bytes, start: nat) returns (value: nat, pos: nat)
    requires start <= |s|
    ensures pos == DigitsEnd(s, start) && value == Number(s[start..pos])
  {
    pos, value := start, 0;
    while pos < |s| && T.Digit(s[pos])
      invariant start <= pos <= |s|
      invariant DigitsEnd(s, pos) == DigitsEnd(s, start) && value == Number(s[start..pos])
    {
      assert s[start..pos + 1][..pos - start] == s[start..pos];
      value := (value * 10 + (s[pos] as int - 0x30)) % WORD;
      pos := pos + 1;
    }
  }

  method KeypressWithMod(s: bytes, key: nat, mods: nat) returns (matches: bool)
    ensures matches == Keypress(s, key, mods)
  {
    hide Number, DigitsEnd, AfterModifiers;
    var code, pos := ParseDecimal(s, 0);
    if pos == 0 || code != key {
      return false;
    }
    ghost var a := pos;
    while pos < |s| && s[pos] == COLON
      invariant pos <= |s| && AlternatesEnd(s, pos) == AlternatesEnd(s, a)
      decreases |s| - pos
    {
      var _, next := ParseDecimal(s, pos + 1);
      pos := next;
    }
    if pos >= |s| || s[pos] != SEMI {
      return false;
    }
    pos := pos + 1;
    var start := pos;
    var modifiers;
    modifiers, pos := ParseDecimal(s, start);
    if pos == start || modifiers < 1 {
      return false;
    }
    if mods > 0 && mods != (modifiers - 1) % 64 {
      return false;
    }
    matches := SkipToFinal(s, pos);
  }

  method SkipToFinal(s: bytes, start: nat) returns (matches: bool)
    requires start <= |s|
    ensures matches == AfterModifiers(s, start)
  {
    var pos := start;
    if pos < |s| && s[pos] == COLON {
      pos := pos + 1;
      var event, next := ParseDecimal(s, pos);
      if next == pos || event == 3 {
        return false;
      }
      pos := next;
    }
    if pos < |s| && s[pos] == SEMI {
      pos := pos + 1;
      ghost var text := pos;
      while pos < |s| && TextByte(s[pos])
        invariant pos <= |s| && TextEnd(s, pos) == TextEnd(s, text)
      {
        pos := pos + 1;
      }
    }
    matches := pos < |s| && s[pos] == END;
  }

  // ---- the grammar

  datatype Field = Absent | Given(p: bytes)

  /** key[:alternates] ; modifiers[:event] [;text] u */
  datatype Key = Key(code: bytes, alternates: seq<bytes>, modifiers: bytes, event: Field, text: Field)

  predicate AllDigits(p: bytes) {
    forall i :: 0 <= i < |p| ==> T.Digit(p[i])
  }

  predicate WellFormed(k: Key) {
    && k.code != [] && AllDigits(k.code)
    && (forall i :: 0 <= i < |k.alternates| ==> AllDigits(k.alternates[i]))
    && k.modifiers != [] && AllDigits(k.modifiers)
    && (k.event.Given? ==> k.event.p != [] && AllDigits(k.event.p))
    && (k.text.Given? ==> forall i :: 0 <= i < |k.text.p| ==> TextByte(k.text.p[i]))
  }

  function Alternates(alts: seq<bytes>): bytes {
    if alts == [] then [] else [COLON] + alts[0] + Alternates(alts[1..])
  }

  function Optional(mark: byte, f: Field): bytes {
    if f.Given? then [mark] + f.p else []
  }

  function Tail(k: Key): bytes {
    Optional(COLON, k.event) + (Optional(SEMI, k.text) + [END])
  }

  function Spelling(k: Key): bytes {
    k.code + (Alternates(k.alternates) + ([SEMI] + (k.modifiers + Tail(k))))
  }

  /** The press or repeat of `key` with exactly these modifiers. */
  predicate Presses(k: Key, key: nat, mods: nat) {
    && WellFormed(k)
    && Number(k.code) == key
    && Held(Number(k.modifiers), mods)
    && (k.event.Given? ==> Number(k.event.p) != 3)
  }

  predicate At(s: bytes, i: nat, p: bytes) {
    i + |p| <= |s| && s[i..i + |p|] == p
  }

  lemma AtSplit(s: bytes, i: nat, p: bytes, q: bytes)
    requires At(s, i, p + q)
    ensures At(s, i, p) && At(s, i + |p|, q)
  {
    assert s[i..i + |p|] == s[i..i + |p + q|][..|p|];
    assert s[i + |p|..i + |p| + |q|] == s[i..i + |p + q|][|p|..];
  }

  lemma AtJoin(s: bytes, i: nat, p: bytes, q: bytes)
    requires At(s, i, p) && At(s, i + |p|, q)
    ensures At(s, i, p + q)
  {
    assert s[i..i + |p + q|] == s[i..i + |p|] + s[i + |p|..i + |p| + |q|];
  }

  lemma AtSlice(s: bytes, i: nat, p: bytes)
    ensures At(s, i, p) <==> i + |p| <= |s| && s[i..i + |p|] == p
  {
  }

  lemma AtByte(s: bytes, i: nat, p: bytes)
    requires At(s, i, p) && p != []
    ensures i < |s| && s[i] == p[0]
  {
    assert s[i] == s[i..i + |p|][0];
  }

  lemma MarkedAt(s: bytes, i: nat, mark: byte, j: nat)
    requires i < j <= |s| && s[i] == mark
    ensures At(s, i, [mark] + s[i + 1..j])
  {
    assert s[i..j] == [mark] + s[i + 1..j];
  }

  lemma {:induction false} DigitsRun(s: bytes, i: nat)
    requires i <= |s|
    ensures var j := DigitsEnd(s, i); AllDigits(s[i..j]) && (j < |s| ==> !T.Digit(s[j]))
    decreases |s| - i
  {
    if i < |s| && T.Digit(s[i]) {
      DigitsRun(s, i + 1);
      var j := DigitsEnd(s, i);
      assert s[i..j] == [s[i]] + s[i + 1..j];
    }
  }

  lemma {:induction false} DigitsEndAt(s: bytes, i: nat, d: bytes)
    requires At(s, i, d) && AllDigits(d) && (i + |d| < |s| ==> !T.Digit(s[i + |d|]))
    ensures DigitsEnd(s, i) == i + |d|
    decreases |d|
  {
    if d != [] {
      assert s[i] == s[i..i + |d|][0] == d[0];
      assert s[i + 1..i + |d|] == s[i..i + |d|][1..];
      DigitsEndAt(s, i + 1, d[1..]);
    }
  }

  lemma {:induction false} TextRun(s: bytes, i: nat)
    requires i <= |s|
    ensures var j := TextEnd(s, i); forall k :: i <= k < j ==> TextByte(s[k])
    decreases |s| - i
  {
    if i < |s| && TextByte(s[i]) {
      TextRun(s, i + 1);
    }
  }

  lemma {:induction false} TextEndAt(s: bytes, i: nat, p: bytes)
    requires At(s, i, p) && (forall k :: 0 <= k < |p| ==> TextByte(p[k]))
    requires i + |p| < |s| ==> !TextByte(s[i + |p|])
    ensures TextEnd(s, i) == i + |p|
    decreases |p|
  {
    if p != [] {
      assert s[i] == s[i..i + |p|][0] == p[0];
      assert s[i + 1..i + |p|] == s[i..i + |p|][1..];
      TextEndAt(s, i + 1, p[1..]);
    }
  }

  lemma {:induction false} AlternatesRun(s: bytes, i: nat) returns (alts: seq<bytes>)
    requires i <= |s|
    ensures forall k :: 0 <= k < |alts| ==> AllDigits(alts[k])
    ensures At(s, i, Alternates(alts)) && AlternatesEnd(s, i) == i + |Alternates(alts)|
    decreases |s| - i
  {
    hide DigitsEnd, AllDigits;
    if i < |s| && s[i] == COLON {
      var j := DigitsEnd(s, i + 1);
      DigitsRun(s, i + 1);
      var rest := AlternatesRun(s, j);
      alts := [s[i + 1..j]] + rest;
      assert alts[1..] == rest;
      MarkedAt(s, i, COLON, j);
      AtJoin(s, i, [COLON] + s[i + 1..j], Alternates(rest));
    } else {
      alts := [];
    }
  }

  lemma {:induction false} AlternatesEndAt(s: bytes, i: nat, alts: seq<bytes>)
    requires forall k :: 0 <= k < |alts| ==> AllDigits(alts[k])
    requires At(s, i, Alternates(alts))
    requires var j := i + |Alternates(alts)|; j < |s| && s[j] == SEMI
    ensures AlternatesEnd(s, i) == i + |Alternates(alts)|
    decreases |alts|
  {
    hide At, AllDigits, DigitsEnd;
    AtSlice(s, i, Alternates(alts));
    if alts != [] {
      var d, rest := alts[0], Alternates(alts[1..]);
      AtSplit(s, i, [COLON] + d, rest);
      AtSplit(s, i, [COLON], d);
      AtByte(s, i, [COLON]);
      var j := i + 1 + |d|;
      if alts[1..] != [] {
        AtByte(s, j, rest);
      }
      DigitsEndAt(s, i + 1, d);
      AlternatesEndAt(s, j, alts[1..]);
    }
  }

  lemma SpelledFromPieces(s: bytes, k: Key)
    requires var a := |k.code|;
             var b := a + |Alternates(k.alternates)|;
             && At(s, 0, k.code) && At(s, a, Alternates(k.alternates)) && At(s, b, [SEMI])
             && At(s, b + 1, k.modifiers) && At(s, b + 1 + |k.modifiers|, Tail(k))
    ensures Spelling(k) <= s
  {
    hide At, Alternates, Tail;
    var rest := k.modifiers + Tail(k);
    var alts := Alternates(k.alternates);
    var b := |k.code| + |alts|;
    AtJoin(s, b + 1, k.modifiers, Tail(k));
    AtJoin(s, b, [SEMI], rest);
    AtJoin(s, |k.code|, alts, [SEMI] + rest);
    AtJoin(s, 0, k.code, alts + ([SEMI] + rest));
    AtSlice(s, 0, Spelling(k));
  }

  /** The parser accepts only spelled keys. */
  lemma ParsedIsSpelled(s: bytes, key: nat, mods: nat) returns (k: Key)
    requires Keypress(s, key, mods)
    ensures Presses(k, key, mods) && Spelling(k) <= s
  {
    hide At, DigitsEnd, AlternatesEnd, Number, AllDigits, Alternates, AfterModifiers, Held, Spelling, TextByte;
    var a := DigitsEnd(s, 0);
    DigitsRun(s, 0);
    var alts := AlternatesRun(s, a);
    var b := AlternatesEnd(s, a);
    var c := DigitsEnd(s, b + 1);
    DigitsRun(s, b + 1);
    var event, text := ParsedTail(s, c);
    k := Key(s[..a], alts, s[b + 1..c], event, text);
    AtSlice(s, b + 1, k.modifiers);
    AtSlice(s, b, [SEMI]);
    AtSlice(s, 0, k.code);
    SpelledFromPieces(s, k);
  }

  lemma ParsedEvent(s: bytes, c: nat) returns (event: Field)
    requires c <= |s| && AfterModifiers(s, c)
    ensures event.Given? <==> c < |s| && s[c] == COLON
    ensures event.Given? ==>
              && event.p != [] && AllDigits(event.p) && Number(event.p) != 3
              && c + 1 + |event.p| == DigitsEnd(s, c + 1)
    ensures At(s, c, Optional(COLON, event))
  {
    hide At, DigitsEnd, TextEnd, Number, AllDigits, TextByte;
    event := Absent;
    AtSlice(s, c, []);
    if c < |s| && s[c] == COLON {
      var d := DigitsEnd(s, c + 1);
      DigitsRun(s, c + 1);
      event := Given(s[c + 1..d]);
      MarkedAt(s, c, COLON, d);
    }
  }

  lemma ParsedText(s: bytes, d: nat) returns (text: Field)
    requires d <= |s|
    ensures text.Given? <==> d < |s| && s[d] == SEMI
    ensures text.Given? ==>
              && (forall i :: 0 <= i < |text.p| ==> TextByte(text.p[i]))
              && d + 1 + |text.p| == TextEnd(s, d + 1)
    ensures At(s, d, Optional(SEMI, text))
  {
    hide At, TextEnd, TextByte;
    text := Absent;
    AtSlice(s, d, []);
    if d < |s| && s[d] == SEMI {
      var e := TextEnd(s, d + 1);
      TextRun(s, d + 1);
      text := Given(s[d + 1..e]);
      MarkedAt(s, d, SEMI, e);
    }
  }

  lemma ParsedTail(s: bytes, c: nat) returns (event: Field, text: Field)
    requires c <= |s| && AfterModifiers(s, c)
    ensures event.Given? ==> event.p != [] && AllDigits(event.p) && Number(event.p) != 3
    ensures text.Given? ==> forall i :: 0 <= i < |text.p| ==> TextByte(text.p[i])
    ensures At(s, c, Optional(COLON, event) + (Optional(SEMI, text) + [END]))
  {
    hide At, DigitsEnd, TextEnd, Number, AllDigits, TextByte;
    event := ParsedEvent(s, c);
    var d := c + |Optional(COLON, event)|;
    text := ParsedText(s, d);
    var e := d + |Optional(SEMI, text)|;
    AtSlice(s, e, [END]);
    AtJoin(s, d, Optional(SEMI, text), [END]);
    AtJoin(s, c, Optional(COLON, event), Optional(SEMI, text) + [END]);
  }

  lemma SpelledPieces(s: bytes, k: Key)
    requires Spelling(k) <= s
    ensures var a := |k.code|;
            var b := a + |Alternates(k.alternates)|;
            && At(s, 0, k.code) && At(s, a, Alternates(k.alternates)) && At(s, b, [SEMI])
            && At(s, b + 1, k.modifiers) && At(s, b + 1 + |k.modifiers|, Tail(k))
  {
    hide At, Alternates, Tail;
    var rest := k.modifiers + Tail(k);
    var alts := Alternates(k.alternates);
    var b := |k.code| + |alts|;
    AtSlice(s, 0, Spelling(k));
    AtSplit(s, 0, k.code, alts + ([SEMI] + rest));
    AtSplit(s, |k.code|, alts, [SEMI] + rest);
    AtSplit(s, b, [SEMI], rest);
    AtSplit(s, b + 1, k.modifiers, Tail(k));
  }

  lemma SpelledCode(s: bytes, k: Key)
    requires WellFormed(k)
    requires var a := |k.code|;
             var b := a + |Alternates(k.alternates)|;
             At(s, 0, k.code) && At(s, a, Alternates(k.alternates)) && At(s, b, [SEMI])
    ensures var a := |k.code|;
            DigitsEnd(s, 0) == a && AlternatesEnd(s, a) == a + |Alternates(k.alternates)|
  {
    hide At, DigitsEnd, AlternatesEnd, AllDigits;
    var a := |k.code|;
    var alts := Alternates(k.alternates);
    AtByte(s, a + |alts|, [SEMI]);
    if k.alternates != [] {
      AtByte(s, a, alts);
      assert alts[0] == COLON;
    } else {
      assert alts == [];
    }
    AlternatesEndAt(s, a, k.alternates);
    DigitsEndAt(s, 0, k.code);
  }

  /** The parser accepts every spelled key, whatever follows it. */
  lemma SpelledIsParsed(s: bytes, k: Key, key: nat, mods: nat)
    requires Presses(k, key, mods) && Spelling(k) <= s
    ensures Keypress(s, key, mods)
  {
    hide At, DigitsEnd, AlternatesEnd, Number, AllDigits, AfterModifiers, Held, Tail, Alternates, Spelling;
    SpelledPieces(s, k);
    SpelledCode(s, k);
    var a := |k.code|;
    var b := a + |Alternates(k.alternates)|;
    SpelledTail(s, b + 1 + |k.modifiers|, k);
    DigitsEndAt(s, b + 1, k.modifiers);
    AtByte(s, b, [SEMI]);
    AtSlice(s, 0, k.code);
    AtSlice(s, b + 1, k.modifiers);
  }

  lemma SpelledEvent(s: bytes, c: nat, event: Field)
    requires event.Given? ==> AllDigits(event.p) && At(s, c, [COLON] + event.p)
    requires var d := c + |Optional(COLON, event)|; d < |s| && !T.Digit(s[d]) && s[d] != COLON
    ensures c < |s| && !T.Digit(s[c]) && (event.Given? <==> s[c] == COLON)
    ensures event.Given? ==>
              DigitsEnd(s, c + 1) == c + 1 + |event.p| && s[c + 1..c + 1 + |event.p|] == event.p
  {
    hide At, DigitsEnd, AllDigits;
    if event.Given? {
      AtSplit(s, c, [COLON], event.p);
      AtByte(s, c, [COLON]);
      DigitsEndAt(s, c + 1, event.p);
      AtSlice(s, c + 1, event.p);
    }
  }

  lemma SpelledText(s: bytes, d: nat, text: Field)
    requires text.Given? ==> (forall i :: 0 <= i < |text.p| ==> TextByte(text.p[i])) && At(s, d, [SEMI] + text.p)
    requires At(s, d + |Optional(SEMI, text)|, [END])
    ensures d < |s| && s[d] == if text.Given? then SEMI else END
    ensures text.Given? ==> TextEnd(s, d + 1) == d + 1 + |text.p|
    ensures var e := d + |Optional(SEMI, text)|; e < |s| && s[e] == END
  {
    hide At, TextEnd;
    AtByte(s, d + |Optional(SEMI, text)|, [END]);
    if text.Given? {
      AtSplit(s, d, [SEMI], text.p);
      AtByte(s, d, [SEMI]);
      TextEndAt(s, d + 1, text.p);
    }
  }

  lemma SpelledTail(s: bytes, c: nat, k: Key)
    requires WellFormed(k) && At(s, c, Tail(k)) && (k.event.Given? ==> Number(k.event.p) != 3)
    ensures c < |s| && !T.Digit(s[c]) && AfterModifiers(s, c)
  {
    hide At, Number, DigitsEnd, TextEnd, AllDigits, TextByte;
    var event, text := Optional(COLON, k.event), Optional(SEMI, k.text);
    AtSplit(s, c, event, text + [END]);
    AtSplit(s, c + |event|, text, [END]);
    SpelledText(s, c + |event|, k.text);
    SpelledEvent(s, c, k.event);
  }

  /** What follows a key does not unmake it. */
  lemma KeypressExtends(s: bytes, t: bytes, key: nat, mods: nat)
    requires Keypress(s, key, mods)
    ensures Keypress(s + t, key, mods)
  {
    hide Keypress, Presses;
    var k := ParsedIsSpelled(s, key, mods);
    SpelledIsParsed(s + t, k, key, mods);
  }

  /** The parser's keys are exactly the grammar's: those some spelling begins the input with. */
  lemma KeypressIsSpelled(s: bytes, key: nat, mods: nat)
    ensures Keypress(s, key, mods) <==> exists k :: Presses(k, key, mods) && Spelling(k) <= s
  {
    hide Keypress, Presses, Spelling;
    if Keypress(s, key, mods) {
      var _ := ParsedIsSpelled(s, key, mods);
    }
    forall k | Presses(k, key, mods) && Spelling(k) <= s ensures Keypress(s, key, mods) {
      SpelledIsParsed(s, k, key, mods);
    }
  }

  // ---- the detach key in a buffer

  predicate DetachAt(b: bytes, i: nat)
    requires i < |b|
  {
    || b[i] == FS
    || (i + 2 < |b| && b[i] == ESC && b[i + 1] == 0x5B && Keypress(b[i + 2..], BACKSLASH, CTRL))
  }

  predicate Detaches(b: bytes) {
    exists i :: 0 <= i < |b| && DetachAt(b, i)
  }

  method IsCtrlBackslash(b: bytes) returns (detach: bool)
    ensures detach == Detaches(b)
  {
    hide Keypress;
    for i := 0 to |b|
      invariant forall k :: 0 <= k < i ==> !DetachAt(b, k)
    {
      if b[i] == FS {
        assert DetachAt(b, i);
        return true;
      }
      if i + 2 < |b| && b[i] == ESC && b[i + 1] == 0x5B {
        var matches := KeypressWithMod(b[i + 2..], BACKSLASH, CTRL);
        if matches {
          assert DetachAt(b, i);
          return true;
        }
      }
    }
    return false;
  }

  /** A detach key stays one whatever comes before and after it. */
  lemma DetachExtends(x: bytes, b: bytes, y: bytes)
    requires Detaches(b)
    ensures Detaches(x + b + y)
  {
    hide Keypress;
    var i: nat :| i < |b| && DetachAt(b, i);
    var w := x + b + y;
    assert w[|x| + i] == b[i];
    if b[i] != FS {
      assert w[|x| + i + 1] == b[i + 1];
      assert w[|x| + i + 2..] == b[i + 2..] + y;
      KeypressExtends(b[i + 2..], y, BACKSLASH, CTRL);
    }
    assert DetachAt(w, |x| + i);
  }

  // ---- what is held back

  const KEY_DIGITS: bytes := [0x39, 0x32]
  const LITERAL: bytes := [ESC, 0x5B] + KEY_DIGITS

  /** What a fragment that begins with ESC must look like to be held back. */
  predicate MayGrow(s: bytes) {
    s != [] && (s <= LITERAL || LITERAL + [COLON] <= s || LITERAL + [SEMI] <= s)
  }

  predicate LastEscape(b: bytes, i: nat) {
    i < |b| && b[i] == ESC && forall k :: i < k < |b| ==> b[k] != ESC
  }

  /** The `n` bytes at the end of `b` are what is to be held back. */
  predicate HoldsBack(b: bytes, n: nat) {
    && n <= |b|
    && (n > 0 ==> LastEscape(b, |b| - n) && MayGrow(b[|b| - n..]))
    && (n == 0 ==> forall i :: 0 <= i < |b| && LastEscape(b, i) ==> !MayGrow(b[i..]))
  }

  predicate IsPrefixOf(p: bytes, q: bytes) { p <= q }

  method CtrlBackslashPrefix(s: bytes) returns (grows: bool)
    requires s != [] && s[0] == ESC
    ensures grows == MayGrow(s)
  {
    if |s| == 1 {
      return true;
    }
    if s[1] != 0x5B {
      return false;
    }
    var rest := s[2..];
    var i := 0;
    while i < |rest| && T.Digit(rest[i])
      invariant i <= |rest| && AllDigits(rest[..i])
    {
      i := i + 1;
    }
    assert s[..2] == [ESC, 0x5B];
    var keyDigits := rest[..i];
    if i == |rest| {
      assert keyDigits == rest;
      AllDigitsSoFar(s);
      return IsPrefixOf(keyDigits, KEY_DIGITS);
    }
    assert s[2..2 + i] == keyDigits;
    Undecided(s, i);
    if keyDigits != KEY_DIGITS {
      return false;
    }
    return rest[i] == COLON || rest[i] == SEMI;
  }

  lemma Marked(s: bytes)
    requires LITERAL + [COLON] <= s || LITERAL + [SEMI] <= s
    ensures |s| > 4 && s[2] == 0x39 && s[3] == 0x32 && !T.Digit(s[4])
  {
    var mark := if LITERAL + [COLON] <= s then COLON else SEMI;
    assert s[..5] == LITERAL + [mark];
    assert s[2] == s[..5][2] && s[3] == s[..5][3] && s[4] == s[..5][4];
  }

  lemma BeginningDigits(s: bytes)
    requires s <= LITERAL
    ensures forall k :: 2 <= k < |s| ==> T.Digit(s[k])
  {
    assert forall k :: 0 <= k < |s| ==> s[k] == LITERAL[k];
  }

  lemma Continued(s: bytes, i: nat)
    requires |s| > 2 + i && AllDigits(s[2..2 + i]) && !T.Digit(s[2 + i])
    requires LITERAL + [COLON] <= s || LITERAL + [SEMI] <= s
    ensures s[2..2 + i] == KEY_DIGITS
  {
    assert forall k :: 2 <= k < 2 + i ==> s[k] == s[2..2 + i][k - 2];
    Marked(s);
  }

  /** All digits so far: the fragment must be a beginning of the literal. */
  lemma AllDigitsSoFar(s: bytes)
    requires |s| >= 2 && s[..2] == [ESC, 0x5B] && AllDigits(s[2..])
    ensures MayGrow(s) <==> s[2..] <= KEY_DIGITS
  {
    var d := s[2..];
    assert s == [ESC, 0x5B] + d;
    assert forall k :: 2 <= k < |s| ==> s[k] == d[k - 2];
    if LITERAL + [COLON] <= s || LITERAL + [SEMI] <= s {
      Marked(s);
      assert false;
    }
    if s <= LITERAL {
      assert d == LITERAL[2..|s|];
    }
  }

  /** With a byte after its digits, a fragment is held back only for the digits 92 and then `:` or `;`. */
  lemma Undecided(s: bytes, i: nat)
    requires |s| > 2 + i && s[..2] == [ESC, 0x5B] && AllDigits(s[2..2 + i]) && !T.Digit(s[2 + i])
    ensures MayGrow(s) <==> s[2..2 + i] == KEY_DIGITS && (s[2 + i] == COLON || s[2 + i] == SEMI)
  {
    var d := s[2..2 + i];
    assert forall k :: 0 <= k < i ==> s[2 + k] == d[k];
    assert s[0] == s[..2][0] && s[1] == s[..2][1];
    if d == KEY_DIGITS {
      assert s[..4] == LITERAL;
      assert s[..5] == LITERAL + [s[4]];
    } else if MayGrow(s) {
      if s <= LITERAL {
        BeginningDigits(s);
        assert false;
      } else {
        Continued(s, i);
        assert false;
      }
    }
  }

  method CtrlBackslashSuffixLen(b: bytes) returns (n: nat)
    ensures HoldsBack(b, n)
  {
    hide MayGrow;
    for i := |b| downto 0
      invariant forall k :: i <= k < |b| ==> b[k] != ESC
    {
      if b[i] == ESC {
        var grows := CtrlBackslashPrefix(b[i..]);
        return if grows then |b| - i else 0;
      }
    }
    return 0;
  }

  class DetachScanner {
    var pending: bytes

    constructor ()
      ensures pending == []
    {
      pending := [];
    }

    /** Takes a read; what is not held back is to be forwarded, unless the key was seen. */
    method Feed(p: bytes) returns (forward: bytes, detach: bool)
      modifies this
      ensures detach <==> Detaches(old(pending) + p)
      ensures detach ==> forward == [] && pending == []
      ensures !detach ==> forward + pending == old(pending) + p && HoldsBack(old(pending) + p, |pending|)
    {
      hide Detaches, HoldsBack;
      pending := pending + p;
      detach := IsCtrlBackslash(pending);
      if detach {
        pending := [];
        return [], true;
      }
      var hold := CtrlBackslashSuffixLen(pending);
      assert hold <= |pending| by { HeldLength(pending, hold); }
      var cut := |pending| - hold;
      forward := pending[..cut];
      pending := pending[cut..];
    }

    method Flush() returns (flushed: bytes)
      modifies this
      ensures flushed == old(pending) && pending == []
    {
      flushed, pending := pending, [];
    }
  }

  lemma HeldLength(b: bytes, n: nat)
    requires HoldsBack(b, n)
    ensures n <= |b|
  {
  }

  // ---- the whole input

  /** A key whose code is literally spelled 92. */
  predicate Literal(k: Key) {
    k.code == KEY_DIGITS && Presses(k, BACKSLASH, CTRL)
  }

  function Typed(k: Key): bytes { [ESC, 0x5B] + Spelling(k) }

  lemma {:induction false} AlternatesPlain(alts: seq<bytes>)
    requires forall i :: 0 <= i < |alts| ==> AllDigits(alts[i])
    ensures forall i :: 0 <= i < |Alternates(alts)| ==> TextByte(Alternates(alts)[i])
    ensures alts != [] ==> Alternates(alts) != [] && Alternates(alts)[0] == COLON
  {
    if alts != [] {
      AlternatesPlain(alts[1..]);
    }
  }

  lemma NoAlternates()
    ensures Alternates([]) == []
  {
  }

  lemma OneEscape(k: Key)
    requires WellFormed(k)
    ensures ESC !in Spelling(k)
  {
    AlternatesPlain(k.alternates);
    hide Alternates;
    assert ESC !in k.code && ESC !in k.modifiers;
    assert ESC !in Tail(k);
  }

  /** Every proper beginning of a literal key is held back. */
  lemma BeginningMayGrow(k: Key, s: bytes)
    requires Literal(k) && s != [] && s < Typed(k)
    ensures MayGrow(s) && LastEscape(s, 0)
  {
    hide Number, Alternates, Held;
    OneEscape(k);
    AlternatesPlain(k.alternates);
    var rest := Alternates(k.alternates) + ([SEMI] + (k.modifiers + Tail(k)));
    assert Typed(k) == LITERAL + rest;
    assert k.alternates == [] ==> Alternates(k.alternates) == [] by { NoAlternates(); }
    assert rest[0] == COLON || rest[0] == SEMI;
    assert forall i :: 0 < i < |s| ==> s[i] == Typed(k)[i];
    if |s| > |LITERAL| {
      assert s[..|LITERAL|] == LITERAL;
      assert s[|LITERAL|] == rest[0];
    }
  }

  /** What is held back are exactly the fragments whose first bytes begin some literal key. */
  lemma HeldIffBegins(s: bytes)
    ensures MayGrow(s) <==> s != [] && exists k :: Literal(k) && Begins(s, k)
  {
    hide Literal, Typed;
    if MayGrow(s) {
      var k := LiteralKey(|s| > 4 && s[4] == COLON);
      if s <= LITERAL {
        assert s == LITERAL[..|s|] == Typed(k)[..5][..|s|];
      } else {
        assert s[..5] == LITERAL + [s[4]];
      }
      assert Begins(s, k);
    }
    if s != [] && exists k :: Literal(k) && Begins(s, k) {
      var k :| Literal(k) && Begins(s, k);
      BeginningMayGrow(k, FirstFive(s));
    }
  }

  function FirstFive(s: bytes): bytes { if |s| > 5 then s[..5] else s }

  predicate Begins(s: bytes, k: Key) { FirstFive(s) < Typed(k) }

  lemma LiteralKey(alternate: bool) returns (k: Key)
    ensures Literal(k) && |Typed(k)| > 5 && Typed(k)[..5] == LITERAL + [if alternate then COLON else SEMI]
  {
    k := Key(KEY_DIGITS, if alternate then [[]] else [], [0x35], Absent, Absent);
    var one, two: bytes := [0x35], KEY_DIGITS;
    assert one[..0] == [] && two[..1] == [0x39] && two[..1][..0] == [];
    assert Number(two[..1]) == 9;
    assert Number(one) == 5 && Number(two) == 92;
    if alternate {
      assert k.alternates[1..] == [];
      assert Alternates(k.alternates) == [COLON];
      assert Typed(k) == LITERAL + [COLON, SEMI, 0x35, END];
    } else {
      assert Typed(k) == LITERAL + [SEMI, 0x35, END];
    }
  }

  /** A typed detach key, however its code is spelled, is one wherever it stands whole. */
  lemma TypedDetaches(b: bytes, i: nat, k: Key)
    requires i < |b| && Presses(k, BACKSLASH, CTRL) && Typed(k) <= b[i..]
    ensures DetachAt(b, i)
  {
    hide Presses, Keypress, Spelling;
    var s := b[i..];
    assert |Spelling(k)| > 0 by { SpelledNonempty(k); }
    assert s[0] == Typed(k)[0] && s[1] == Typed(k)[1];
    assert s[2..] == b[i + 2..];
    assert Spelling(k) <= s[2..] by {
      assert Typed(k) == s[..|Typed(k)|];
      assert Typed(k)[2..] == Spelling(k);
      assert s[2..][..|Spelling(k)|] == s[..|Typed(k)|][2..];
    }
    SpelledIsParsed(b[i + 2..], k, BACKSLASH, CTRL);
  }

  lemma SpelledNonempty(k: Key)
    ensures |Spelling(k)| > 0
  {
  }

  /** No detach key is in the input, but for one whose escape was given up on. */
  ghost predicate Keyless(input: bytes, abandoned: set<nat>) {
    && FS !in input
    && forall i, k :: 0 <= i < |input| && i !in abandoned && Literal(k) ==> !(Typed(k) <= input[i..])
  }

  /**
   * With `n` bytes of the input forwarded, no key was overlooked: none is in
   * the input, and none that is still being typed has begun in what was
   * forwarded, but for an escape that was given up on when its time ran out.
   */
  ghost predicate Unmissed(input: bytes, n: nat, abandoned: set<nat>) {
    && n <= |input|
    && Keyless(input, abandoned)
    && (forall i, k :: 0 <= i < n && i !in abandoned && Literal(k) ==> !(input[i..] <= Typed(k)))
  }

  /** Nothing of a key that is in the input was forwarded. */
  ghost predicate Withheld(input: bytes, n: nat, abandoned: set<nat>) {
    && n <= |input|
    && (forall i :: 0 <= i < |input| && input[i] == FS ==> n <= i)
    && (forall i, k :: 0 <= i < |input| && i !in abandoned && Literal(k) && Typed(k) <= input[i..] ==> n <= i)
  }

  lemma NothingMissed()
    ensures Unmissed([], 0, {})
  {
  }

  /** Two beginnings of one string, or one and its continuation, are comparable. */
  lemma Comparable(s: bytes, t: bytes, w: bytes)
    requires s <= t && (w <= t || t <= w)
    ensures w <= s || s <= w
  {
    if |w| <= |s| {
      assert w == s[..|w|];
    } else {
      assert s == w[..|s|];
    }
  }

  /** A key that is complete now and began in forwarded bytes was complete or in progress before. */
  lemma BegunLater(input: bytes, p: bytes, n: nat, abandoned: set<nat>, i: nat, k: Key)
    requires Unmissed(input, n, abandoned) && i < |input + p| && i !in abandoned && Literal(k)
    requires Typed(k) <= (input + p)[i..] || (input + p)[i..] <= Typed(k)
    ensures n <= i
  {
    hide Literal, Typed;
    if i < n {
      Comparable(input[i..], (input + p)[i..], Typed(k));
      assert false;
    }
  }

  lemma WholeNoDetach(whole: bytes, n: nat, i: nat, k: Key)
    requires n <= i < |whole| && Literal(k) && !Detaches(whole[n..])
    ensures !(Typed(k) <= whole[i..])
  {
    hide Presses, Typed, DetachAt;
    assert whole[i..] == whole[n..][i - n..];
    if Typed(k) <= whole[i..] {
      TypedDetaches(whole[n..], i - n, k);
    }
  }

  /** A read in which no key was found leaves none overlooked. */
  lemma FeedMissesNothing(input: bytes, p: bytes, n: nat, hold: nat, abandoned: set<nat>)
    requires Unmissed(input, n, abandoned)
    requires var b := (input + p)[n..]; !Detaches(b) && HoldsBack(b, hold)
    ensures Unmissed(input + p, |input + p| - hold, abandoned)
  {
    hide Literal, Typed, MayGrow, Keypress;
    var whole := input + p;
    var b := whole[n..];
    assert FS !in b by {
      forall i | 0 <= i < |b| ensures b[i] != FS {
        assert !DetachAt(b, i);
      }
    }
    assert FS !in whole by {
      assert whole[..n] == input[..n];
      assert whole == input[..n] + b;
    }
    forall i, k | 0 <= i < |whole| && i !in abandoned && Literal(k) ensures !(Typed(k) <= whole[i..]) {
      if Typed(k) <= whole[i..] {
        BegunLater(input, p, n, abandoned, i, k);
        WholeNoDetach(whole, n, i, k);
        assert false;
      }
    }
    forall i: nat, k | i < |whole| - hold && i !in abandoned && Literal(k) ensures !(whole[i..] <= Typed(k)) {
      if whole[i..] <= Typed(k) {
        BegunLater(input, p, n, abandoned, i, k);
        BegunIsHeld(whole, n, hold, i, k);
        assert false;
      }
    }
  }

  lemma LastEscapeWithin(b: bytes, i: nat)
    requires i < |b| && LastEscape(b[i..], 0)
    ensures LastEscape(b, i)
  {
    forall k | i < k < |b| ensures b[k] != ESC {
      assert b[k] == b[i..][k - i];
    }
    assert b[i] == b[i..][0];
  }

  lemma OneLastEscape(b: bytes, hold: nat, i: nat)
    requires HoldsBack(b, hold) && LastEscape(b, i) && MayGrow(b[i..])
    ensures hold == |b| - i
  {
    hide MayGrow;
    var j := |b| - hold;
    if hold > 0 && i < j {
      assert false;
    }
  }

  lemma BegunIsHeld(whole: bytes, n: nat, hold: nat, i: nat, k: Key)
    requires n <= i < |whole| && Literal(k) && whole[i..] < Typed(k) && HoldsBack(whole[n..], hold)
    ensures i == |whole| - hold
  {
    hide Literal, Typed, MayGrow, HoldsBack;
    assert whole[i..] == whole[n..][i - n..];
    BeginningMayGrow(k, whole[i..]);
    LastEscapeWithin(whole[n..], i - n);
    OneLastEscape(whole[n..], hold, i - n);
  }

  /** When a key is found, nothing of it, or of any other in the input, was forwarded. */
  lemma FeedWithholds(input: bytes, p: bytes, n: nat, abandoned: set<nat>)
    requires Unmissed(input, n, abandoned)
    ensures Withheld(input + p, n, abandoned)
  {
    hide Literal, Typed;
    forall i, k | 0 <= i < |input + p| && i !in abandoned && Literal(k) && Typed(k) <= (input + p)[i..] ensures n <= i {
      BegunLater(input, p, n, abandoned, i, k);
    }
  }

  /** When its time runs out a lone escape is forwarded, and may no longer begin a key. */
  lemma GivingUpMissesNothing(input: bytes, n: nat, abandoned: set<nat>)
    requires Unmissed(input, n, abandoned) && n + 1 == |input|
    ensures Unmissed(input, n + 1, abandoned + {n})
  {
    hide Literal, Typed;
  }

  // ---- exactly the keys whose code is spelled 92 survive being split

  /** Codes that mean 92 are not held back half typed, unless they are spelled so. */
  lemma CodeIsHeldIffLiteral(k: Key)
    requires Presses(k, BACKSLASH, CTRL)
    ensures MayGrow([ESC, 0x5B] + k.code) <==> k.code == KEY_DIGITS
  {
    hide Held;
    var s := [ESC, 0x5B] + k.code;
    assert s[..2] == [ESC, 0x5B] && s[2..] == k.code;
    AllDigitsSoFar(s);
    if k.code <= KEY_DIGITS && k.code != KEY_DIGITS {
      assert k.code == [0x39];
      NineIsNotTheKey();
      assert false;
    }
  }

  lemma NineIsNotTheKey()
    ensures Number([0x39]) == 9
  {
    var d: bytes := [0x39];
    assert d[..0] == [];
  }

  lemma CodeBegins(k: Key)
    requires WellFormed(k)
    ensures [ESC, 0x5B] + k.code < Typed(k)
  {
    assert Typed(k) == ([ESC, 0x5B] + k.code) + (Alternates(k.alternates) + ([SEMI] + (k.modifiers + Tail(k))));
  }

  /**
   * Every proper beginning of a detach key is held back if and only if its
   * code is spelled `92`.
   */
  lemma HeldIffLiteral(k: Key)
    requires Presses(k, BACKSLASH, CTRL)
    ensures (forall s :: s != [] && s < Typed(k) ==> MayGrow(s)) <==> k.code == KEY_DIGITS
  {
    hide Typed, MayGrow, Number, Held;
    if k.code == KEY_DIGITS {
      forall s | s != [] && s < Typed(k) ensures MayGrow(s) {
        BeginningMayGrow(k, s);
      }
    } else {
      var s := [ESC, 0x5B] + k.code;
      CodeBegins(k);
      CodeIsHeldIffLiteral(k);
      assert s != [] && s < Typed(k) && !MayGrow(s);
    }
  }

  /** Text without ESC and without the control byte. */
  predicate Quiet(p: bytes) {
    forall i :: 0 <= i < |p| ==> p[i] != ESC && p[i] != FS
  }

  lemma QuietNeverDetaches(p: bytes)
    requires Quiet(p)
    ensures !Detaches(p)
  {
    hide Keypress;
  }

  lemma SpellingIsQuiet(k: Key)
    requires WellFormed(k)
    ensures Quiet(k.code) && Quiet(Alternates(k.alternates) + ([SEMI] + (k.modifiers + Tail(k))))
  {
    AlternatesPlain(k.alternates);
    hide Alternates;
    assert Quiet(Tail(k)) && Quiet(k.modifiers) && Quiet(Alternates(k.alternates));
  }

  /** A code alone is not yet a key. */
  lemma CodeIsNoKeypress(d: bytes)
    requires AllDigits(d)
    ensures !Keypress(d, BACKSLASH, CTRL)
  {
    assert d[0..|d|] == d;
    DigitsEndAt(d, 0, d);
  }

  /** A fragment with its only escape in front, and no digits of the literal behind it, is let go. */
  lemma LetGo(a: bytes)
    requires a != [] && a[0] == ESC && Quiet(a[1..]) && !MayGrow(a)
    ensures HoldsBack(a, 0)
  {
    hide MayGrow;
    assert forall i :: 0 < i < |a| ==> a[i] == a[1..][i - 1];
    assert a[0..] == a;
  }

  lemma CodeNeverDetaches(code: bytes)
    requires AllDigits(code) && Quiet(code)
    ensures !Detaches([ESC, 0x5B] + code)
  {
    hide Keypress;
    var a := [ESC, 0x5B] + code;
    CodeIsNoKeypress(code);
    assert a[2..] == code;
    forall i | 0 <= i < |a| ensures !DetachAt(a, i) {
      if i >= 2 {
        assert a[i] == code[i - 2];
      }
    }
  }

  /**
   * Each detach key whose code is spelled otherwise has a split that hides it:
   * unsplit it is one, but its first part is forwarded, and nothing is left
   * for the second to complete. This covers leading zeros as well as numbers
   * that wrap to 92.
   */
  lemma OtherSpellingsAreMissed(k: Key) returns (a: bytes, b: bytes)
    requires Presses(k, BACKSLASH, CTRL) && k.code != KEY_DIGITS
    ensures a + b == Typed(k)
    ensures Detaches(a + b) && !Detaches(a) && !Detaches(b) && HoldsBack(a, 0)
  {
    hide MayGrow, DetachAt, Number, Alternates, Tail, Held;
    a := [ESC, 0x5B] + k.code;
    b := Alternates(k.alternates) + ([SEMI] + (k.modifiers + Tail(k)));
    assert a + b == Typed(k);
    SpellingIsQuiet(k);
    CodeIsHeldIffLiteral(k);
    assert a[1..] == [0x5B] + k.code;
    LetGo(a);
    QuietNeverDetaches(b);
    CodeNeverDetaches(k.code);
    assert (a + b)[0..] == Typed(k);
    TypedDetaches(a + b, 0, k);
  }

  /** One of them: a leading zero. */
  lemma LeadingZeroIsMissed()
    ensures var a, b: bytes := [ESC, 0x5B, 0x30], [0x39, 0x32, SEMI, 0x35, END];
            Detaches(a + b) && !Detaches(a) && !Detaches(b) && HoldsBack(a, 0)
  {
    hide AllDigits, TextByte;
    var a, b: bytes := [ESC, 0x5B, 0x30], [0x39, 0x32, SEMI, 0x35, END];
    LeadingZeroMatches();
    assert (a + b)[2..] == [0x30, 0x39, 0x32, SEMI, 0x35, END];
    assert DetachAt(a + b, 0);
    assert a[2..] == [0x30];
    assert DigitsEnd(a[2..], 0) == 1 && AlternatesEnd(a[2..], 1) == 1;
    assert !DetachAt(a, 0);
    assert a[0..][2] == 0x30;
  }

  lemma LeadingZeroMatches()
    ensures Keypress([0x30, 0x39, 0x32, SEMI, 0x35, END], BACKSLASH, CTRL)
  {
    hide Keypress;
    var s: bytes := [0x30, 0x39, 0x32, SEMI, 0x35, END];
    var k := Key([0x30, 0x39, 0x32], [], [0x35], Absent, Absent);
    assert Number([0x30, 0x39, 0x32]) == 92 by {
      var d: bytes := [0x30, 0x39, 0x32];
      assert d[..2] == [0x30, 0x39] && d[..2][..1] == [0x30] && d[..2][..1][..0] == [];
      assert Number(d[..2][..1]) == 0;
      assert Number(d[..2]) == 9;
    }
    assert Number([0x35]) == 5;
    assert Spelling(k) == s;
    SpelledIsParsed(s, k, BACKSLASH, CTRL);
  }
}
