/** The sequences a client writes to its own terminal, and what each of them does to it. */
module ClientPieces {
  import opened Bytes
  import opened VtScan
  import opened Tracker
  import opened OuterTerminal

  /** The input-reporting modes that belong to the session. */
  const INPUT_MODES: set<int> := {1, 1000, 1002, 1003, 1004, 1006, 2004}
  const INPUT_ORDER: seq<nat> := [1000, 1002, 1003, 1006, 1004, 2004, 1]
  const CURSOR_VISIBLE: nat := 25
  const ALT_SCREEN: nat := 1049
  const SYNC_UPDATE: nat := 2026

  const HOME := Control([], 0x48)
  const ERASE := Control([0x32], 0x4A)
  const RESET_PEN := Control([0x30], 0x6D)
  const ERASE_LINE := Control([0x32], 0x4B)
  const HINT_STYLE := Control(Ascii("48;5;236;38;5;250"), 0x6D)
  const HINT := Text(Ascii(" detach: ctrl+\\ "))
  const PUSH_TITLE := Control(Ascii("22;0"), 0x74)
  const POP_TITLE := Control(Ascii("23;0"), 0x74)
  const TITLE_HINT := Title(Ascii("0;bgx: detach with ctrl+\\"))
  const NEWLINE: bytes := [0x0D, 0x0A]

  function Newlines(n: nat): bytes {
    if n == 0 then [] else Newlines(n - 1) + NEWLINE
  }

  function ModePieces(ns: seq<nat>, on: set<int>): seq<Piece> {
    if ns == [] then [] else ModePieces(ns[..|ns| - 1], on) + [Mode(ns[|ns| - 1], ns[|ns| - 1] in on)]
  }

  const ISOLATED_ENTRY: seq<Piece> := [Mode(ALT_SCREEN, true)] + [ERASE, HOME]
  const LEAVE_ISOLATED: seq<Piece> := [Mode(ALT_SCREEN, false)] + [Margins(0)]

  /** Withdraws the input modes a session may have enabled. */
  const NATIVE_MODE_RESET: seq<Piece> := ModePieces(INPUT_ORDER, {})

  /** Gives the terminal back after session bytes were forwarded to it. */
  const NATIVE_CLEANUP: seq<Piece> :=
    NATIVE_MODE_RESET + ([Mode(CURSOR_VISIBLE, true)] + ([RESET_PEN, Cursor(true)] + ([Margins(0)] + [Cursor(false)])))

  function PaintPieces(rows: nat, reserved: bool, screen: bytes): seq<Piece> {
    [Mode(SYNC_UPDATE, true)]
    + ([Margins(if reserved then rows else 0)]
       + ([ERASE, HOME, Control([], 0x6D), Dump(screen)]
          + ((if reserved then [Cursor(true), Move(rows + 1), HINT_STYLE, ERASE_LINE, HINT, RESET_PEN, Cursor(false)] else [])
             + [Mode(SYNC_UPDATE, false)])))
  }

  function EnterNativePieces(rows: nat, hint: bool): seq<Piece> {
    (if rows > 0 then [Move(rows), Text(Newlines(rows))] else []) + [HOME] + if hint then [PUSH_TITLE, TITLE_HINT] else []
  }

  function HintPieces(row: nat): seq<Piece> {
    [Cursor(true), Move(row), HINT_STYLE, ERASE_LINE, HINT, RESET_PEN, Cursor(false)]
  }

  function RepaintPieces(screen: bytes, on: set<int>): seq<Piece> {
    [ERASE, HOME, RESET_PEN, Dump(screen)] + ModePieces(MODE_ORDER, on)
  }

  /** The daemon-style snapshot: both screens from any prior state, then every tracked mode. */
  function SnapshotPieces(alt: bool, primary: bytes, screen: bytes, on: set<int>): seq<Piece> {
    [Mode(ALT_SCREEN, false)]
    + ([ERASE, HOME, RESET_PEN, Dump(primary)]
       + ((if alt then [Mode(ALT_SCREEN, true)] + [ERASE, HOME, RESET_PEN, Dump(screen)] else [])
          + ModePieces(MODE_ORDER, on)))
  }

  /** Clears the screen and draws a rendering on it. */
  function Redraw(screen: bytes): seq<Piece> { [ERASE, HOME, RESET_PEN, Dump(screen)] }

  /** Scrolls the restored primary screen away to make room for the session's last one. */
  function FinalScreenPieces(physicalRows: nat): seq<Piece> {
    LEAVE_ISOLATED
    + ((if physicalRows > 0 then [Move(physicalRows), Text(Newlines(physicalRows))] else []) + [HOME, RESET_PEN])
  }

  /** Moves to the row below the session's output, or scrolls when it has used them all or the geometry is unknown. */
  function PositionPieces(cols: nat, rows: nat, physicalRows: nat, written: nat): seq<Piece> {
    if cols == 0 || rows == 0 || physicalRows == 0 then [Text(NEWLINE)]
    else if written < physicalRows then [Move(written + 1), ERASE_LINE]
    else [Move(physicalRows), Text(NEWLINE)]
  }

  /** Nothing here switches screens or modes or sets margins. */
  predicate Idle(ps: seq<Piece>) {
    forall i :: 0 <= i < |ps| ==> !ps[i].Mode? && !ps[i].Margins?
  }

  // ---- effects

  lemma {:induction false} IdleEffects(l: Look, ps: seq<Piece>)
    requires Idle(ps)
    ensures Effects(l, ps) == l
  {
    if ps != [] {
      IdleEffects(l, ps[..|ps| - 1]);
    }
  }

  lemma OneEffect(l: Look, x: Piece, ps: seq<Piece>)
    ensures Effects(l, [x]) == Effect(l, x)
    ensures Effects(l, [x] + ps) == Effects(Effect(l, x), ps)
  {
    assert [x][..0] == [];
    EffectsConcat(l, [x], ps);
  }

  lemma NoEffects(l: Look)
    ensures Effects(l, []) == l
  {
  }

  lemma {:induction false} ModeEffects(l: Look, ns: seq<nat>, on: set<int>)
    requires Elements(ns) <= TRACKED
    ensures Effects(l, ModePieces(ns, on)) ==
            Look(Modes(l.modes.alt, (l.modes.on - Elements(ns)) + (Elements(ns) * on)), l.full)
  {
    hide Effects, ModePieces, Elements;
    if ns == [] {
      NoModes(on);
      NoEffects(l);
    } else {
      var front, n := ns[..|ns| - 1], ns[|ns| - 1];
      LastMode(ns, on);
      ModeEffects(l, front, on);
      var so := Effects(l, ModePieces(front, on));
      OneEffect(so, Mode(n, n in on), []);
      EffectsConcat(l, ModePieces(front, on), [Mode(n, n in on)]);
      SetTracked(so, n, n in on);
      OneMoreMode(l.modes.on, Elements(front), on, n);
    }
  }

  lemma NoModes(on: set<int>)
    ensures ModePieces([], on) == [] && Elements([]) == {}
  {
  }

  lemma LastMode(ns: seq<nat>, on: set<int>)
    requires ns != []
    ensures var front, n := ns[..|ns| - 1], ns[|ns| - 1];
            ModePieces(ns, on) == ModePieces(front, on) + [Mode(n, n in on)] && Elements(ns) == Elements(front) + {n}
  {
  }

  lemma SetTracked(l: Look, n: nat, on: bool)
    requires n in TRACKED
    ensures Effect(l, Mode(n, on)) == l.(modes := Modes(l.modes.alt, if on then l.modes.on + {n} else l.modes.on - {n}))
  {
  }

  lemma InputOrderIsInputModes()
    ensures Elements(INPUT_ORDER) == INPUT_MODES
  {
    var a: seq<nat> := [1000, 1002, 1003];
    assert Elements(a) == {1000, 1002, 1003} by {
      assert a[..2] == [1000, 1002] && a[..2][..1] == [1000];
      assert Elements(a[..2][..1]) == {1000};
    }
    ElementsSnoc(a, 1006);
    ElementsSnoc(a + [1006], 1004);
    ElementsSnoc(a + [1006] + [1004], 2004);
    ElementsSnoc(a + [1006] + [1004] + [2004], 1);
    assert INPUT_ORDER == a + [1006] + [1004] + [2004] + [1];
  }

  lemma ResetEffects(l: Look)
    ensures Effects(l, NATIVE_MODE_RESET) == Look(Modes(l.modes.alt, l.modes.on - INPUT_MODES), l.full)
  {
    InputOrderIsInputModes();
    ModeEffects(l, INPUT_ORDER, {});
  }

  lemma CleanupEffects(l: Look)
    ensures Effects(l, NATIVE_CLEANUP) == Look(Modes(l.modes.alt, l.modes.on - INPUT_MODES + {25}), true)
  {
    var last := [Cursor(false)];
    var margins := [Margins(0)] + last;
    var pen := [RESET_PEN, Cursor(true)] + margins;
    ResetEffects(l);
    EffectsConcat(l, NATIVE_MODE_RESET, [Mode(CURSOR_VISIBLE, true)] + pen);
    var m := Effects(l, NATIVE_MODE_RESET);
    OneEffect(m, Mode(CURSOR_VISIBLE, true), pen);
    var c := Effect(m, Mode(CURSOR_VISIBLE, true));
    EffectsConcat(c, [RESET_PEN, Cursor(true)], margins);
    IdleEffects(c, [RESET_PEN, Cursor(true)]);
    OneEffect(c, Margins(0), last);
    IdleEffects(Effect(c, Margins(0)), last);
  }

  lemma EntryEffects(l: Look)
    ensures Effects(l, ISOLATED_ENTRY) == Look(Modes(true, l.modes.on), l.full)
  {
    OneEffect(l, Mode(ALT_SCREEN, true), [ERASE, HOME]);
    IdleEffects(Effect(l, Mode(ALT_SCREEN, true)), [ERASE, HOME]);
  }

  lemma LeaveEffects(l: Look)
    ensures Effects(l, LEAVE_ISOLATED) == Look(Modes(false, l.modes.on), true)
  {
    OneEffect(l, Mode(ALT_SCREEN, false), [Margins(0)]);
    OneEffect(Effect(l, Mode(ALT_SCREEN, false)), Margins(0), []);
  }

  lemma FinalScreenEffects(l: Look, physicalRows: nat)
    ensures Effects(l, FinalScreenPieces(physicalRows)) == Look(Modes(false, l.modes.on), true)
  {
    var rest := (if physicalRows > 0 then [Move(physicalRows), Text(Newlines(physicalRows))] else []) + [HOME, RESET_PEN];
    LeaveEffects(l);
    EffectsConcat(l, LEAVE_ISOLATED, rest);
    IdleEffects(Effects(l, LEAVE_ISOLATED), rest);
  }

  lemma PaintEffects(l: Look, rows: nat, reserved: bool, screen: bytes)
    requires reserved ==> rows > 0
    ensures Effects(l, PaintPieces(rows, reserved, screen)) == Look(l.modes, !reserved)
  {
    hide Effects;
    var body := [ERASE, HOME, Control([], 0x6D), Dump(screen)];
    var line := if reserved then [Cursor(true), Move(rows + 1), HINT_STYLE, ERASE_LINE, HINT, RESET_PEN, Cursor(false)] else [];
    var close := [Mode(SYNC_UPDATE, false)];
    var margins := Margins(if reserved then rows else 0);
    OneEffect(l, Mode(SYNC_UPDATE, true), [margins] + (body + (line + close)));
    assert Effect(l, Mode(SYNC_UPDATE, true)) == l;
    OneEffect(l, margins, body + (line + close));
    var r := Effect(l, margins);
    EffectsConcat(r, body, line + close);
    IdleEffects(r, body);
    EffectsConcat(r, line, close);
    IdleEffects(r, line);
    OneEffect(r, Mode(SYNC_UPDATE, false), []);
    assert Effect(r, Mode(SYNC_UPDATE, false)) == r;
  }

  lemma RepaintEffects(l: Look, screen: bytes, on: set<int>)
    requires on <= TRACKED && l.modes.on <= TRACKED
    ensures Effects(l, RepaintPieces(screen, on)) == Look(Modes(l.modes.alt, on), l.full)
  {
    var body := [ERASE, HOME, RESET_PEN, Dump(screen)];
    EffectsConcat(l, body, ModePieces(MODE_ORDER, on));
    IdleEffects(l, body);
    AllModeEffects(l, on);
  }

  lemma AllModeEffects(l: Look, on: set<int>)
    requires on <= TRACKED && l.modes.on <= TRACKED
    ensures Effects(l, ModePieces(MODE_ORDER, on)) == Look(Modes(l.modes.alt, on), l.full)
  {
    ModeOrderIsTracked();
    ModeEffects(l, MODE_ORDER, on);
  }

  lemma SnapshotEffects(l: Look, alt: bool, primary: bytes, screen: bytes, on: set<int>)
    requires on <= TRACKED && l.modes.on <= TRACKED
    ensures Effects(l, SnapshotPieces(alt, primary, screen, on)) == Look(Modes(alt, on), l.full)
  {
    var first := [ERASE, HOME, RESET_PEN, Dump(primary)];
    var body := [ERASE, HOME, RESET_PEN, Dump(screen)];
    var second := if alt then [Mode(ALT_SCREEN, true)] + body else [];
    var modes := ModePieces(MODE_ORDER, on);
    OneEffect(l, Mode(ALT_SCREEN, false), first + (second + modes));
    var p := Effect(l, Mode(ALT_SCREEN, false));
    EffectsConcat(p, first, second + modes);
    IdleEffects(p, first);
    EffectsConcat(p, second, modes);
    var a := p.(modes := p.modes.(alt := alt));
    if alt {
      OneEffect(p, Mode(ALT_SCREEN, true), body);
      IdleEffects(a, body);
    }
    assert Effects(p, second) == a;
    AllModeEffects(a, on);
  }

  // ---- soundness

  lemma {:induction false} ModePiecesSound(ns: seq<nat>, on: set<int>)
    requires Elements(ns) <= TRACKED
    ensures AllSound(ModePieces(ns, on))
    ensures |ModePieces(ns, on)| == |ns| && forall i :: 0 <= i < |ns| ==> ModePieces(ns, on)[i].Mode?
  {
    if ns != [] {
      ModePiecesSound(ns[..|ns| - 1], on);
      assert ns[|ns| - 1] in TRACKED;
    }
  }

  lemma {:induction false} NewlinesPlain(n: nat)
    ensures Plain(Newlines(n))
  {
    if n > 0 {
      NewlinesPlain(n - 1);
    }
  }

  lemma AtomsSound()
    ensures Sound(HINT_STYLE) && Sound(HINT) && Sound(PUSH_TITLE) && Sound(POP_TITLE) && Sound(TITLE_HINT)
    ensures Sound(HOME) && Sound(ERASE) && Sound(RESET_PEN) && Sound(ERASE_LINE)
  {
    HintTextSound();
    TitleTextSound();
  }

  lemma HintTextSound()
    ensures Sound(HINT_STYLE) && Sound(HINT)
  {
  }

  lemma TitleTextSound()
    ensures Sound(PUSH_TITLE) && Sound(POP_TITLE) && Sound(TITLE_HINT)
  {
  }

  lemma ResetSound()
    ensures AllSound(NATIVE_MODE_RESET) && NATIVE_MODE_RESET != [] && NATIVE_MODE_RESET[0].Mode?
  {
    InputOrderIsInputModes();
    ModePiecesSound(INPUT_ORDER, {});
  }

  lemma CleanupSound()
    ensures AllSound(NATIVE_CLEANUP) && NATIVE_CLEANUP != [] && NATIVE_CLEANUP[0].Mode?
  {
    hide ModePieces, Elements;
    ResetSound();
    AtomsSound();
  }

  lemma FixedSound()
    ensures AllSound(ISOLATED_ENTRY) && AllSound(LEAVE_ISOLATED)
    ensures AllSound(NATIVE_MODE_RESET) && NATIVE_MODE_RESET != [] && NATIVE_MODE_RESET[0].Mode?
    ensures AllSound(NATIVE_CLEANUP) && NATIVE_CLEANUP != [] && NATIVE_CLEANUP[0].Mode?
    ensures Sound(HINT_STYLE) && Sound(HINT) && Sound(PUSH_TITLE) && Sound(POP_TITLE) && Sound(TITLE_HINT)
    ensures Sound(HOME) && Sound(ERASE) && Sound(RESET_PEN) && Sound(ERASE_LINE)
  {
    hide ModePieces, Elements, Inert;
    AtomsSound();
    ResetSound();
    CleanupSound();
  }

  lemma PaintSound(rows: nat, reserved: bool, screen: bytes)
    requires rows < 65536 && Inert(screen)
    ensures AllSound(PaintPieces(rows, reserved, screen))
  {
    hide Inert, Digits;
    assert Sound(Control([], 0x6D)) && Sound(Mode(SYNC_UPDATE, true)) && Sound(Mode(SYNC_UPDATE, false));
    FixedSound();
  }

  lemma EnterNativeSound(rows: nat, hint: bool)
    requires rows < 65536
    ensures AllSound(EnterNativePieces(rows, hint)) && Idle(EnterNativePieces(rows, hint))
    ensures Restarts(EnterNativePieces(rows, hint)[0])
  {
    FixedSound();
    NewlinesPlain(rows);
  }

  lemma HintSound(row: nat)
    requires row < 65536
    ensures AllSound(HintPieces(row)) && Idle(HintPieces(row))
    ensures |HintPieces(row)| > 0 && Restarts(HintPieces(row)[0])
  {
    FixedSound();
  }

  lemma RepaintSound(screen: bytes, on: set<int>)
    requires Inert(screen)
    ensures AllSound(RepaintPieces(screen, on))
  {
    FixedSound();
    ModeOrderIsTracked();
    ModePiecesSound(MODE_ORDER, on);
  }

  lemma SnapshotSound(alt: bool, primary: bytes, screen: bytes, on: set<int>)
    requires Inert(screen) && Inert(primary)
    ensures AllSound(SnapshotPieces(alt, primary, screen, on))
  {
    hide Inert, ModePieces, Elements, Digits;
    FixedSound();
    ModeOrderIsTracked();
    ModePiecesSound(MODE_ORDER, on);
  }

  lemma RedrawSound(screen: bytes)
    requires Inert(screen)
    ensures AllSound(Redraw(screen)) && Idle(Redraw(screen))
  {
    FixedSound();
  }

  lemma FinalScreenSound(physicalRows: nat)
    requires physicalRows < 65536
    ensures AllSound(FinalScreenPieces(physicalRows)) && Restarts(FinalScreenPieces(physicalRows)[0])
  {
    FixedSound();
    NewlinesPlain(physicalRows);
  }

  lemma PositionSound(cols: nat, rows: nat, physicalRows: nat, written: nat)
    requires physicalRows < 65536
    ensures AllSound(PositionPieces(cols, rows, physicalRows, written))
    ensures Idle(PositionPieces(cols, rows, physicalRows, written))
  {
    FixedSound();
  }
}
