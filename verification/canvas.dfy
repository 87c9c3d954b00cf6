/**
 * What has been drawn on a terminal: the list of what was put on it since it
 * was last erased, each with the row it was put on, as far as that is known.
 */
module Canvas {
  import opened Bytes
  import opened Tracker
  import opened OuterTerminal
  import opened ClientPieces

  datatype Mark =
    | Picture(d: bytes)       // a rendering of a whole screen
    | Line(p: bytes)          // text
    | Wiped                   // the row was erased
    | Switched(alt: bool)     // the other screen was asked for
    | Raw(p: bytes)           // forwarded session bytes

  /** Row 0 stands for wherever the cursor happens to be. */
  datatype Ink = Ink(row: nat, mark: Mark)

  datatype Canvas = Canvas(ink: seq<Ink>, row: nat)

  const BARE := Canvas([], 0)

  function Marked(c: Canvas, mark: Mark): Canvas {
    Canvas(c.ink + [Ink(c.row, mark)], 0)
  }

  function Draw(c: Canvas, x: Piece): Canvas {
    match x
    case Mode(n, on) => if n == ALT_SCREEN then Canvas(c.ink + [Ink(0, Switched(on))], 0) else c
    case Margins(_) => c.(row := 1)
    case Move(row) => c.(row := row)
    case Cursor(save) => if save then c else c.(row := 0)
    case Text(p) => Marked(c, Line(p))
    case Dump(d) => Marked(c, Picture(d))
    case Title(_) => c
    case Control(params, final) =>
      if final == 0x48 && params == [] then c.(row := 1)
      else if final == 0x4A && params == [0x32] then c.(ink := [])
      else if final == 0x4B && params == [0x32] then c.(ink := c.ink + [Ink(c.row, Wiped)])
      else c
  }

  function DrawAll(c: Canvas, ps: seq<Piece>): Canvas {
    if ps == [] then c else Draw(DrawAll(c, ps[..|ps| - 1]), ps[|ps| - 1])
  }

  /** The hint on its row. */
  function HintInk(row: nat): seq<Ink> {
    [Ink(row, Wiped), Ink(row, Line(HINT.p))]
  }

  /** A view's screen: the rendering, from the top of a cleared screen, and the hint below the session's rows if there is a line for it. */
  function Shot(screen: bytes, rows: nat, reserved: bool): seq<Ink> {
    [Ink(1, Picture(screen))] + if reserved then HintInk(rows + 1) else []
  }

  /** Where the outcome goes: below what the session wrote, or scrolled in. */
  function PositionInk(cols: nat, rows: nat, physicalRows: nat, written: nat): seq<Ink> {
    if cols == 0 || rows == 0 || physicalRows == 0 then [Ink(0, Line(NEWLINE))]
    else if written < physicalRows then [Ink(written + 1, Wiped)]
    else [Ink(physicalRows, Line(NEWLINE))]
  }

  function PositionRow(cols: nat, rows: nat, physicalRows: nat, written: nat): nat {
    if cols == 0 || rows == 0 || physicalRows == 0 || written >= physicalRows then 0 else written + 1
  }

  /** The session's last screen below what was there, and the outcome below that. */
  function FinalInk(cols: nat, rows: nat, physicalRows: nat, written: nat, screen: bytes, outcome: bytes): seq<Ink> {
    [Ink(0, Switched(false)), Ink(physicalRows, Line(Newlines(physicalRows))), Ink(1, Picture(screen))]
    + PlacedInk(cols, rows, physicalRows, written, outcome)
  }

  function PlacedInk(cols: nat, rows: nat, physicalRows: nat, written: nat, outcome: bytes): seq<Ink> {
    PositionInk(cols, rows, physicalRows, written) + [Ink(PositionRow(cols, rows, physicalRows, written), Line(outcome))]
  }

  // ---- what stands on a canvas

  /** The last rendering drawn, if there is one. */
  function Base(ink: seq<Ink>): seq<Ink> {
    if ink == [] then []
    else if ink[|ink| - 1].mark.Picture? then [ink[|ink| - 1]]
    else Base(ink[..|ink| - 1])
  }

  /** The session bytes forwarded since. */
  function Rawed(ink: seq<Ink>): bytes {
    if ink == [] || ink[|ink| - 1].mark.Picture? then []
    else Rawed(ink[..|ink| - 1]) + if ink[|ink| - 1].mark.Raw? then ink[|ink| - 1].mark.p else []
  }

  /** And the rest of what was drawn since. */
  function Overlay(ink: seq<Ink>): seq<Ink> {
    if ink == [] || ink[|ink| - 1].mark.Picture? then []
    else Overlay(ink[..|ink| - 1]) + if ink[|ink| - 1].mark.Raw? then [] else [ink[|ink| - 1]]
  }

  lemma OneMoreInk(ink: seq<Ink>, x: Ink)
    ensures Base(ink + [x]) == if x.mark.Picture? then [x] else Base(ink)
    ensures Rawed(ink + [x]) == if x.mark.Picture? then [] else if x.mark.Raw? then Rawed(ink) + x.mark.p else Rawed(ink)
    ensures Overlay(ink + [x]) == if x.mark.Picture? then [] else if x.mark.Raw? then Overlay(ink) else Overlay(ink) + [x]
  {
    assert (ink + [x])[..|ink|] == ink;
  }

  /** The hint is drawn over what stands there. */
  lemma HintOverlays(ink: seq<Ink>, row: nat)
    ensures var more := ink + HintInk(row);
            Base(more) == Base(ink) && Rawed(more) == Rawed(ink) && Overlay(more) == Overlay(ink) + HintInk(row)
  {
    hide Base, Rawed, Overlay;
    var wiped := Ink(row, Wiped);
    OneMoreInk(ink, wiped);
    OneMoreInk(ink + [wiped], Ink(row, Line(HINT.p)));
    assert ink + HintInk(row) == (ink + [wiped]) + [Ink(row, Line(HINT.p))];
    assert Overlay(ink) + HintInk(row) == (Overlay(ink) + [wiped]) + [Ink(row, Line(HINT.p))];
  }

  // ---- lists

  lemma {:induction false} DrawConcat(c: Canvas, a: seq<Piece>, b: seq<Piece>)
    ensures DrawAll(c, a + b) == DrawAll(DrawAll(c, a), b)
  {
    hide Draw;
    if b == [] {
      assert a + b == a;
    } else {
      assert (a + b)[..|a + b| - 1] == a + b[..|b| - 1];
      DrawConcat(c, a, b[..|b| - 1]);
    }
  }

  lemma DrawOne(c: Canvas, x: Piece, ps: seq<Piece>)
    ensures DrawAll(c, [x]) == Draw(c, x)
    ensures DrawAll(c, [x] + ps) == DrawAll(Draw(c, x), ps)
  {
    hide Draw;
    assert [x][..0] == [];
    DrawConcat(c, [x], ps);
  }

  lemma DrawTwo(c: Canvas, x: Piece, y: Piece)
    ensures DrawAll(c, [x, y]) == Draw(Draw(c, x), y)
  {
    hide Draw;
    assert [x, y] == [x] + [y];
    DrawOne(c, x, [y]);
    DrawOne(Draw(c, x), y, []);
  }

  lemma {:induction false} RenderConcat(a: seq<Piece>, b: seq<Piece>)
    ensures Render(a + b) == Render(a) + Render(b)
  {
    hide PieceBytes;
    if b == [] {
      assert a + b == a;
    } else {
      assert (a + b)[..|a + b| - 1] == a + b[..|b| - 1];
      RenderConcat(a, b[..|b| - 1]);
    }
  }

  /** What is drawn is what was written: every piece's bytes stand between those before and those after it. */
  lemma DrawnIsWritten(ps: seq<Piece>, i: nat)
    requires i < |ps|
    ensures Render(ps) == Render(ps[..i]) + PieceBytes(ps[i]) + Render(ps[i + 1..])
  {
    hide *;
    var a, one, b := ps[..i], [ps[i]], ps[i + 1..];
    assert ps == a + one + b;
    RenderConcat(a + one, b);
    RenderConcat(a, one);
    OnePiece(ps[i]);
  }

  lemma OnePiece(x: Piece)
    ensures Render([x]) == PieceBytes(x)
  {
    hide PieceBytes;
    assert [x][..0] == [];
  }

  /** And these are the bytes: a rendering or a text as it is, a sequence in its 7-bit form. */
  lemma Spelling(x: Piece)
    ensures match x
            case Move(row) => PieceBytes(x) == [ESC, 0x5B] + Digits(row) + [0x3B, 0x31, 0x48]
            case Mode(n, on) => PieceBytes(x) == [ESC, 0x5B, 0x3F] + Digits(n) + [if on then 0x68 else 0x6C]
            case Margins(rows) =>
              PieceBytes(x) == [ESC, 0x5B] + if rows == 0 then [0x72] else [0x31, 0x3B] + Digits(rows) + [0x72]
            case Control(params, final) => PieceBytes(x) == [ESC, 0x5B] + params + [final]
            case Cursor(save) => PieceBytes(x) == [ESC, if save then 0x37 else 0x38]
            case Title(p) => PieceBytes(x) == [ESC, 0x5D] + p + [0x07]
            case Text(p) => PieceBytes(x) == p
            case Dump(d) => PieceBytes(x) == d
  {
  }

  lemma DrawNothing(c: Canvas)
    ensures DrawAll(c, []) == c
  {
  }

  lemma {:induction false} ModesDrawNothing(c: Canvas, ns: seq<nat>, on: set<int>)
    requires ALT_SCREEN !in ns
    ensures DrawAll(c, ModePieces(ns, on)) == c
  {
    if ns != [] {
      ModesDrawNothing(c, ns[..|ns| - 1], on);
      hide DrawAll;
      DrawConcat(c, ModePieces(ns[..|ns| - 1], on), [Mode(ns[|ns| - 1], ns[|ns| - 1] in on)]);
      DrawOne(c, Mode(ns[|ns| - 1], ns[|ns| - 1] in on), []);
    }
  }

  /** Clearing and drawing a rendering leaves nothing but it. */
  lemma RedrawInk(c: Canvas, pen: bytes, d: bytes)
    ensures DrawAll(c, [ERASE, HOME, Control(pen, 0x6D), Dump(d)]) == Canvas([Ink(1, Picture(d))], 0)
  {
    hide DrawAll;
    assert [ERASE, HOME, Control(pen, 0x6D), Dump(d)] == [ERASE, HOME] + [Control(pen, 0x6D), Dump(d)];
    DrawConcat(c, [ERASE, HOME], [Control(pen, 0x6D), Dump(d)]);
    DrawTwo(c, ERASE, HOME);
    DrawTwo(DrawAll(c, [ERASE, HOME]), Control(pen, 0x6D), Dump(d));
  }

  lemma HintDraws(c: Canvas, row: nat)
    ensures DrawAll(c, HintPieces(row)) == Canvas(c.ink + HintInk(row), 0)
  {
    hide DrawAll;
    var a, b, d: seq<Piece> := [Cursor(true), Move(row)], [HINT_STYLE, ERASE_LINE], [HINT, RESET_PEN];
    assert HintPieces(row) == a + (b + (d + [Cursor(false)]));
    DrawConcat(c, a, b + (d + [Cursor(false)]));
    DrawTwo(c, Cursor(true), Move(row));
    var c1 := c.(row := row);
    DrawConcat(c1, b, d + [Cursor(false)]);
    DrawTwo(c1, HINT_STYLE, ERASE_LINE);
    var c2 := c1.(ink := c1.ink + [Ink(row, Wiped)]);
    DrawConcat(c2, d, [Cursor(false)]);
    DrawTwo(c2, HINT, RESET_PEN);
    var c3 := Marked(c2, Line(HINT.p));
    DrawOne(c3, Cursor(false), []);
  }

  /** A repaint leaves exactly the rendering, and the hint if there is a line for it. */
  lemma PaintDraws(c: Canvas, rows: nat, reserved: bool, screen: bytes)
    ensures DrawAll(c, PaintPieces(rows, reserved, screen)).ink == Shot(screen, rows, reserved)
  {
    hide DrawAll;
    var body := [ERASE, HOME, Control([], 0x6D), Dump(screen)];
    var line := if reserved then HintPieces(rows + 1) else [];
    var close := [Mode(SYNC_UPDATE, false)];
    var margins := Margins(if reserved then rows else 0);
    assert PaintPieces(rows, reserved, screen) == [Mode(SYNC_UPDATE, true)] + ([margins] + (body + (line + close)));
    DrawOne(c, Mode(SYNC_UPDATE, true), [margins] + (body + (line + close)));
    DrawOne(c, margins, body + (line + close));
    var r := Draw(c, margins);
    DrawConcat(r, body, line + close);
    RedrawInk(r, [], screen);
    var p := Canvas([Ink(1, Picture(screen))], 0);
    DrawConcat(p, line, close);
    if reserved {
      HintDraws(p, rows + 1);
    } else {
      DrawNothing(p);
    }
    DrawOne(DrawAll(p, line), Mode(SYNC_UPDATE, false), []);
  }

  lemma RepaintDraws(c: Canvas, screen: bytes, on: set<int>)
    ensures DrawAll(c, RepaintPieces(screen, on)) == Canvas([Ink(1, Picture(screen))], 0)
  {
    hide DrawAll, ModePieces;
    DrawConcat(c, Redraw(screen), ModePieces(MODE_ORDER, on));
    RedrawInk(c, [0x30], screen);
    ModesDrawNothing(Canvas([Ink(1, Picture(screen))], 0), MODE_ORDER, on);
  }

  /** A snapshot leaves the rendering of the active screen. */
  lemma SnapshotDraws(c: Canvas, alt: bool, primary: bytes, screen: bytes, on: set<int>)
    ensures DrawAll(c, SnapshotPieces(alt, primary, screen, on))
            == Canvas([Ink(1, Picture(if alt then screen else primary))], 0)
  {
    hide DrawAll, ModePieces;
    var second := if alt then [Mode(ALT_SCREEN, true)] + Redraw(screen) else [];
    var modes := ModePieces(MODE_ORDER, on);
    DrawOne(c, Mode(ALT_SCREEN, false), Redraw(primary) + (second + modes));
    var p := Draw(c, Mode(ALT_SCREEN, false));
    DrawConcat(p, Redraw(primary), second + modes);
    RedrawInk(p, [0x30], primary);
    var q := Canvas([Ink(1, Picture(primary))], 0);
    DrawConcat(q, second, modes);
    if alt {
      DrawOne(q, Mode(ALT_SCREEN, true), Redraw(screen));
      RedrawInk(Draw(q, Mode(ALT_SCREEN, true)), [0x30], screen);
    } else {
      DrawNothing(q);
    }
    ModesDrawNothing(DrawAll(q, second), MODE_ORDER, on);
  }

  lemma EntryDraws(c: Canvas)
    ensures DrawAll(c, ISOLATED_ENTRY) == Canvas([], 1)
  {
    hide DrawAll;
    DrawOne(c, Mode(ALT_SCREEN, true), [ERASE, HOME]);
    DrawTwo(Draw(c, Mode(ALT_SCREEN, true)), ERASE, HOME);
  }

  /** The screen there was is scrolled away, and the cursor homed. */
  lemma EnterNativeDraws(c: Canvas, rows: nat, hint: bool)
    requires rows > 0
    ensures DrawAll(c, EnterNativePieces(rows, hint)) == Canvas(c.ink + [Ink(rows, Line(Newlines(rows)))], 1)
  {
    hide DrawAll, Newlines;
    var a: seq<Piece> := [Move(rows), Text(Newlines(rows))];
    var t := if hint then [PUSH_TITLE, TITLE_HINT] else [];
    assert EnterNativePieces(rows, hint) == a + ([HOME] + t);
    DrawConcat(c, a, [HOME] + t);
    DrawTwo(c, Move(rows), Text(Newlines(rows)));
    var d := DrawAll(c, a);
    DrawOne(d, HOME, t);
    if hint {
      DrawTwo(Draw(d, HOME), PUSH_TITLE, TITLE_HINT);
    } else {
      DrawNothing(Draw(d, HOME));
    }
  }

  lemma FinalScreenDraws(c: Canvas, physicalRows: nat)
    requires physicalRows > 0
    ensures DrawAll(c, FinalScreenPieces(physicalRows))
            == Canvas(c.ink + [Ink(0, Switched(false)), Ink(physicalRows, Line(Newlines(physicalRows)))], 1)
  {
    hide DrawAll, Newlines;
    var a: seq<Piece> := [Move(physicalRows), Text(Newlines(physicalRows))];
    assert FinalScreenPieces(physicalRows) == LEAVE_ISOLATED + (a + [HOME, RESET_PEN]);
    DrawConcat(c, LEAVE_ISOLATED, a + [HOME, RESET_PEN]);
    DrawOne(c, Mode(ALT_SCREEN, false), [Margins(0)]);
    DrawOne(Draw(c, Mode(ALT_SCREEN, false)), Margins(0), []);
    var d := DrawAll(c, LEAVE_ISOLATED);
    DrawConcat(d, a, [HOME, RESET_PEN]);
    DrawTwo(d, Move(physicalRows), Text(Newlines(physicalRows)));
    DrawTwo(DrawAll(d, a), HOME, RESET_PEN);
  }

  lemma CleanupDraws(c: Canvas)
    ensures DrawAll(c, NATIVE_CLEANUP) == Canvas(c.ink, 0)
  {
    hide DrawAll, ModePieces;
    var last := [Cursor(false)];
    var margins := [Margins(0)] + last;
    var pen := [RESET_PEN, Cursor(true)] + margins;
    DrawConcat(c, NATIVE_MODE_RESET, [Mode(CURSOR_VISIBLE, true)] + pen);
    ModesDrawNothing(c, INPUT_ORDER, {});
    DrawOne(c, Mode(CURSOR_VISIBLE, true), pen);
    DrawConcat(c, [RESET_PEN, Cursor(true)], margins);
    DrawTwo(c, RESET_PEN, Cursor(true));
    DrawOne(c, Margins(0), last);
    DrawOne(c.(row := 1), Cursor(false), []);
  }

  lemma MarginsDrawNothing(c: Canvas)
    requires c.row == 0
    ensures DrawAll(c, [Cursor(true)] + ([Margins(0)] + [Cursor(false)])) == c
  {
    hide DrawAll;
    DrawOne(c, Cursor(true), [Margins(0)] + [Cursor(false)]);
    DrawOne(c, Margins(0), [Cursor(false)]);
    DrawOne(c.(row := 1), Cursor(false), []);
  }

  lemma PositionDraws(c: Canvas, cols: nat, rows: nat, physicalRows: nat, written: nat)
    requires c.row == 0
    ensures DrawAll(c, PositionPieces(cols, rows, physicalRows, written))
            == Canvas(c.ink + PositionInk(cols, rows, physicalRows, written), PositionRow(cols, rows, physicalRows, written))
  {
    hide DrawAll;
    if cols == 0 || rows == 0 || physicalRows == 0 {
      DrawOne(c, Text(NEWLINE), []);
    } else if written < physicalRows {
      DrawTwo(c, Move(written + 1), ERASE_LINE);
    } else {
      DrawTwo(c, Move(physicalRows), Text(NEWLINE));
    }
  }
}
