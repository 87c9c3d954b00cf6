/**
 * How an attached session is presented: natively, by forwarding its bytes, or
 * isolated, by painting a rendering onto the alternate screen. The object
 * follows the session between its screens, and restores the physical terminal
 * when the attachment ends.
 */
module Presentation {
  import opened Bytes
  import opened VtScan
  import opened Tracker
  import opened OuterTerminal
  import opened ClientPieces
  import opened Canvas
  import opened View

  datatype AttachMode = Auto | Isolated | Native

  datatype Shown = PendingShown | IsolatedShown | NativeShown

  datatype Outcome = Aborted | Detached | SessionEnded | Disconnected

  /** Begins every snapshot of the daemon's. */
  const SNAPSHOT_PREFIX: bytes :=
    ModeSequence(1049, false) + Csi([0x32], 0x4A) + Csi([], 0x48)

  function Message(o: Outcome): bytes {
    match o
    case Detached => Ascii("Detached from session")
    case SessionEnded => Ascii("Session ended")
    case Disconnected => Ascii("Disconnected from session")
    case Aborted => []
  }

  lemma MessagePlain(o: Outcome)
    ensures Plain(Message(o))
  {
  }

  /** The physical terminal as an attachment should find and leave it. */
  predicate Clean(l: Look) {
    !l.modes.alt && l.full && CURSOR_VISIBLE in l.modes.on && l.modes.on * INPUT_MODES == {}
  }

  class AttachModels {
    const mode: AttachMode
    const showDetachInstructions: bool
    const model: Model
    const screen: Screen
    var presentation: Shown
    var view: AttachView?
    var nativeEntered: bool
    var nativeHintRow: nat
    var nativeHintOnPrimary: bool
    var cols: nat
    var rows: nat
    var physicalRows: nat
    /** What the emulator had been given when the native screen was last drawn from it. */
    ghost var base: seq<Op>

    function OuterLook(): Look
      reads screen
    {
      LookOf(screen.state)
    }

    /** Height advertised to the session: isolated presentation reserves a line for the hint if there is room. */
    function SessionRows(physical: nat): nat
      reads `presentation
    {
      if presentation.IsolatedShown? && showDetachInstructions && physical > 1 then physical - 1 else physical
    }

    ghost predicate SizesOk()
      reads `presentation, `cols, `rows, `physicalRows, `nativeHintRow
    {
      && cols < 65536 && 0 < physicalRows < 65536
      && rows == SessionRows(physicalRows)
      && nativeHintRow < 65536
    }

    /** What holds at all times, even halfway through a frame. */
    ghost predicate Core()
      reads this, view, screen, model, model.term, model.term.scan
    {
      && Draws(model.emu)
      && Ready(screen.state)
      && Coherent(model.Value().scan) && model.Value().modes.on <= TRACKED
      && SizesOk() && SizeOf(model.history) == (cols, rows)
      && (nativeHintRow > 0 <==> nativeEntered && showDetachInstructions)
      && (view != null ==>
            && view.model == model && view.screen == screen
            && view.Steady() && !view.closed
            && view.rows == rows && view.reserved == (rows < physicalRows))
    }

    /** Before anything was presented the physical terminal is as it was found. */
    ghost predicate Untouched()
      reads screen
    {
      screen.state.t.scan == START && screen.state.t.modes == POWER_ON && screen.state.full
    }

    /** What the physical terminal is for, given the presentation. */
    ghost predicate Staged()
      reads this, screen
    {
      match presentation
      case PendingShown => mode.Auto? && view == null && !nativeEntered && Untouched()
      case IsolatedShown =>
        && !mode.Native? && (mode.Isolated? ==> !nativeEntered) && view != null
        && screen.state.t.scan == START
        && screen.state.t.modes.alt
        && screen.state.t.modes.on * INPUT_MODES == {}
        && (!nativeEntered ==> CURSOR_VISIBLE in screen.state.t.modes.on)
      case NativeShown =>
        && !mode.Isolated? && view == null
        && (!nativeEntered ==> Untouched())
        && (mode.Auto? ==> !screen.state.t.modes.alt)
    }

    /**
     * The agreement between session and physical terminal. While native the
     * physical terminal follows the model byte for byte; in auto mode the
     * presentation is isolated exactly while the session is on its alternate
     * screen; and an isolated view owes no repaint it does not know of.
     */
    ghost predicate Agreed()
      reads this, view, screen, model, model.term, model.term.scan
    {
      match presentation
      case PendingShown => model.Value() == FRESH
      case IsolatedShown =>
        && view != null && view.model == model && view.screen == screen && view.Fresh()
        && (mode.Auto? ==> model.Value().modes.alt)
      case NativeShown =>
        if nativeEntered then
          && Same(screen.state.t, model.Value())
          && (mode.Auto? ==> !model.Value().modes.alt)
        else mode.Native? && model.Value() == FRESH
    }

    /**
     * What stands on the native screen: a rendering of the model as it once
     * was, or nothing, and then byte for byte what the model has been given
     * since, but for its last bytes `missing`; nothing else but the hint, and
     * the scrolling at first entry.
     */
    ghost predicate LaidBut(missing: bytes)
      reads this, screen, model
    {
      && base <= model.history
      && FedTo(model.history) == FedTo(base) + Rawed(screen.canvas.ink) + missing
      && Arranged(screen.canvas.ink, nativeEntered, OwnHint())
    }

    ghost predicate Arranged(ink: seq<Ink>, entered: bool, hint: seq<Ink>)
      reads `base
    {
      if !entered then ink == [] && FedTo(base) == []
      else if Base(ink) == [] then FedTo(base) == [] && exists r: nat :: Overlay(ink) == [Ink(r, Line(Newlines(r)))] + hint
      else
        && (Overlay(ink) == [] || Overlay(ink) == hint)
        && Base(ink)[0].row == 1
        && (Base(ink)[0].mark == Picture(model.emu.screen(base))
            || (mode.Native? && Base(ink)[0].mark == Picture(model.emu.primary(base))))
    }

    ghost predicate Displayed()
      reads this, screen, model
    {
      presentation.NativeShown? ==> LaidBut([])
    }

    ghost predicate Valid()
      reads this, view, screen, model, model.term, model.term.scan
    {
      Core() && Staged() && Agreed() && Displayed()
    }

    constructor (mode: AttachMode, showDetachInstructions: bool, emu: Emulator)
      requires Draws(emu)
      ensures this.mode == mode && this.showDetachInstructions == showDetachInstructions && model.emu == emu
      ensures Valid() && model.Value() == FRESH && FedTo(model.history) == []
      ensures fresh(model) && fresh(model.term) && fresh(model.term.scan) && fresh(screen) && (view == null || fresh(view))
    {
      this.mode, this.showDetachInstructions := mode, showDetachInstructions;
      var m := new Model(emu);
      var s := new Screen();
      model, screen := m, s;
      presentation, view, nativeEntered := PendingShown, null, false;
      nativeHintRow, nativeHintOnPrimary := 0, false;
      cols, rows, physicalRows, base := 80, 24, 24, [];
      new;
      Start();
    }

    /** Applies the presentation chosen up front. */
    method Start()
      requires Core() && view == null && !nativeEntered && presentation.PendingShown? && Untouched() && model.Value() == FRESH
      requires base == [] && FedTo(model.history) == [] && screen.canvas.ink == []
      modifies this, screen, model
      ensures Valid() && model.Value() == FRESH && FedTo(model.history) == old(FedTo(model.history))
      ensures view == null || fresh(view)
    {
      match mode {
        case Isolated => EnterIsolated();
        case Native =>
          presentation := NativeShown;
          assert FedTo([]) == [];
        case Auto =>
      }
    }

    /** Claims the alternate screen and starts painting. */
    method EnterIsolated()
      requires Core() && view == null && !mode.Native?
      modifies `presentation, `view, `cols, `rows, `physicalRows, screen, model`history
      ensures Core() && presentation.IsolatedShown? && view != null && fresh(view) && view.Fresh()
      ensures screen.state.t.scan == START
      ensures screen.state.t.modes == old(screen.state.t.modes).(alt := true)
      ensures model.Value() == old(model.Value()) && physicalRows == old(physicalRows)
      ensures FedTo(model.history) == old(FedTo(model.history)) && screen.canvas.ink == []
    {
      hide Show, Inert, Effects, Render, ModePieces, Elements, AllSound, Idle, Wrote, DrawAll, SizeOf, FedTo;
      presentation := IsolatedShown;
      ResizeLocked(cols, physicalRows);
      ClaimAlternate();
      view := new AttachView(screen, model, rows, rows < physicalRows);
    }

    /** A cleared alternate screen, whatever the terminal was in the middle of. */
    method ClaimAlternate()
      requires Ready(screen.state)
      modifies screen
      ensures Ready(screen.state) && screen.state.t.scan == START && screen.state.full == old(screen.state.full)
      ensures screen.state.t.modes == old(screen.state.t.modes).(alt := true) && screen.canvas.ink == []
    {
      hide Show, Inert, Effects, Render, ModePieces, Elements, AllSound, DrawAll;
      FixedSound();
      EntryDraws(screen.canvas);
      EntryEffects(OuterLook());
      screen.Put(ISOLATED_ENTRY);
    }

    /** The primary screen again, scrolling as a whole. */
    method GiveBackAlternate()
      requires Ready(screen.state)
      modifies screen
      ensures Ready(screen.state) && screen.state.t.scan == START && screen.state.full
      ensures screen.state.t.modes == old(screen.state.t.modes).(alt := false)
    {
      hide Show, Inert, Effects, Render, ModePieces, Elements, AllSound, DrawAll;
      FixedSound();
      LeaveEffects(OuterLook());
      screen.Put(LEAVE_ISOLATED);
    }

    /**
     * What the painter does meanwhile: it runs beside the code that holds the
     * lock, and takes any number of its steps wherever that code is.
     */
    method Meanwhile()
      requires view != null ==> view.screen == screen && view.Steady()
      modifies view, screen
      ensures view != null ==>
                && view.Steady() && view.closed == old(view.closed)
                && view.rows == old(view.rows) && view.reserved == old(view.reserved)
                && (old(view.Fresh()) ==> view.Fresh())
      ensures view == null ==> screen.state == old(screen.state) && screen.canvas == old(screen.canvas)
      ensures screen.state.t.modes == old(screen.state.t.modes)
    {
      if view != null {
        var steps :| 0 <= steps;
        for i := 0 to steps
          invariant view.Steady() && (old(view.Fresh()) ==> view.Fresh())
          invariant view.closed == old(view.closed) && view.rows == old(view.rows) && view.reserved == old(view.reserved)
          invariant screen.state.t.modes == old(screen.state.t.modes)
        {
          view.Step();
        }
      }
    }

    method ResizeLocked(newCols: nat, newPhysicalRows: nat)
      requires newCols < 65536 && 0 < newPhysicalRows < 65536
      requires view != null ==> view.model == model && view.screen == screen && view.Steady()
      modifies `cols, `rows, `physicalRows, model`history, view, screen
      ensures cols == newCols && physicalRows == newPhysicalRows && rows == SessionRows(physicalRows)
      ensures view != null ==>
                && view.Steady() && view.wake && view.closed == old(view.closed)
                && view.rows == rows && view.reserved == (rows < physicalRows)
      ensures view == null ==> screen.state == old(screen.state) && screen.canvas == old(screen.canvas)
      ensures screen.state.t.modes == old(screen.state.t.modes)
      ensures model.Value() == old(model.Value())
      ensures SizeOf(model.history) == (cols, rows) && FedTo(model.history) == old(FedTo(model.history))
      ensures old(model.history) <= model.history
    {
      hide SizeOf, FedTo;
      var newRows := SessionRows(newPhysicalRows);
      OneOpMore(model.history, Op.Resized(newCols, newRows));
      model.Resize(newCols, newRows);
      Meanwhile();
      cols, rows, physicalRows := newCols, newRows, newPhysicalRows;
      if view != null {
        view.SetSize(newRows, newRows < newPhysicalRows);
      }
    }

    /** Returns from the isolated presentation to native, before the model is repainted. */
    method LeaveIsolated()
      requires Core() && Staged() && mode.Auto? && !presentation.NativeShown?
      modifies `presentation, `view, `cols, `rows, `physicalRows, view, screen, model`history
      ensures Core() && Staged() && presentation.NativeShown? && view == null
      ensures model.Value() == old(model.Value()) && nativeEntered == old(nativeEntered)
      ensures physicalRows == old(physicalRows) && FedTo(model.history) == old(FedTo(model.history))
      ensures old(presentation.IsolatedShown?) ==> !screen.state.t.modes.alt && screen.state.full
    {
      hide Show, Inert, Effects, Render, ModePieces, Elements, AllSound, Idle, Wrote, DrawAll, SizeOf, FedTo;
      if view != null {
        view.Close();
        view := null;
      }
      var wasIsolated := presentation.IsolatedShown?;
      presentation := NativeShown;
      ResizeLocked(cols, physicalRows);
      if wasIsolated {
        GiveBackAlternate();
      }
    }

    /**
     * Switches auto mode to the presentation matching the session's active
     * screen; forced modes never switch. Reports whether the advertised height
     * changed.
     */
    method FollowActiveScreen() returns (resized: bool)
      requires Core() && Staged()
      modifies `presentation, `view, `cols, `rows, `physicalRows, view, screen, model`history
      ensures Core() && Staged()
      ensures model.Value() == old(model.Value()) && nativeEntered == old(nativeEntered)
      ensures mode.Auto? ==> presentation == if model.Value().modes.alt then IsolatedShown else NativeShown
      ensures !mode.Auto? ==> presentation == old(presentation)
      ensures presentation == old(presentation) ==>
                view == old(view) && screen.state == old(screen.state) && screen.canvas == old(screen.canvas)
      ensures FedTo(model.history) == old(FedTo(model.history))
      ensures view != old(view) ==> view == null || fresh(view)
      ensures resized == (rows != old(rows)) && physicalRows == old(physicalRows)
    {
      hide Show, Inert, Effects, Render, ModePieces, Elements, AllSound, Idle, Wrote;
      if !mode.Auto? {
        return false;
      }
      var want := if model.term.alt then IsolatedShown else NativeShown;
      if want == presentation {
        return false;
      }
      var previousRows := rows;
      if want.IsolatedShown? {
        if nativeEntered {
          WithdrawInputModes();
        }
        EnterIsolated();
      } else {
        LeaveIsolated();
      }
      return rows != previousRows;
    }

    /** The isolated view only paints, so what the session enabled natively is withdrawn first. */
    method WithdrawInputModes()
      requires Ready(screen.state)
      modifies screen
      ensures Ready(screen.state) && screen.state.t.scan == START && screen.state.full == old(screen.state.full)
      ensures screen.state.t.modes == Modes(old(screen.state.t.modes.alt), old(screen.state.t.modes.on) - INPUT_MODES)
    {
      hide Show, Inert, Effects, Render, ModePieces, Elements, AllSound;
      FixedSound();
      ResetEffects(OuterLook());
      screen.Put(NATIVE_MODE_RESET);
    }

    /** Prepares the normal buffer for forwarded bytes, once. */
    method EnterNative()
      requires Core() && presentation.NativeShown?
      modifies `nativeEntered, screen
      ensures screen.canvas == if old(nativeEntered) then old(screen.canvas)
                               else Canvas(old(screen.canvas).ink + [Ink(physicalRows, Line(Newlines(physicalRows)))], 1)
      ensures nativeEntered && Ready(screen.state)
      ensures old(nativeEntered) ==> screen.state == old(screen.state)
      ensures !old(nativeEntered) ==> screen.state.t.scan == START && OuterLook() == old(OuterLook())
    {
      hide Show, Inert, Effects, Render, ModePieces, Elements, AllSound, Idle, Wrote, DrawAll, Newlines;
      if nativeEntered {
        return;
      }
      nativeEntered := true;
      var ps := EnterNativePieces(physicalRows, showDetachInstructions);
      EnterNativeSound(physicalRows, showDetachInstructions);
      EnterNativeDraws(screen.canvas, physicalRows, showDetachInstructions);
      IdleEffects(OuterLook(), ps);
      screen.Put(ps);
    }

    /** Draws the detach hint a single time, on the first row the session has not used. */
    method ShowNativeHintOnce()
      requires Draws(model.emu) && Ready(screen.state) && SizesOk()
      modifies `nativeHintRow, `nativeHintOnPrimary, screen
      ensures SizesOk() && Ready(screen.state) && OuterLook() == old(OuterLook())
      ensures nativeHintRow == 0 ==> !showDetachInstructions && old(nativeHintRow) == 0
      ensures !showDetachInstructions ==> nativeHintRow == old(nativeHintRow)
      ensures showDetachInstructions && old(nativeHintRow) == 0 ==> screen.state.t.scan == START
      ensures old(nativeHintRow) > 0 || !showDetachInstructions ==> screen.state == old(screen.state)
      ensures screen.state == old(screen.state) || screen.state.t.scan == START
      ensures if showDetachInstructions && old(nativeHintRow) == 0 then
                var free := model.emu.writtenRows(model.history) + 1;
                && nativeHintRow == (if free < physicalRows then free else physicalRows)
                && nativeHintOnPrimary == !model.term.alt
                && screen.canvas == Canvas(old(screen.canvas).ink + HintInk(nativeHintRow), 0)
              else
                && nativeHintRow == old(nativeHintRow) && nativeHintOnPrimary == old(nativeHintOnPrimary)
                && screen.canvas == old(screen.canvas)
    {
      hide Show, Inert, Effects, Render, ModePieces, Elements, AllSound, Idle, Wrote, HintPieces, DrawAll, HintInk;
      if !showDetachInstructions || nativeHintRow != 0 || physicalRows == 0 {
        return;
      }
      var written := model.emu.writtenRows(model.history);
      nativeHintRow := if written + 1 < physicalRows then written + 1 else physicalRows;
      nativeHintOnPrimary := !model.term.alt;
      HintSound(nativeHintRow);
      HintDraws(screen.canvas, nativeHintRow);
      IdleEffects(OuterLook(), HintPieces(nativeHintRow));
      screen.Put(HintPieces(nativeHintRow));
    }

    /** The sequences that bring the physical terminal's screen, or screens, and modes up to the model's. */
    method NativeRepaint() returns (ps: seq<Piece>)
      requires Draws(model.emu)
      ensures AllSound(ps) && ps != [] && Restarts(ps[0])
      ensures ps == if mode.Native?
                    then SnapshotPieces(model.Value().modes.alt, model.emu.primary(model.history),
                                        model.emu.screen(model.history), model.Value().modes.on)
                    else RepaintPieces(model.emu.screen(model.history), model.Value().modes.on)
    {
      hide Show, Inert, Effects, Render, ModePieces, Elements, AllSound, Idle, Wrote;
      var d := model.emu.screen(model.history);
      if mode.Native? {
        var p := model.emu.primary(model.history);
        SnapshotSound(model.term.alt, p, d, model.term.on);
        return SnapshotPieces(model.term.alt, p, d, model.term.on);
      }
      RepaintSound(d, model.term.on);
      return RepaintPieces(d, model.term.on);
    }

    /** The rendering of the screen that a repaint brings up. */
    ghost function Modelled(): bytes
      reads this, model, model.term, model.term.scan
    {
      if mode.Native? && !model.Value().modes.alt then model.emu.primary(model.history) else model.emu.screen(model.history)
    }

    /** The native hint, if it is to be shown. */
    ghost function OwnHint(): seq<Ink>
      reads `nativeHintRow
    {
      if showDetachInstructions then HintInk(nativeHintRow) else []
    }

    /** Writes it: the screen then is the model's, and so are the modes. */
    method PutRepaint()
      requires Draws(model.emu) && Ready(screen.state) && model.Value().modes.on <= TRACKED
      modifies screen
      ensures Ready(screen.state) && screen.state.t.scan == START && screen.state.full == old(screen.state.full)
      ensures screen.state.t.modes == Modes(if mode.Native? then model.Value().modes.alt else old(screen.state.t.modes.alt), model.Value().modes.on)
      ensures screen.canvas == Canvas([Ink(1, Picture(Modelled()))], 0)
    {
      hide Show, Inert, Effects, Render, ModePieces, Elements, AllSound, Idle, Wrote, DrawAll;
      ghost var d, p, m := model.emu.screen(model.history), model.emu.primary(model.history), model.Value().modes;
      RepaintAgrees(mode, OuterLook(), m, p, d);
      RepaintDraws(screen.canvas, d, m.on);
      SnapshotDraws(screen.canvas, m.alt, p, d, m.on);
      var repaint := NativeRepaint();
      screen.Put(repaint);
    }

    /** Nothing is missing behind a repaint. */
    lemma RepaintStands(hint: seq<Ink>)
      requires base == model.history && (hint == [] || hint == OwnHint())
      requires screen.canvas.ink == [Ink(1, Picture(Modelled()))] + hint && nativeEntered
      ensures LaidBut([])
    {
      hide HintInk, Base, Rawed, Overlay, FedTo;
      RepaintLays(screen.canvas.ink, Modelled(), nativeHintRow);
      assert FedTo(base) + [] + [] == FedTo(base);
      if hint == [] {
        assert screen.canvas.ink == [Ink(1, Picture(Modelled()))];
      } else {
        assert screen.canvas.ink == [Ink(1, Picture(Modelled()))] + HintInk(nativeHintRow);
      }
    }

    /** What was forwarded now stands behind what stood there. */
    lemma StandsBehind(ink: seq<Ink>, entered: bool, payload: bytes, behind: bytes, r: nat)
      requires base <= model.history && FedTo(model.history) == FedTo(base) + Rawed(ink) + (payload + behind)
      requires Arranged(ink, entered, OwnHint()) && nativeEntered
      requires var now := screen.canvas.ink;
               && Base(now) == Base(ink) && Rawed(now) == Rawed(ink) + payload
               && Overlay(now) == Overlay(ink) + if entered then [] else [Ink(r, Line(Newlines(r)))] + OwnHint()
      ensures LaidBut(behind)
    {
      hide HintInk, FedTo, Newlines;
      var now := screen.canvas.ink;
      assert FedTo(base) + Rawed(now) + behind == FedTo(base) + Rawed(ink) + (payload + behind);
      if entered {
        assert Overlay(now) == Overlay(ink);
      } else {
        assert Overlay(now) == [Ink(r, Line(Newlines(r)))] + OwnHint();
      }
    }

    /** Shows the modelled state, after the model took a snapshot or the presentation changed. */
    method PresentFromModel()
      requires Core() && Staged() && !presentation.PendingShown?
      requires mode.Auto? ==> presentation == if model.Value().modes.alt then IsolatedShown else NativeShown
      modifies `nativeEntered, `nativeHintRow, `nativeHintOnPrimary, `base, screen, if view == null then {} else {view}
      ensures Core() && Staged() && (presentation.NativeShown? ==> nativeEntered && base == model.history) && Displayed()
      ensures Agreed() <==> (presentation.NativeShown? ==> AtGround(model.Value().scan))
      ensures presentation.NativeShown? ==>
                screen.canvas.ink == [Ink(1, Picture(Modelled()))] + if old(nativeHintRow) == 0 then OwnHint() else []
      ensures nativeHintRow > 0 && old(nativeHintRow) > 0 && presentation.NativeShown? ==> !nativeHintOnPrimary
    {
      hide Show, Inert, Effects, Render, ModePieces, Elements, AllSound, Idle, Wrote, DrawAll, HintInk, SizeOf, Newlines, LaidBut, Base, Rawed, Overlay, FedTo;
      if presentation.IsolatedShown? {
        Meanwhile();
        view.MarkDirty();
        Meanwhile();
        return;
      }
      EnterNative();
      PutRepaint();
      base := model.history;
      ghost var first := nativeHintRow == 0;
      nativeHintOnPrimary := false;
      ShowNativeHintOnce();
      RepaintStands(if first then OwnHint() else []);
    }

    /** Shows streamed bytes that the model has already taken, and `behind` them more that are not to be shown yet. */
    method PresentRaw(payload: bytes, ghost behind: bytes)
      requires Core() && Staged() && !presentation.PendingShown?
      requires presentation.NativeShown? ==> LaidBut(payload + behind)
      requires mode.Auto? && presentation.NativeShown? ==> nativeEntered && !Wrote(screen.state.t, payload).modes.alt
      modifies `nativeEntered, `nativeHintRow, `nativeHintOnPrimary, screen, if view == null then {} else {view}
      ensures Core() && Staged()
      ensures presentation.IsolatedShown? ==> view.Fresh() && nativeEntered == old(nativeEntered)
      ensures presentation.NativeShown? && old(nativeEntered) ==> screen.state.t == Wrote(old(screen.state.t), payload)
      ensures presentation.NativeShown? && !old(nativeEntered) ==>
                (Same(screen.state.t, Wrote(FRESH, payload)) <==>
                 !showDetachInstructions || AtGround(Wrote(FRESH, payload).scan))
      ensures presentation.NativeShown? ==> nativeEntered && LaidBut(behind)
      ensures presentation.NativeShown? ==>
                screen.canvas.ink ==
                (if old(nativeEntered) then old(screen.canvas.ink) + [Ink(old(screen.canvas.row), Raw(payload))]
                 else old(screen.canvas.ink) + [Ink(physicalRows, Line(Newlines(physicalRows))), Ink(1, Raw(payload))])
                + if old(nativeHintRow) == 0 then OwnHint() else []
    {
      hide Show, Inert, Effects, Render, ModePieces, Elements, AllSound, Idle, DrawAll, HintInk, SizeOf, Newlines, Base, Rawed, Overlay, FedTo;
      if presentation.IsolatedShown? {
        view.MarkDirty();
        Meanwhile();
        return;
      }
      ghost var c, entered := screen.canvas, nativeEntered;
      ForwardNative(payload);
      ghost var ink := screen.canvas.ink;
      ForwardLays(c, entered, physicalRows, payload, ink);
      ShowNativeHintOnce();
      HintOverlays(ink, nativeHintRow);
      StandsBehind(c.ink, entered, payload, behind, physicalRows);
    }

    /** Bytes reach the physical terminal as they are, the first ones on a prepared screen. */
    method ForwardNative(payload: bytes)
      requires Core() && Staged() && presentation.NativeShown?
      modifies `nativeEntered, screen
      ensures nativeEntered && Ready(screen.state)
      ensures old(nativeEntered) ==> screen.state.t == Wrote(old(screen.state.t), payload)
      ensures !old(nativeEntered) ==> Same(screen.state.t, Wrote(FRESH, payload))
      ensures screen.canvas.ink ==
              if old(nativeEntered) then old(screen.canvas.ink) + [Ink(old(screen.canvas.row), Raw(payload))]
              else old(screen.canvas.ink) + [Ink(physicalRows, Line(Newlines(physicalRows))), Ink(1, Raw(payload))]
    {
      hide Show, Inert, Effects, Render, Track, Newlines;
      ghost var wasEntered := nativeEntered;
      EnterNative();
      ghost var t := screen.state.t;
      screen.Forward(payload);
      if !wasEntered {
        SameTrack(t, FRESH, payload, |payload|);
      }
    }

    /** Whether something of the client's own follows the frame's bytes on the physical terminal. */
    predicate Interposes(payload: bytes)
      reads this, model, model.term, model.term.scan
    {
      if presentation.PendingShown? || SNAPSHOT_PREFIX <= payload then
        mode.Native? || (mode.Auto? && !Wrote(model.Value(), payload).modes.alt)
      else presentation.NativeShown? && !nativeEntered && showDetachInstructions
    }

    /**
     * Models a frame of session output and presents it. Afterwards session and
     * physical terminal agree again, wherever in the frame, or across frames,
     * the session switched screens, unless the frame stopped inside a sequence
     * that what the client then wrote cut off; exactly then they do not.
     * Reports whether the advertised height may have changed.
     */
    method ApplyOutput(payload: bytes) returns (resized: bool)
      requires Valid()
      modifies this, view, screen, model, model.term, model.term.scan
      ensures Core() && Staged() && Displayed() && !presentation.PendingShown?
      ensures presentation.NativeShown? ==> nativeEntered
      ensures Agreed() <==> (old(Interposes(payload)) ==> AtGround(model.Value().scan))
      ensures model.Value() == Wrote(old(model.Value()), payload)
      ensures view != old(view) ==> view == null || fresh(view)
      ensures !resized ==> rows == old(rows)
      ensures resized ==>
                && mode.Auto? && showDetachInstructions && physicalRows > 1
                && (rows != old(rows) || exists k :: 0 < k <= |payload| && Toggles(old(model.Value()), payload, k))
      ensures physicalRows == old(physicalRows)
      ensures old(presentation.PendingShown?) || SNAPSHOT_PREFIX <= payload ==>
                presentation.NativeShown? ==> base == model.history
      ensures !old(presentation.PendingShown?) && !(SNAPSHOT_PREFIX <= payload) ==>
                base == old(base) || (mode.Auto? && exists k :: 0 < k <= |payload| && Toggles(old(model.Value()), payload, k))
      ensures FedTo(model.history) == old(FedTo(model.history)) + payload
    {
      hide Show, Inert, Effects, Render, ModePieces, Elements, AllSound, Idle, Track, Same, Toggles, FedTo, SizeOf, DrawAll, Arranged;
      if presentation.PendingShown? || SNAPSHOT_PREFIX <= payload {
        resized := Resynchronize(payload);
      } else if !mode.Auto? {
        resized := false;
        PresentForced(payload);
      } else {
        resized := PresentByScreens(payload);
      }
    }

    /** The frame is the first, or a snapshot: what it leaves is presented from the model. */
    method Resynchronize(payload: bytes) returns (resized: bool)
      requires Valid()
      modifies this, view, screen, model, model.term, model.term.scan
      ensures Core() && Staged() && Displayed() && !presentation.PendingShown?
      ensures presentation.NativeShown? ==> nativeEntered
      ensures Agreed() <==> (presentation.NativeShown? ==> AtGround(model.Value().scan))
      ensures presentation.NativeShown? <==> mode.Native? || (mode.Auto? && !model.Value().modes.alt)
      ensures presentation.NativeShown? ==> base == model.history
      ensures model.Value() == Wrote(old(model.Value()), payload)
      ensures view != old(view) ==> view == null || fresh(view)
      ensures resized == (rows != old(rows)) && physicalRows == old(physicalRows)
      ensures resized ==> mode.Auto? && showDetachInstructions && physicalRows > 1
      ensures FedTo(model.history) == old(FedTo(model.history)) + payload
    {
      hide Show, Inert, Effects, Render, ModePieces, Elements, AllSound, Idle, Track, Same, FedTo, SizeOf, DrawAll, Arranged;
      TakeWhole(payload);
      resized := FollowActiveScreen();
      PresentFromModel();
    }

    method TakeWhole(payload: bytes)
      requires Core() && Staged()
      modifies view, screen, model, model.term, model.term.scan
      ensures Core() && Staged()
      ensures model.Value() == Wrote(old(model.Value()), payload)
      ensures view == null ==> screen.state == old(screen.state) && screen.canvas == old(screen.canvas)
      ensures FedTo(model.history) == old(FedTo(model.history)) + payload
      ensures old(Displayed()) && presentation.NativeShown? ==> LaidBut(payload)
    {
      hide Show, Inert, Effects, Render, Track, FedTo, SizeOf;
      TrackReady(model.Value(), payload, |payload|);
      OneOpMore(model.history, Fed(payload));
      model.Write(payload);
      Meanwhile();
    }

    /** Forced modes present every frame the same way. */
    method PresentForced(payload: bytes)
      requires Valid() && !mode.Auto?
      modifies this`nativeEntered, this`nativeHintRow, this`nativeHintOnPrimary
      modifies view, screen, model, model.term, model.term.scan
      ensures Core() && Staged() && Displayed() && (presentation.NativeShown? ==> nativeEntered)
      ensures model.Value() == Wrote(old(model.Value()), payload)
      ensures FedTo(model.history) == old(FedTo(model.history)) + payload
      ensures Agreed() <==> (presentation.NativeShown? && !old(nativeEntered) && showDetachInstructions ==> AtGround(model.Value().scan))
    {
      hide Show, Inert, Effects, Render, Track, Same;
      if presentation.NativeShown? && nativeEntered {
        SameTrack(screen.state.t, model.Value(), payload, |payload|);
      }
      TakeWhole(payload);
      assert payload + [] == payload;
      PresentRaw(payload, []);
    }

    /**
     * Follows the session between screens inside a frame: bytes up to a switch
     * are shown under the presentation they were written for, the switch itself
     * is replaced by the client's own, and the rest continues under the new one.
     */
    method PresentByScreens(payload: bytes) returns (resized: bool)
      requires Valid() && mode.Auto? && !presentation.PendingShown?
      modifies this, view, screen, model, model.term, model.term.scan
      ensures Valid() && !presentation.PendingShown?
      ensures model.Value() == Wrote(old(model.Value()), payload)
      ensures view != old(view) ==> view == null || fresh(view)
      ensures !resized ==> rows == old(rows)
      ensures resized ==>
                && showDetachInstructions && physicalRows > 1
                && exists k :: 0 < k <= |payload| && Toggles(old(model.Value()), payload, k)
      ensures base == old(base) || exists k :: 0 < k <= |payload| && Toggles(old(model.Value()), payload, k)
      ensures physicalRows == old(physicalRows)
      ensures FedTo(model.history) == old(FedTo(model.history)) + payload
    {
      hide Track, Valid, Toggles, FedTo;
      ghost var t := model.Value();
      NothingTracked(t, payload);
      resized := false;
      var at := 0;
      while at < |payload|
        invariant at <= |payload|
        invariant Valid() && !presentation.PendingShown?
        invariant model.Value() == Track(t, payload, at)
        invariant view == old(view) || view == null || fresh(view)
        invariant !resized ==> rows == old(rows)
        invariant resized ==>
                    && showDetachInstructions && physicalRows > 1
                    && exists k :: 0 < k <= |payload| && Toggles(t, payload, k)
        invariant base == old(base) || exists k :: 0 < k <= |payload| && Toggles(t, payload, k)
        invariant physicalRows == old(physicalRows)
        invariant FedTo(model.history) == old(FedTo(model.history)) + payload[..at]
      {
        var consumed, changed := PresentUntilSwitch(payload[at..]);
        TrackFrom(t, payload, at, consumed);
        ToggleFrom(t, payload, at, consumed);
        assert payload[..at] + payload[at..][..consumed] == payload[..at + consumed];
        at := at + consumed;
        resized := resized || changed;
      }
      assert payload[..at] == payload;
    }

    /** One turn of that loop. */
    method PresentUntilSwitch(p: bytes) returns (consumed: nat, changed: bool)
      requires Valid() && mode.Auto? && !presentation.PendingShown? && |p| > 0
      modifies this, view, screen, model, model.term, model.term.scan
      ensures Valid() && !presentation.PendingShown?
      ensures 0 < consumed <= |p| && model.Value() == Track(old(model.Value()), p, consumed)
      ensures view != old(view) ==> view == null || fresh(view)
      ensures changed == (rows != old(rows)) && physicalRows == old(physicalRows)
      ensures changed ==> showDetachInstructions && physicalRows > 1 && Toggles(old(model.Value()), p, consumed)
      ensures base == old(base) || Toggles(old(model.Value()), p, consumed)
      ensures FedTo(model.history) == old(FedTo(model.history)) + p[..consumed]
    {
      hide Show, Inert, Effects, Render, ModePieces, Elements, AllSound, Idle, Track, Same, Toggles, FedTo, SizeOf, DrawAll, HintInk, Newlines;
      ghost var t := model.Value();
      var before: nat, switched: bool;
      before, consumed, switched := TakeUntilSwitch(p);
      if presentation.NativeShown? {
        ForwardedBefore(t, screen.state.t, p, before, consumed);
      }
      if before > 0 {
        assert p[..before] + p[before..consumed] == p[..consumed];
        PresentRaw(p[..before], p[before..consumed]);
      }
      changed := false;
      if switched {
        ToggleEndsSequence(t, p, consumed);
        changed := Transition();
      } else {
        AltUnchanged(t, p, consumed);
      }
    }

    /** Behind a switch of the session's the other presentation takes over. */
    method Transition() returns (changed: bool)
      requires Core() && Staged() && mode.Auto? && !presentation.PendingShown? && AtGround(model.Value().scan)
      modifies this, view, screen, model`history
      ensures Valid() && !presentation.PendingShown? && model.Value() == old(model.Value())
      ensures view != old(view) ==> view == null || fresh(view)
      ensures changed == (rows != old(rows)) && physicalRows == old(physicalRows)
      ensures changed ==> showDetachInstructions && physicalRows > 1
      ensures FedTo(model.history) == old(FedTo(model.history))
    {
      hide Show, Inert, Effects, Render, ModePieces, Elements, AllSound, Idle, Track, Same, FedTo, SizeOf, DrawAll, HintInk, Newlines;
      changed := FollowActiveScreen();
      PresentFromModel();
    }

    method TakeUntilSwitch(p: bytes) returns (before: nat, consumed: nat, switched: bool)
      requires Core() && Staged() && |p| > 0
      modifies view, screen, model, model.term, model.term.scan
      ensures Core() && Staged()
      ensures view == null ==> screen.state == old(screen.state) && screen.canvas == old(screen.canvas)
      ensures consumed <= |p| && FedTo(model.history) == old(FedTo(model.history)) + p[..consumed]
      ensures old(Displayed()) && presentation.NativeShown? ==> LaidBut(p[..consumed])
      ensures before <= consumed && 0 < consumed <= |p| && model.Value() == Track(old(model.Value()), p, consumed)
      ensures forall k :: 0 < k < consumed ==> !Toggles(old(model.Value()), p, k)
      ensures switched ==> before < consumed && Toggles(old(model.Value()), p, consumed)
      ensures !switched ==> before == consumed == |p| && !Toggles(old(model.Value()), p, consumed)
    {
      hide Show, Inert, Effects, Render, Track, Toggles, SequenceStart, FedTo, SizeOf;
      ghost var t := model.Value();
      ghost var h := model.history;
      before, consumed, switched := model.WriteUntilScreenSwitch(p);
      OneOpMore(h, Fed(p[..consumed]));
      TrackReady(t, p, consumed);
      Meanwhile();
    }

    /** Adopts a new physical size; zero reports that nothing is to be advertised. */
    method ApplyResize(newCols: nat, newPhysicalRows: nat) returns (advertise: nat)
      requires Valid() && newCols < 65536 && newPhysicalRows < 65536
      modifies `cols, `rows, `physicalRows, view, screen, model`history
      ensures Valid() && model.Value() == old(model.Value())
      ensures OuterLook().modes == old(OuterLook().modes)
      ensures view == null ==> screen.state == old(screen.state) && screen.canvas == old(screen.canvas)
      ensures FedTo(model.history) == old(FedTo(model.history))
      ensures if newCols == 0 || newPhysicalRows == 0
              then advertise == 0 && rows == old(rows) && physicalRows == old(physicalRows) && cols == old(cols)
              else physicalRows == newPhysicalRows && cols == newCols
                   && advertise == rows == SessionRows(newPhysicalRows) > 0
    {
      hide Show, Inert, Track, Same;
      if newCols == 0 || newPhysicalRows == 0 {
        return 0;
      }
      ResizeLocked(newCols, newPhysicalRows);
      return rows;
    }

    /** What is there once a hint on the primary screen was painted over by that screen as modelled. */
    ghost function Unhinted(ink: seq<Ink>): seq<Ink>
      reads `nativeHintRow, `nativeHintOnPrimary, model
    {
      if nativeHintRow != 0 && nativeHintOnPrimary then [Ink(1, Picture(model.emu.primary(model.history)))] else ink
    }

    /** What an isolated presentation leaves on the terminal. */
    ghost function IsolatedFarewell(outcome: Outcome): seq<Ink>
      reads `cols, `rows, `physicalRows, model
    {
      match outcome
      case Aborted => [Ink(0, Switched(false))]
      case Detached => [Ink(0, Switched(false)), Ink(0, Line(NEWLINE)), Ink(0, Line(Message(outcome) + NEWLINE))]
      case _ => FinalInk(cols, rows, physicalRows, model.emu.writtenRows(model.history),
                         model.emu.screen(model.history), Message(outcome) + NEWLINE)
    }

    /** What a native one leaves, once something was forwarded. */
    ghost function NativeFarewell(outcome: Outcome): seq<Ink>
      reads `cols, `rows, `physicalRows, model, model.term`alt
    {
      if outcome.Aborted? then []
      else if model.term.alt then PlacedInk(0, 0, 0, model.emu.writtenRows(model.history), Message(outcome) + NEWLINE)
      else PlacedInk(cols, rows, physicalRows, model.emu.writtenRows(model.history), Message(outcome) + NEWLINE)
    }

    /** The outcome alone, where the cursor is. */
    ghost function OutcomeOnly(row: nat, outcome: Outcome): seq<Ink> {
      if outcome.Aborted? then [] else [Ink(row, Line(NEWLINE)), Ink(0, Line(Message(outcome) + NEWLINE))]
    }

    /**
     * Stops presenting and gives the physical terminal back: on its primary
     * screen and, unless the attachment was aborted, with the whole screen
     * scrolling, a visible cursor and no input reported. An abort of an
     * isolated presentation only leaves the alternate screen. Unless aborted
     * it ends with the outcome; an ended or disconnected session's last screen
     * is reprinted if it was isolated.
     */
    method Finish(outcome: Outcome)
      requires Valid()
      modifies `view, view, screen
      ensures view == null && Ready(screen.state) && screen.state.t.scan == START
      ensures !OuterLook().modes.alt
      ensures !outcome.Aborted? ==> Clean(OuterLook())
      ensures outcome.Aborted? ==>
                (Clean(OuterLook()) <==>
                 !presentation.IsolatedShown? || (rows == physicalRows && CURSOR_VISIBLE in old(OuterLook().modes.on)))
      ensures presentation.IsolatedShown? ==>
                screen.canvas.ink ==
                Unhinted(Shot(model.emu.screen(model.history), rows, rows < physicalRows)) + IsolatedFarewell(outcome)
      ensures presentation.NativeShown? && nativeEntered ==>
                screen.canvas.ink ==
                Unhinted(old(screen.canvas.ink) + if model.term.alt then [Ink(0, Switched(false))] else [])
                + NativeFarewell(outcome)
      ensures presentation.PendingShown? || (presentation.NativeShown? && !nativeEntered) ==>
                screen.canvas.ink == old(screen.canvas.ink) + OutcomeOnly(old(screen.canvas.row), outcome)
    {
      hide Show, Inert, Effects, Render, ModePieces, Elements, AllSound, Idle, Track, DrawAll, Shot, FinalInk, PlacedInk, SizeOf;
      if view != null {
        view.Close();
        view := null;
      }
      match presentation {
        case IsolatedShown => FinishIsolated(outcome);
        case NativeShown => FinishNative(outcome);
        case PendingShown =>
          if Message(outcome) != [] {
            SayNewline();
            Tell(outcome);
          }
      }
    }

    /** Writes pieces that only draw. */
    method Say(ps: seq<Piece>)
      requires Ready(screen.state) && AllSound(ps) && Idle(ps)
      requires AtGround(screen.state.t.scan) || (ps != [] && Restarts(ps[0]))
      modifies screen
      ensures Ready(screen.state) && screen.state.t.scan == START && OuterLook() == old(OuterLook())
      ensures screen.canvas == DrawAll(old(screen.canvas), ps)
    {
      hide Show, Effects, Render, AllSound, DrawAll;
      IdleEffects(OuterLook(), ps);
      screen.Put(ps);
    }

    /** Writes one piece of text, or of a rendering. */
    method SayOne(x: Piece)
      requires Ready(screen.state) && AtGround(screen.state.t.scan) && Sound(x) && (x.Text? || x.Dump? || x.Control?)
      modifies screen
      ensures Ready(screen.state) && screen.state.t.scan == START && OuterLook() == old(OuterLook())
      ensures screen.canvas == Draw(old(screen.canvas), x)
    {
      hide Show, Effects, Render, DrawAll, Draw, Sound;
      DrawOne(screen.canvas, x, []);
      Say([x]);
    }

    /** The one-line outcome. */
    method Tell(outcome: Outcome)
      requires Ready(screen.state) && AtGround(screen.state.t.scan)
      modifies screen
      ensures Ready(screen.state) && screen.state.t.scan == START && OuterLook() == old(OuterLook())
      ensures screen.canvas == Marked(old(screen.canvas), Line(Message(outcome) + NEWLINE))
    {
      hide Show, Effects, Render, Message;
      MessagePlain(outcome);
      SayOne(Text(Message(outcome) + NEWLINE));
    }

    /** Writes back the primary screen as modelled, without the hint, if the hint is still there. */
    method NativeHintCleanup() returns (ps: seq<Piece>)
      requires Draws(model.emu)
      ensures AllSound(ps) && Idle(ps) && (ps != [] <==> nativeHintRow != 0 && nativeHintOnPrimary)
      ensures forall c :: DrawAll(c, ps) == if ps == [] then c else Canvas([Ink(1, Picture(model.emu.primary(model.history)))], 0)
    {
      hide DrawAll, Draw, Inert;
      if nativeHintRow == 0 || !nativeHintOnPrimary {
        forall c ensures DrawAll(c, []) == c {
          DrawNothing(c);
        }
        return [];
      }
      var d := model.emu.primary(model.history);
      RedrawSound(d);
      forall c ensures DrawAll(c, Redraw(d)) == Canvas([Ink(1, Picture(d))], 0) {
        RedrawInk(c, [0x30], d);
      }
      return Redraw(d);
    }

    method FinishIsolated(outcome: Outcome)
      requires Draws(model.emu) && SizesOk() && Ready(screen.state) && screen.state.t.scan == START
      requires OuterLook().modes.on * INPUT_MODES == {}
      requires !nativeEntered ==> CURSOR_VISIBLE in OuterLook().modes.on
      requires OuterLook().full == (rows == physicalRows) && presentation.IsolatedShown?
      modifies screen
      ensures Ready(screen.state) && screen.state.t.scan == START && !OuterLook().modes.alt
      ensures !outcome.Aborted? ==> Clean(OuterLook())
      ensures outcome.Aborted? ==> OuterLook() == old(OuterLook()).(modes := old(OuterLook()).modes.(alt := false))
      ensures screen.canvas.ink == Unhinted(old(screen.canvas.ink)) + IsolatedFarewell(outcome)
    {
      hide Show, Inert, Effects, Render, ModePieces, Elements, AllSound, Idle, DrawAll, FinalInk, Message;
      var hintCleanup := NativeHintCleanup();
      if hintCleanup != [] {
        LeaveAlternate();
        Say(hintCleanup);
      }
      match outcome {
        case SessionEnded => PrintFinalScreen(outcome);
        case Disconnected => PrintFinalScreen(outcome);
        case Detached => LeaveDetached();
        case Aborted => LeaveAlternate();
      }
    }

    /** Leaves the isolated screen behind, with the terminal as a native detach would. */
    method LeaveDetached()
      requires SizesOk() && Ready(screen.state) && screen.state.t.scan == START
      requires OuterLook().modes.on * INPUT_MODES == {}
      requires !nativeEntered ==> CURSOR_VISIBLE in OuterLook().modes.on
      requires OuterLook().full == (rows == physicalRows) && presentation.IsolatedShown?
      modifies screen
      ensures Ready(screen.state) && screen.state.t.scan == START && Clean(OuterLook())
      ensures screen.canvas.ink == old(screen.canvas.ink) + IsolatedFarewell(Detached)
    {
      hide Show, Effects, Render, DrawAll, Message;
      LeaveAlternate();
      if nativeEntered {
        Cleanup();
      } else if rows < physicalRows {
        ReleaseMargins();
      }
      SayNewline();
      Tell(Detached);
    }

    /** Reprints the session's last screen, and the outcome below it. */
    method PrintFinalScreen(outcome: Outcome)
      requires Draws(model.emu) && SizesOk() && Ready(screen.state) && screen.state.t.scan == START
      requires OuterLook().modes.on * INPUT_MODES == {}
      modifies screen
      ensures Ready(screen.state) && screen.state.t.scan == START && Clean(OuterLook())
      ensures screen.canvas.ink ==
              old(screen.canvas.ink) + FinalInk(cols, rows, physicalRows, model.emu.writtenRows(model.history),
                                                model.emu.screen(model.history), Message(outcome) + NEWLINE)
    {
      hide Show, Inert, Effects, Render, ModePieces, Elements, AllSound, Idle, DrawAll, Newlines, PositionInk, PositionRow, Message;
      FinalScreenSound(physicalRows);
      FinalScreenEffects(OuterLook(), physicalRows);
      FinalScreenDraws(screen.canvas, physicalRows);
      screen.Put(FinalScreenPieces(physicalRows));
      SayOne(Dump(model.emu.screen(model.history)));
      ShowCursor();
      SayPosition(cols, rows, physicalRows);
      Tell(outcome);
    }

    method SayNewline()
      requires Ready(screen.state) && AtGround(screen.state.t.scan)
      modifies screen
      ensures Ready(screen.state) && screen.state.t.scan == START && OuterLook() == old(OuterLook())
      ensures screen.canvas == Marked(old(screen.canvas), Line(NEWLINE))
    {
      hide Show, Effects, Render;
      SayOne(Text(NEWLINE));
    }

    method SayPosition(cols: nat, rows: nat, physicalRows: nat)
      requires physicalRows < 65536 && Ready(screen.state) && AtGround(screen.state.t.scan) && screen.canvas.row == 0
      modifies screen
      ensures Ready(screen.state) && screen.state.t.scan == START && OuterLook() == old(OuterLook())
      ensures var written := model.emu.writtenRows(model.history);
              screen.canvas == Canvas(old(screen.canvas).ink + PositionInk(cols, rows, physicalRows, written),
                                      PositionRow(cols, rows, physicalRows, written))
    {
      hide Show, Effects, Render, AllSound, Idle, PositionPieces, DrawAll, PositionInk, PositionRow;
      var written := model.emu.writtenRows(model.history);
      PositionSound(cols, rows, physicalRows, written);
      PositionDraws(screen.canvas, cols, rows, physicalRows, written);
      Say(PositionPieces(cols, rows, physicalRows, written));
    }

    method ShowCursor()
      requires Ready(screen.state)
      modifies screen
      ensures Ready(screen.state) && screen.state.t.scan == START && screen.canvas == old(screen.canvas)
      ensures OuterLook() == old(OuterLook()).(modes := SetMode(old(OuterLook()).modes, CURSOR_VISIBLE, true))
    {
      hide Show, Render, Effects, DrawAll;
      FixedSound();
      OneEffect(OuterLook(), Mode(CURSOR_VISIBLE, true), [RESET_PEN]);
      OneEffect(Effect(OuterLook(), Mode(CURSOR_VISIBLE, true)), RESET_PEN, []);
      DrawOne(screen.canvas, Mode(CURSOR_VISIBLE, true), [RESET_PEN]);
      DrawOne(screen.canvas, RESET_PEN, []);
      screen.Put([Mode(CURSOR_VISIBLE, true)] + [RESET_PEN]);
    }

    method LeaveAlternate()
      requires Ready(screen.state)
      modifies screen
      ensures Ready(screen.state) && screen.state.t.scan == START
      ensures OuterLook() == old(OuterLook()).(modes := old(OuterLook()).modes.(alt := false))
      ensures screen.canvas == Canvas(old(screen.canvas).ink + [Ink(0, Switched(false))], 0)
    {
      hide Show, Render, Effects, DrawAll;
      OneEffect(OuterLook(), Mode(ALT_SCREEN, false), []);
      DrawOne(screen.canvas, Mode(ALT_SCREEN, false), []);
      screen.Put([Mode(ALT_SCREEN, false)]);
    }

    method ReleaseMargins()
      requires Ready(screen.state) && screen.canvas.row == 0
      modifies screen
      ensures Ready(screen.state) && screen.state.t.scan == START && screen.canvas == old(screen.canvas)
      ensures OuterLook() == old(OuterLook()).(full := true)
    {
      hide Show, Render, Effects, DrawAll;
      var l := OuterLook();
      OneEffect(l, Cursor(true), [Margins(0)] + [Cursor(false)]);
      OneEffect(l, Margins(0), [Cursor(false)]);
      OneEffect(l.(full := true), Cursor(false), []);
      MarginsDrawNothing(screen.canvas);
      screen.Put([Cursor(true)] + ([Margins(0)] + [Cursor(false)]));
    }

    method Cleanup()
      requires Ready(screen.state)
      modifies screen
      ensures Ready(screen.state) && screen.state.t.scan == START
      ensures OuterLook() == Look(Modes(old(OuterLook()).modes.alt, old(OuterLook()).modes.on - INPUT_MODES + {CURSOR_VISIBLE}), true)
      ensures screen.canvas == Canvas(old(screen.canvas).ink, 0)
    {
      hide Show, Render, Effects, Inert, AllSound, Elements, ModePieces, DrawAll;
      CleanupSound();
      CleanupEffects(OuterLook());
      CleanupDraws(screen.canvas);
      screen.Put(NATIVE_CLEANUP);
    }

    method FinishNative(outcome: Outcome)
      requires Draws(model.emu) && SizesOk() && Ready(screen.state)
      requires if nativeEntered then OuterLook().modes.alt == model.Value().modes.alt else Untouched()
      modifies screen
      ensures Ready(screen.state) && screen.state.t.scan == START && Clean(OuterLook())
      ensures screen.canvas.ink ==
              if !nativeEntered then old(screen.canvas.ink) + OutcomeOnly(old(screen.canvas.row), outcome)
              else Unhinted(old(screen.canvas.ink) + if model.term.alt then [Ink(0, Switched(false))] else [])
                   + NativeFarewell(outcome)
    {
      hide Show, Inert, Effects, Render, ModePieces, Elements, AllSound, Idle, DrawAll, PositionInk, PositionRow;
      if !nativeEntered {
        if Message(outcome) != [] {
          SayNewline();
          Tell(outcome);
        }
        return;
      }
      WithdrawNative();
      if Message(outcome) != [] {
        if model.term.alt {
          SayPosition(0, 0, 0);
        } else {
          SayPosition(cols, rows, physicalRows);
        }
        Tell(outcome);
      }
    }

    /** Takes back what a native presentation put on the terminal, and leaves the session's output. */
    method WithdrawNative()
      requires Draws(model.emu) && Ready(screen.state) && OuterLook().modes.alt == model.Value().modes.alt
      modifies screen
      ensures Ready(screen.state) && screen.state.t.scan == START && Clean(OuterLook())
      ensures screen.canvas ==
              Canvas(Unhinted(old(screen.canvas.ink) + if model.term.alt then [Ink(0, Switched(false))] else []), 0)
    {
      hide Show, Inert, Effects, Render, ModePieces, Elements, AllSound, Idle, DrawAll;
      if model.term.alt {
        LeaveAlternate();
      }
      Cleanup();
      if showDetachInstructions {
        TitleTextSound();
        SayOne(POP_TITLE);
      }
      var hintCleanup := NativeHintCleanup();
      Say(hintCleanup);
    }

    /** The painter of the active view, if any, takes one of its steps. */
    method PainterStep()
      requires Valid()
      modifies view, screen
      ensures Valid() && screen.state.t.modes == old(screen.state.t.modes)
    {
      hide Show, Inert, Track;
      if view != null {
        view.Step();
      }
    }
  }

  // ---- whole attachments

  /** What reaches an attachment: frames of output, new physical sizes, and its painter's turns. */
  datatype Happening = Output(payload: bytes) | Resized(cols: nat, physicalRows: nat) | PainterTurn

  function Payloads(hs: seq<Happening>): bytes {
    if hs == [] then []
    else Payloads(hs[..|hs| - 1]) + if hs[|hs| - 1].Output? then hs[|hs| - 1].payload else []
  }

  /** Frames as the daemon sends them: the first one, and every snapshot, ends outside of sequences. */
  predicate AsSent(hs: seq<Happening>) {
    forall i :: 0 <= i < |hs| && hs[i].Output? && (Payloadless(hs[..i]) || SNAPSHOT_PREFIX <= hs[i].payload) ==>
      GroundAt(Payloads(hs[..i + 1]), |Payloads(hs[..i + 1])|)
  }

  predicate Payloadless(hs: seq<Happening>) {
    forall i :: 0 <= i < |hs| ==> !hs[i].Output?
  }

  predicate SizesFit(hs: seq<Happening>) {
    forall i :: 0 <= i < |hs| && hs[i].Resized? ==> hs[i].cols < 65536 && hs[i].physicalRows < 65536
  }

  /** What a run promises of the two terminals at each of its moments. */
  ghost predicate Presented(m: AttachModels)
    reads m, m.view, m.screen, m.model, m.model.term, m.model.term.scan
  {
    var shown, session := m.OuterLook().modes, m.model.Value();
    && (m.mode.Auto? ==> (shown.alt <==> m.presentation.IsolatedShown?))
    && (m.mode.Auto? && !m.presentation.PendingShown? ==> shown.alt == session.modes.alt)
    && (m.presentation.IsolatedShown? ==> shown.alt && shown.on * INPUT_MODES == {})
    && (m.presentation.NativeShown? && m.nativeEntered ==> shown == session.modes && Same(m.screen.state.t, session))
    && (m.presentation.PendingShown? ==> m.mode.Auto? && session == FRESH)
    && m.rows == (if m.presentation.IsolatedShown? && m.showDetachInstructions && m.physicalRows > 1
                  then m.physicalRows - 1 else m.physicalRows)
    && SizeOf(m.model.history) == (m.cols, m.rows)
    && (m.presentation.NativeShown? ==> m.LaidBut([]))
    && (m.presentation.IsolatedShown? ==>
          m.view != null && m.view.model == m.model && m.view.screen == m.screen && m.view.Fresh()
          && m.view.rows == m.rows && m.view.reserved == (m.rows < m.physicalRows))
  }

  /** Some frame has been presented. */
  predicate Begun(m: AttachModels)
    reads m
  {
    !m.presentation.PendingShown? && (m.presentation.NativeShown? ==> m.nativeEntered)
  }

  /** One happening, to an attachment in agreement. */
  method Happens(m: AttachModels, h: Happening)
    requires m.Valid()
    requires h.Resized? ==> h.cols < 65536 && h.physicalRows < 65536
    requires h.Output? && (!Begun(m) || SNAPSHOT_PREFIX <= h.payload) ==> AtGround(Wrote(m.model.Value(), h.payload).scan)
    modifies m, m.view, m.screen, m.model, m.model.term, m.model.term.scan
    ensures m.Valid() && (old(Begun(m)) || h.Output? ==> Begun(m))
    ensures m.model.Value() == if h.Output? then Wrote(old(m.model.Value()), h.payload) else old(m.model.Value())
    ensures FedTo(m.model.history) == old(FedTo(m.model.history)) + if h.Output? then h.payload else []
    ensures m.view != old(m.view) ==> m.view == null || fresh(m.view)
  {
    hide Show, Inert, Track, Same, Ready, SNAPSHOT_PREFIX;
    match h {
      case Output(payload) => var _ := m.ApplyOutput(payload);
      case Resized(cols, physicalRows) => var _ := m.ApplyResize(cols, physicalRows);
      case PainterTurn => m.PainterStep();
    }
  }

  /** Any error-free run: the terminals agree after it, hence after each of its steps. */
  method Attach(mode: AttachMode, showDetachInstructions: bool, emu: Emulator, hs: seq<Happening>) returns (m: AttachModels)
    requires Draws(emu) && AsSent(hs) && SizesFit(hs)
    ensures fresh(m) && fresh(m.screen) && (m.view == null || fresh(m.view))
    ensures m.Valid() && Presented(m) && m.mode == mode
    ensures m.model.Value() == Wrote(FRESH, Payloads(hs)) && FedTo(m.model.history) == Payloads(hs)
  {
    hide Show, Inert, Track, Same, Ready, SNAPSHOT_PREFIX, m.Valid, FedTo, Payloads, Begun;
    NothingPaid(hs);
    m := new AttachModels(mode, showDetachInstructions, emu);
    NothingTracked(FRESH, []);
    for i := 0 to |hs|
      invariant fresh(m) && fresh(m.screen) && fresh(m.model) && fresh(m.model.term) && fresh(m.model.term.scan)
      invariant m.view == null || fresh(m.view)
      invariant m.Valid() && m.mode == mode
      invariant m.model.Value() == Wrote(FRESH, Payloads(hs[..i])) && FedTo(m.model.history) == Payloads(hs[..i])
      invariant !Payloadless(hs[..i]) ==> Begun(m)
    {
      assert hs[..i + 1] == hs[..i] + [hs[i]];
      PayloadsSnoc(hs, i);
      if hs[i].Output? {
        WroteConcat(FRESH, Payloads(hs[..i]), hs[i].payload);
        FrameEndsAtGround(hs, i);
      }
      Happens(m, hs[i]);
    }
    assert hs[..|hs|] == hs;
    PresentedNow(m);
  }

  lemma PresentedNow(m: AttachModels)
    requires m.Valid()
    ensures Presented(m)
  {
  }

  lemma NothingPaid(hs: seq<Happening>)
    ensures Payloads(hs[..0]) == [] && Payloadless(hs[..0])
  {
  }

  lemma PayloadsSnoc(hs: seq<Happening>, i: nat)
    requires i < |hs|
    ensures Payloads(hs[..i + 1]) == if hs[i].Output? then Payloads(hs[..i]) + hs[i].payload else Payloads(hs[..i])
  {
    assert hs[..i + 1][..i] == hs[..i];
  }

  lemma FrameEndsAtGround(hs: seq<Happening>, i: nat)
    requires i < |hs| && hs[i].Output? && AsSent(hs)
    ensures Payloadless(hs[..i]) || SNAPSHOT_PREFIX <= hs[i].payload ==> AtGround(Wrote(FRESH, Payloads(hs[..i + 1])).scan)
  {
    hide Track, SNAPSHOT_PREFIX;
    var p := Payloads(hs[..i + 1]);
    TrackScans(FRESH, p, |p|);
  }

  /** Forwarded bytes stand behind what was there, on a screen that was prepared for them. */
  lemma ForwardLays(c: Canvas, entered: bool, rows: nat, payload: bytes, ink: seq<Ink>)
    requires ink == if entered then c.ink + [Ink(c.row, Raw(payload))]
                    else c.ink + [Ink(rows, Line(Newlines(rows))), Ink(1, Raw(payload))]
    ensures Base(ink) == Base(c.ink) && Rawed(ink) == Rawed(c.ink) + payload
    ensures Overlay(ink) == Overlay(c.ink) + if entered then [] else [Ink(rows, Line(Newlines(rows)))]
  {
    hide Base, Rawed, Overlay, Newlines;
    var mark := Raw(payload);
    if entered {
      OneMoreInk(c.ink, Ink(c.row, mark));
    } else {
      var scrolled := Ink(rows, Line(Newlines(rows)));
      assert ink == (c.ink + [scrolled]) + [Ink(1, mark)];
      OneMoreInk(c.ink, scrolled);
      OneMoreInk(c.ink + [scrolled], Ink(1, mark));
    }
  }

  /** A repaint leaves the rendering, and the hint if it is its turn. */
  lemma RepaintLays(ink: seq<Ink>, d: bytes, row: nat)
    ensures ink == [Ink(1, Picture(d))] ==> Base(ink) == [Ink(1, Picture(d))] && Rawed(ink) == [] && Overlay(ink) == []
    ensures ink == [Ink(1, Picture(d))] + HintInk(row) ==>
              Base(ink) == [Ink(1, Picture(d))] && Rawed(ink) == [] && Overlay(ink) == HintInk(row)
  {
    hide Base, Rawed, Overlay, HintInk;
    var picture := Ink(1, Picture(d));
    OneMoreInk([], picture);
    assert [] + [picture] == [picture];
    HintOverlays([picture], row);
  }

  /** Before the first toggle the forwarded bytes leave both terminals on the same screen. */
  lemma ForwardedBefore(t: Tracker, o: Tracker, p: bytes, before: nat, consumed: nat)
    requires Same(o, t) && before <= consumed <= |p|
    requires forall k :: 0 < k < consumed ==> !Toggles(t, p, k)
    requires before == consumed ==> consumed == 0 || !Toggles(t, p, consumed)
    ensures Same(Wrote(o, p[..before]), Track(t, p, before))
    ensures Wrote(o, p[..before]).modes.alt == t.modes.alt
    ensures o.modes.alt == t.modes.alt
  {
    hide Track, Toggles;
    SameTrack(o, t, p[..before], before);
    TrackPrefix(t, p[..before], p, before);
    AltUnchanged(t, p, before);
  }

  /** A toggle seen from the middle of a write is one of the write's. */
  lemma ToggleFrom(t: Tracker, p: bytes, at: nat, k: nat)
    requires at + k <= |p| && k > 0
    ensures Toggles(Track(t, p, at), p[at..], k) == Toggles(t, p, at + k)
  {
    hide Track;
    TrackFrom(t, p, at, k);
    TrackFrom(t, p, at, k - 1);
  }

  lemma {:induction false} AltUnchanged(t: Tracker, p: bytes, n: nat)
    requires n <= |p| && forall k :: 0 < k <= n ==> !Toggles(t, p, k)
    ensures Track(t, p, n).modes.alt == t.modes.alt
  {
    hide Feed;
    if n > 0 {
      assert !Toggles(t, p, n);
      AltUnchanged(t, p, n - 1);
    }
  }

  /** A toggle completes a sequence. */
  lemma ToggleEndsSequence(t: Tracker, p: bytes, n: nat)
    requires 0 < n <= |p| && Toggles(t, p, n)
    ensures AtGround(Track(t, p, n).scan)
  {
    hide Complete, Next;
  }

  /** A repaint gives the physical terminal the model's modes; in forced native mode also its screen. */
  lemma RepaintAgrees(mode: AttachMode, l: Look, m: Modes, primary: bytes, screen: bytes)
    requires l.modes.on <= TRACKED && m.on <= TRACKED
    ensures mode.Native? ==> Effects(l, SnapshotPieces(m.alt, primary, screen, m.on)) == Look(m, l.full)
    ensures Effects(l, RepaintPieces(screen, m.on)) == Look(Modes(l.modes.alt, m.on), l.full)
  {
    SnapshotEffects(l, m.alt, primary, screen, m.on);
    RepaintEffects(l, screen, m.on);
  }

  /**
   * A snapshot that stops inside a sequence is not recovered from: the repaint
   * cuts the sequence off on the physical terminal, where its end then is text.
   */
  lemma CutSequenceDiverges(l: Outer, rendering: bytes)
    requires Ready(l) && AtGround(l.t.scan) && Inert(rendering)
    ensures var cut, rest: bytes := [ESC, 0x5B, 0x3F, 0x31, 0x30], [0x30, 0x30, 0x68];
            var t := Wrote(FRESH, cut);
            var o := Show(l, Render(RepaintPieces(rendering, t.modes.on)));
            1000 in Wrote(t, rest).modes.on && 1000 !in Show(o, rest).t.modes.on
  {
    hide Show, Track, Effects, Render, Inert, RepaintPieces, AllSound;
    var cut, rest: bytes := [ESC, 0x5B, 0x3F, 0x31, 0x30], [0x30, 0x30, 0x68];
    var u := ModeSequence(1000, true);
    assert u == cut + rest by {
      assert Digits(1) == [0x31] && Digits(10) == [0x31, 0x30] && Digits(100) == [0x31, 0x30, 0x30];
    }
    var t := Wrote(FRESH, cut);
    WroteConcat(FRESH, cut, rest);
    WriteModeSequence(FRESH, 1000, true);
    assert t.modes == POWER_ON by {
      DigitsLength(1000);
      CsiIsControlSequence([0x3F] + Digits(1000), SET);
      DuringControlSequence(FRESH, u, 5);
      TrackPrefix(FRESH, cut, u, 5);
    }
    var ps := RepaintPieces(rendering, t.modes.on);
    RepaintSound(rendering, t.modes.on);
    RepaintEffects(LookOf(l), rendering, t.modes.on);
    ShowPieces(l, ps);
    TextPiece(Show(l, Render(ps)), rest);
  }
}
