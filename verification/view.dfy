/**
 * The client's copy of the session terminal, its own physical terminal, and
 * the view that paints the one onto the other. The painter runs on its own:
 * it takes the wake token, reads the size, renders, and writes, and anything
 * may happen between these steps. The one-slot token never loses an update.
 */
module View {
  import opened Bytes
  import opened VtScan
  import opened Tracker
  import opened OuterTerminal
  import opened ClientPieces
  import opened Canvas

  /** What the emulator has been given so far. */
  datatype Op = Fed(p: bytes) | Resized(cols: nat, rows: nat)

  /** The size the emulator has been left at. */
  function SizeOf(h: seq<Op>): (nat, nat) {
    if h == [] then (80, 24)
    else match h[|h| - 1]
      case Resized(cols, rows) => (cols, rows)
      case Fed(_) => SizeOf(h[..|h| - 1])
  }

  /** The session bytes it has been given. */
  function FedTo(h: seq<Op>): bytes {
    if h == [] then [] else FedTo(h[..|h| - 1]) + if h[|h| - 1].Fed? then h[|h| - 1].p else []
  }

  lemma OneOpMore(h: seq<Op>, op: Op)
    ensures SizeOf(h + [op]) == if op.Resized? then (op.cols, op.rows) else SizeOf(h)
    ensures FedTo(h + [op]) == if op.Fed? then FedTo(h) + op.p else FedTo(h)
  {
    assert (h + [op])[..|h|] == h;
  }

  /** The emulator's renderings, as functions of what it was given. */
  datatype Emulator = Emulator(
    screen: seq<Op> -> bytes,
    primary: seq<Op> -> bytes,
    writtenRows: seq<Op> -> nat)

  /** Renderings draw; they never switch screens or modes, set margins, or stop inside a sequence. */
  ghost predicate Draws(e: Emulator) {
    forall h :: Inert(e.screen(h)) && Inert(e.primary(h)) && e.writtenRows(h) < 65535
  }

  class Model {
    const term: Terminal
    const emu: Emulator
    var history: seq<Op>

    function Value(): Tracker
      reads this, term, term.scan
    {
      term.Value()
    }

    constructor (emu: Emulator)
      ensures Value() == FRESH && history == [] && this.emu == emu && fresh(term) && fresh(term.scan)
    {
      this.emu, history := emu, [];
      term := new Terminal();
    }

    method Write(p: bytes)
      modifies this, term, term.scan
      ensures Value() == Wrote(old(Value()), p)
      ensures history == old(history) + [Fed(p)]
    {
      term.Write(p);
      history := history + [Fed(p)];
    }

    method WriteUntilScreenSwitch(p: bytes) returns (before: nat, consumed: nat, switched: bool)
      modifies this, term, term.scan
      ensures before <= consumed <= |p|
      ensures Value() == Track(old(Value()), p, consumed)
      ensures history == old(history) + [Fed(p[..consumed])]
      ensures forall k :: 0 < k < consumed ==> !Toggles(old(Value()), p, k)
      ensures switched ==> consumed > 0 && Toggles(old(Value()), p, consumed)
      ensures switched ==> before == SequenceStart(old(Value().scan), p, consumed)
      ensures !switched ==> before == consumed == |p|
      ensures !switched ==> forall k :: 0 < k <= |p| ==> !Toggles(old(Value()), p, k)
    {
      before, consumed, switched := term.WriteUntilScreenSwitch(p);
      history := history + [Fed(p[..consumed])];
    }

    method Resize(cols: nat, rows: nat)
      modifies `history
      ensures history == old(history) + [Resized(cols, rows)]
    {
      history := history + [Resized(cols, rows)];
    }
  }

  /** The physical terminal. */
  class Screen {
    var state: Outer
    /** What was drawn on it since it was last erased. */
    ghost var canvas: Canvas

    constructor ()
      ensures state == POWERED && canvas == BARE
    {
      state, canvas := POWERED, BARE;
    }

    /** Writes sequences of the client's own. */
    method Put(ps: seq<Piece>)
      requires Ready(state) && AllSound(ps)
      requires AtGround(state.t.scan) || (ps != [] && Restarts(ps[0]))
      modifies this
      ensures state == Show(old(state), Render(ps))
      ensures Ready(state) && state.t.scan == START && LookOf(state) == Effects(old(LookOf(state)), ps)
      ensures canvas == DrawAll(old(canvas), ps)
    {
      ShowPieces(state, ps);
      state := Show(state, Render(ps));
      canvas := DrawAll(canvas, ps);
    }

    /** Forwards session bytes. */
    method Forward(p: bytes)
      requires Ready(state)
      modifies this
      ensures state == Show(old(state), p)
      ensures Ready(state) && state.t == Wrote(old(state.t), p)
      ensures canvas == Marked(old(canvas), Raw(p))
    {
      ShowTracks(state, p, |p|);
      TrackReady(state.t, p, |p|);
      state := Show(state, p);
      canvas := Marked(canvas, Raw(p));
    }
  }

  datatype Painter =
    | Waiting
    | Taken
    | Sized(rows: nat, reserved: bool)
    | Holding(rows: nat, reserved: bool, history: seq<Op>)

  class AttachView {
    const screen: Screen
    const model: Model
    var rows: nat
    var reserved: bool
    var closed: bool
    var wake: bool
    var painter: Painter

    /** What is on the screen, or on its way there, is current; otherwise the token is set. */
    ghost predicate Fresh()
      reads this, model`history, screen
    {
      wake ||
      match painter
      case Taken => true
      case Sized(r, v) => r == rows && v == reserved
      case Holding(r, v, h) => r == rows && v == reserved && h == model.history
      case Waiting => Current()
    }

    /** The screen shows the latest state at the latest size: its rendering, from the top of a cleared screen, and the hint. */
    ghost predicate Current()
      reads this, model`history, screen
    {
      screen.canvas.ink == Shot(model.emu.screen(model.history), rows, reserved) && screen.state.full == !reserved
    }

    predicate SizeOk(rows: nat, reserved: bool) {
      rows < 65536 && (reserved ==> rows > 0)
    }

    ghost predicate Steady()
      reads this, screen
    {
      && Draws(model.emu)
      && Ready(screen.state) && screen.state.t.scan == START
      && SizeOk(rows, reserved)
      && (painter.Sized? || painter.Holding? ==> SizeOk(painter.rows, painter.reserved))
    }

    ghost predicate Valid()
      reads this, model`history, screen
    {
      Steady() && Fresh()
    }

    constructor (screen: Screen, model: Model, rows: nat, reserved: bool)
      requires Draws(model.emu) && Ready(screen.state) && screen.state.t.scan == START
      requires rows < 65536 && (reserved ==> rows > 0)
      ensures Valid() && !closed && this.screen == screen && this.model == model
      ensures this.rows == rows && this.reserved == reserved
    {
      this.screen, this.model, this.rows, this.reserved := screen, model, rows, reserved;
      closed, wake, painter := false, true, Waiting;
    }

    method MarkDirty()
      modifies `wake
      ensures wake
    {
      wake := true;
    }

    method SetSize(rows: nat, reserved: bool)
      requires SizeOk(rows, reserved)
      modifies `rows, `reserved, `wake
      ensures this.rows == rows && this.reserved == reserved && wake
    {
      this.rows, this.reserved := rows, reserved;
      MarkDirty();
    }

    /** One step of the painter, if it has one; only the last of them touches the screen, and only its margins. */
    method Step()
      requires Steady()
      modifies `wake, `painter, screen
      ensures Steady() && (old(Fresh()) ==> Fresh())
      ensures screen.state.t.modes == old(screen.state.t.modes)
      ensures match old(painter)
              case Waiting => painter == (if old(wake) then Taken else Waiting) && !wake
              case Taken => painter == Sized(rows, reserved) && wake == old(wake)
              case Sized(r, v) => painter == Holding(r, v, model.history) && wake == old(wake)
              case Holding(r, v, h) =>
                && painter == Waiting && wake == old(wake)
                && screen.canvas.ink == Shot(model.emu.screen(h), r, v) && screen.state.full == !v
      ensures !old(painter.Holding?) ==> screen.state == old(screen.state) && screen.canvas == old(screen.canvas)
    {
      match painter {
        case Waiting =>
          if wake {
            wake, painter := false, Taken;
          }
        case Taken =>
          painter := Sized(rows, reserved);
        case Sized(r, v) =>
          painter := Holding(r, v, model.history);
        case Holding(r, v, h) =>
          Paint(r, v, h);
          painter := Waiting;
      }
    }

    method Paint(r: nat, v: bool, h: seq<Op>)
      requires Draws(model.emu) && SizeOk(r, v) && Ready(screen.state) && screen.state.t.scan == START
      modifies screen
      ensures Ready(screen.state) && screen.state.t.scan == START
      ensures screen.state.t.modes == old(screen.state.t.modes) && screen.state.full == !v
      ensures screen.canvas.ink == Shot(model.emu.screen(h), r, v)
    {
      var d := model.emu.screen(h);
      PaintSound(r, v, d);
      PaintEffects(LookOf(screen.state), r, v, d);
      PaintDraws(screen.canvas, r, v, d);
      screen.Put(PaintPieces(r, v, d));
    }

    function Distance(p: Painter): nat {
      match p
      case Waiting => 0
      case Taken => 3
      case Sized(_, _) => 2
      case Holding(_, _, _) => 1
    }

    /**
     * Stops painting: waits for a paint in flight (the painter may still pick
     * up one more, if its choice falls that way), then flushes one that is
     * pending. If nothing was left unannounced, the screen then shows the
     * latest state at the latest size.
     */
    method Close()
      requires Steady()
      modifies `closed, `wake, `painter, screen
      ensures closed
      ensures Ready(screen.state) && screen.state.t.scan == START
      ensures screen.state.t.modes == old(screen.state.t.modes)
      ensures old(!closed && Fresh()) ==> Current()
      ensures old(closed) ==> screen.state == old(screen.state) && screen.canvas == old(screen.canvas)
    {
      if closed {
        return;
      }
      closed := true;
      Finish();
      if * {
        Step();
        Finish();
      }
      if wake {
        wake := false;
        Paint(rows, reserved, model.history);
      }
    }

    /** Left alone, the painter catches up. */
    method Settle()
      requires Steady()
      modifies `wake, `painter, screen
      ensures Steady() && painter.Waiting? && !wake && (old(Fresh()) ==> Current())
      ensures screen.state.t.modes == old(screen.state.t.modes)
    {
      while wake || !painter.Waiting?
        invariant Steady() && (old(Fresh()) ==> Fresh())
        invariant screen.state.t.modes == old(screen.state.t.modes)
        decreases wake, Distance(painter)
      {
        Step();
      }
    }

    /** Runs the painter until it waits. */
    method Finish()
      requires Steady()
      modifies `wake, `painter, screen
      ensures Steady() && painter.Waiting? && (old(Fresh()) ==> Fresh())
      ensures screen.state.t.modes == old(screen.state.t.modes)
    {
      while !painter.Waiting?
        invariant Steady() && (old(Fresh()) ==> Fresh())
        invariant screen.state.t.modes == old(screen.state.t.modes)
        decreases Distance(painter)
      {
        Step();
      }
    }
  }
}
