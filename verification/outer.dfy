/**
 * The terminal a client is attached from. It interprets the bytes written to
 * it with the same tracker as the session's own terminal, plus the scroll
 * region. What the client writes by itself is made of `Piece`s, each with its
 * bytes and its effect; the effects are proved of the bytes.
 */
module OuterTerminal {
  import opened Bytes
  import opened VtScan
  import opened Tracker

  /** What cleanup is about: screen, tracked modes, and whether scrolling covers the whole screen. */
  datatype Look = Look(modes: Modes, full: bool)

  datatype Outer = Outer(t: Tracker, full: bool)

  const POWERED := Outer(FRESH, true)

  function LookOf(o: Outer): Look { Look(o.t.modes, o.full) }

  const MARGINS: byte := 0x72

  /** `CSI r` releases the scroll region, with parameters it sets one; a full reset releases it. */
  function Region(full: bool, q: bytes): bool {
    if IsReset(q) then true
    else if IsMargins(q) then |q| == 3
    else full
  }

  predicate IsMargins(q: bytes) {
    && |q| >= 3 && q[..2] == [ESC, 0x5B] && q[|q| - 1] == MARGINS
    && forall k :: 2 <= k < |q| - 1 ==> Separated(q[k])
  }

  function OuterFeed(o: Outer, b: byte): Outer {
    Outer(Feed(o.t, b), if Ends(o.t, b) then Region(o.full, Collect(o.t, b)) else o.full)
  }

  function OuterTrack(o: Outer, p: bytes, n: nat): Outer
    requires n <= |p|
  {
    if n == 0 then o else OuterFeed(OuterTrack(o, p, n - 1), p[n - 1])
  }

  function Show(o: Outer, p: bytes): Outer {
    OuterTrack(o, p, |p|)
  }

  lemma {:induction false} OuterPrefix(o: Outer, p: bytes, q: bytes, n: nat)
    requires n <= |p| && n <= |q| && p[..n] == q[..n]
    ensures OuterTrack(o, p, n) == OuterTrack(o, q, n)
  {
    if n > 0 {
      assert p[..n - 1] == p[..n][..n - 1] == q[..n][..n - 1] == q[..n - 1];
      assert p[n - 1] == p[..n][n - 1] == q[..n][n - 1] == q[n - 1];
      OuterPrefix(o, p, q, n - 1);
    }
  }

  lemma {:induction false} OuterConcat(o: Outer, a: bytes, b: bytes, k: nat)
    requires k <= |b|
    ensures OuterTrack(o, a + b, |a| + k) == OuterTrack(Show(o, a), b, k)
  {
    hide OuterFeed;
    if k == 0 {
      assert (a + b)[..|a|] == a == a[..|a|];
      OuterPrefix(o, a + b, a, |a|);
    } else {
      OuterConcat(o, a, b, k - 1);
      assert (a + b)[|a| + k - 1] == b[k - 1];
    }
  }

  lemma ShowConcat(o: Outer, a: bytes, b: bytes)
    ensures Show(o, a + b) == Show(Show(o, a), b)
  {
    OuterConcat(o, a, b, |b|);
  }

  lemma {:induction false} ShowTracks(o: Outer, p: bytes, n: nat)
    requires n <= |p|
    ensures OuterTrack(o, p, n).t == Track(o.t, p, n)
  {
    hide Feed, Ends, Collect, Region;
    if n > 0 {
      ShowTracks(o, p, n - 1);
    }
  }

  // ---- two terminals fed the same bytes

  /** Equal but for the leftovers of a sequence that is over. */
  predicate Same(a: Tracker, b: Tracker) {
    a.scan == b.scan && a.modes == b.modes && (!AtGround(a.scan) ==> a.esc == b.esc)
  }

  lemma {:induction false} SameTrack(a: Tracker, b: Tracker, p: bytes, n: nat)
    requires n <= |p| && Same(a, b)
    ensures Same(Track(a, p, n), Track(b, p, n))
  {
    if n > 0 {
      SameTrack(a, b, p, n - 1);
      hide Next, Complete;
    }
  }

  predicate Ready(o: Outer) {
    Coherent(o.t.scan) && o.t.modes.on <= TRACKED
  }

  lemma CompleteTracked(m: Modes, q: bytes)
    requires m.on <= TRACKED
    ensures Complete(m, q).on <= TRACKED
  {
    if IsPrivateMode(q) {
      SetModesTracked(m, Params(q[3..|q| - 1]), q[|q| - 1] == SET);
    }
  }

  lemma {:induction false} SetModesTracked(m: Modes, params: seq<bytes>, on: bool)
    requires m.on <= TRACKED
    ensures SetModes(m, params, on).on <= TRACKED
  {
    if params != [] {
      SetModesTracked(m, params[..|params| - 1], on);
    }
  }

  lemma {:induction false} TrackReady(t: Tracker, p: bytes, n: nat)
    requires n <= |p| && Coherent(t.scan) && t.modes.on <= TRACKED
    ensures Coherent(Track(t, p, n).scan) && Track(t, p, n).modes.on <= TRACKED
  {
    TrackScans(t, p, n);
    StaysCoherent(t.scan, p, n);
    if n > 0 {
      TrackReady(t, p, n - 1);
      hide Next, Complete;
      var before := Track(t, p, n - 1);
      CompleteTracked(before.modes, Collect(before, p[n - 1]));
    }
  }

  // ---- pieces

  datatype Piece =
    | Mode(n: nat, on: bool)                  // CSI ? n h/l; 1049 switches the screen
    | Margins(rows: nat)                      // CSI 1 ; rows r, or CSI r for the whole screen
    | Control(params: bytes, final: byte)     // a control sequence without effect on the look
    | Move(row: nat)                          // CSI row ; 1 H
    | Cursor(save: bool)                      // ESC 7, ESC 8
    | Text(p: bytes)
    | Title(p: bytes)                         // OSC, ended by BEL
    | Dump(d: bytes)                          // a rendering by the emulator

  function PieceBytes(x: Piece): bytes {
    match x
    case Mode(n, on) => ModeSequence(n, on)
    case Margins(rows) => Csi(if rows == 0 then [] else [0x31, SEMICOLON] + Digits(rows), MARGINS)
    case Control(params, final) => Csi(params, final)
    case Move(row) => Csi(Digits(row) + [SEMICOLON, 0x31], 0x48)
    case Cursor(save) => [ESC, if save then 0x37 else 0x38]
    case Text(p) => p
    case Title(p) => [ESC, 0x5D] + p + [0x07]
    case Dump(d) => d
  }

  function Effect(l: Look, x: Piece): Look {
    match x
    case Mode(n, on) => l.(modes := SetMode(l.modes, n, on))
    case Margins(rows) => l.(full := rows == 0)
    case _ => l
  }

  function Render(ps: seq<Piece>): bytes {
    if ps == [] then [] else Render(ps[..|ps| - 1]) + PieceBytes(ps[|ps| - 1])
  }

  function Effects(l: Look, ps: seq<Piece>): Look {
    if ps == [] then l else Effect(Effects(l, ps[..|ps| - 1]), ps[|ps| - 1])
  }

  /** A rendering draws; from ground it changes neither screen, nor modes, nor scroll region. */
  ghost predicate Inert(d: bytes) {
    forall o: Outer {:trigger Show(o, d)} :: Ready(o) && AtGround(o.t.scan) ==>
      Show(o, d).t.scan == START && LookOf(Show(o, d)) == LookOf(o)
  }

  ghost predicate Sound(x: Piece) {
    match x
    case Mode(n, _) => n < 100000
    case Margins(rows) => rows < 100000
    case Control(params, final) =>
      && |params| <= 60 && Final(final) && final !in {SET, RESET, MARGINS}
      && forall k :: 0 <= k < |params| ==> Parameter(params[k])
    case Move(row) => row < 100000
    case Cursor(_) => true
    case Text(p) => Plain(p)
    case Title(p) => Plain(p) && forall i :: 0 <= i < |p| ==> p[i] !in {0x07, 0x18, 0x1A}
    case Dump(d) => Inert(d)
  }

  ghost predicate AllSound(ps: seq<Piece>) {
    forall i :: 0 <= i < |ps| ==> Sound(ps[i])
  }

  /** Begins with ESC, and so takes effect even if the terminal is inside a sequence or a rune. */
  predicate Restarts(x: Piece) {
    x.Mode? || x.Margins? || x.Control? || x.Move? || x.Cursor? || x.Title?
  }

  // ---- a control sequence on the outer terminal

  lemma {:induction false} DuringOuter(o: Outer, u: bytes, n: nat)
    requires Ready(o) && ControlSequence(u) && |u| <= MAX_SEQUENCE && n < |u|
    ensures OuterTrack(o, u, n).full == o.full
  {
    hide Next, Feed;
    if n > 0 {
      DuringOuter(o, u, n - 1);
      ControlSequenceStates(o.t.scan, u, n);
      ShowTracks(o, u, n - 1);
      TrackScans(o.t, u, n - 1);
      assert After(o.t.scan, u, n) == Next(After(o.t.scan, u, n - 1), u[n - 1]);
      Unended(OuterTrack(o, u, n - 1), u[n - 1]);
    }
  }

  lemma Unended(o: Outer, b: byte)
    requires !AtGround(Next(o.t.scan, b))
    ensures OuterFeed(o, b).full == o.full
  {
  }

  lemma ShowControlSequence(o: Outer, u: bytes)
    requires Ready(o) && ControlSequence(u) && |u| <= MAX_SEQUENCE
    ensures Show(o, u) == Outer(Tracker(START, u, Complete(o.t.modes, u)), Region(o.full, u))
  {
    hide Next, Complete, After;
    var n := |u| - 1;
    ControlSequenceIsIntroduced(u);
    WriteControlSequence(o.t, u);
    ShowTracks(o, u, |u|);
    ShowTracks(o, u, n);
    DuringOuter(o, u, n);
    ControlSequenceStates(o.t.scan, u, n);
    TrackScans(o.t, u, n);
    DuringControlSequence(o.t, u, n);
    hide Feed;
    assert u[..n] + [u[n]] == u;
    assert Ends(Track(o.t, u, n), u[n]);
  }

  // ---- what each piece does

  lemma ShowMode(o: Outer, n: nat, on: bool)
    requires Ready(o) && n < 100000
    ensures var w := Show(o, ModeSequence(n, on));
            w.t.scan == START && LookOf(w) == Effect(LookOf(o), Mode(n, on))
  {
    var u := ModeSequence(n, on);
    DigitsLength(n);
    CsiIsControlSequence([0x3F] + Digits(n), if on then SET else RESET);
    ShowControlSequence(o, u);
    WriteModeSequence(o.t, n, on);
    ShowTracks(o, u, |u|);
  }

  lemma ShowMargins(o: Outer, rows: nat)
    requires Ready(o) && rows < 100000
    ensures var w := Show(o, PieceBytes(Margins(rows)));
            w.t.scan == START && LookOf(w) == Effect(LookOf(o), Margins(rows))
  {
    var params: bytes := if rows == 0 then [] else [0x31, SEMICOLON] + Digits(rows);
    var u := Csi(params, MARGINS);
    DigitsLength(rows);
    CsiIsControlSequence(params, MARGINS);
    ShowControlSequence(o, u);
    assert u[..2] == [ESC, 0x5B];
    assert forall k :: 2 <= k < |u| - 1 ==> u[k] == params[k - 2];
    assert IsMargins(u) && !IsPrivateMode(u) && !IsReset(u);
  }

  lemma ShowControl(o: Outer, params: bytes, final: byte)
    requires Ready(o) && Sound(Control(params, final))
    ensures var w := Show(o, Csi(params, final));
            w.t.scan == START && LookOf(w) == LookOf(o)
  {
    var u := Csi(params, final);
    CsiIsControlSequence(params, final);
    ShowControlSequence(o, u);
    assert !IsMargins(u) && !IsPrivateMode(u) && !IsReset(u);
  }

  lemma ShowMove(o: Outer, row: nat)
    requires Ready(o) && row < 100000
    ensures var w := Show(o, PieceBytes(Move(row)));
            w.t.scan == START && LookOf(w) == LookOf(o)
  {
    DigitsLength(row);
    assert forall b: byte :: Digit(b) ==> Parameter(b);
    ShowControl(o, Digits(row) + [SEMICOLON, 0x31], 0x48);
  }

  /** A byte that ends nothing that is inspected. */
  lemma HarmlessByte(o: Outer, b: byte)
    requires Ready(o)
    requires Ends(o.t, b) ==> var q := Collect(o.t, b); !IsReset(q) && !IsPrivateMode(q) && !IsMargins(q)
    ensures LookOf(OuterFeed(o, b)) == LookOf(o)
  {
  }

  lemma ShowCursor(o: Outer, save: bool)
    requires Ready(o)
    ensures var w := Show(o, PieceBytes(Cursor(save)));
            w.t.scan == START && LookOf(w) == LookOf(o)
  {
    var u := PieceBytes(Cursor(save));
    TrackEsc(o.t, u);
    var e := OuterTrack(o, u, 1);
    ShowTracks(o, u, 1);
    assert OuterTrack(o, u, 0) == o;
    HarmlessByte(o, ESC);
    assert Collect(e.t, u[1]) == [ESC, u[1]];
    HarmlessByte(e, u[1]);
    assert Show(o, u) == OuterFeed(e, u[1]);
  }

  lemma {:induction false} ShowText(o: Outer, p: bytes, n: nat)
    requires Ready(o) && AtGround(o.t.scan) && Plain(p) && n <= |p|
    ensures var w := OuterTrack(o, p, n);
            w.t.scan == START && LookOf(w) == LookOf(o)
  {
    if n > 0 {
      ShowText(o, p, n - 1);
      HarmlessByte(OuterTrack(o, p, n - 1), p[n - 1]);
    }
  }

  lemma {:induction false} DuringTitle(o: Outer, p: bytes, n: nat)
    requires Ready(o) && Sound(Title(p)) && 2 <= n <= |p| + 2
    ensures var w := OuterTrack(o, PieceBytes(Title(p)), n);
            && w.t.scan == Scan(OscString, 0) && LookOf(w) == LookOf(o)
            && |w.t.esc| >= 2 && w.t.esc[..2] == [ESC, 0x5D]
  {
    var u := PieceBytes(Title(p));
    if n == 2 {
      TitleBegins(o, u);
    } else {
      hide OuterFeed, PieceBytes, Sound;
      DuringTitle(o, p, n - 1);
      TitlePayload(p, n - 3);
      InTitle(OuterTrack(o, u, n - 1), u[n - 1]);
    }
  }

  lemma TitlePayload(p: bytes, i: nat)
    requires Sound(Title(p)) && i < |p|
    ensures i + 2 < |PieceBytes(Title(p))| && PieceBytes(Title(p))[i + 2] == p[i] && p[i] !in {0x07, 0x18, 0x1A, ESC}
  {
  }

  lemma TitleBegins(o: Outer, u: bytes)
    requires Ready(o) && |u| >= 2 && u[0] == ESC && u[1] == 0x5D
    ensures var w := OuterTrack(o, u, 2);
            && w.t.scan == Scan(OscString, 0) && LookOf(w) == LookOf(o)
            && |w.t.esc| >= 2 && w.t.esc[..2] == [ESC, 0x5D]
  {
    TrackEsc(o.t, u);
    ShowTracks(o, u, 1);
    ShowTracks(o, u, 2);
    assert OuterTrack(o, u, 0) == o;
    HarmlessByte(o, ESC);
    HarmlessByte(OuterTrack(o, u, 1), u[1]);
  }

  lemma InTitle(o: Outer, b: byte)
    requires o.t.scan == Scan(OscString, 0) && b !in {0x07, 0x18, 0x1A, ESC}
    requires |o.t.esc| >= 2 && o.t.esc[..2] == [ESC, 0x5D]
    ensures var w := OuterFeed(o, b);
            && w.t.scan == Scan(OscString, 0) && LookOf(w) == LookOf(o)
            && |w.t.esc| >= 2 && w.t.esc[..2] == [ESC, 0x5D]
  {
    assert !Ends(o.t, b);
  }

  lemma NotInspected(q: bytes)
    requires |q| >= 2 && q[1] == 0x5D
    ensures !IsReset(q) && !IsPrivateMode(q) && !IsMargins(q)
  {
    assert q[..2][1] == 0x5D;
    assert |q| >= 3 ==> q[..3][1] == 0x5D;
  }

  lemma ShowTitle(o: Outer, p: bytes)
    requires Ready(o) && Sound(Title(p))
    ensures var w := Show(o, PieceBytes(Title(p)));
            w.t.scan == START && LookOf(w) == LookOf(o)
  {
    hide Next, Complete, Region, Feed, IsReset, IsPrivateMode, IsMargins;
    var u := PieceBytes(Title(p));
    var n := |p| + 2;
    DuringTitle(o, p, n);
    var e := OuterTrack(o, u, n);
    var q := Collect(e.t, 0x07);
    assert q[..2] == e.t.esc[..2];
    assert q[1] == q[..2][1] == 0x5D;
    NotInspected(q);
    HarmlessByte(e, 0x07);
    BellEnds(e);
  }

  lemma BellEnds(o: Outer)
    requires o.t.scan == Scan(OscString, 0)
    ensures OuterFeed(o, 0x07).t.scan == START
  {
  }

  /** Each piece's bytes have its effect: from any state if it begins with ESC, else from ground. */
  lemma ShowPiece(o: Outer, x: Piece)
    requires Ready(o) && Sound(x) && (AtGround(o.t.scan) || Restarts(x))
    ensures var w := Show(o, PieceBytes(x));
            Ready(w) && w.t.scan == START && LookOf(w) == Effect(LookOf(o), x)
  {
    hide Show, ModeSequence, Csi;
    match x
    case Mode(n, on) => ShowMode(o, n, on);
    case Margins(rows) => ShowMargins(o, rows);
    case Control(params, final) => ShowControl(o, params, final);
    case Move(row) => ShowMove(o, row);
    case Cursor(save) => ShowCursor(o, save);
    case Text(p) => TextPiece(o, p);
    case Title(p) => ShowTitle(o, p);
    case Dump(d) => DumpPiece(o, d);
  }

  lemma TextPiece(o: Outer, p: bytes)
    requires Ready(o) && AtGround(o.t.scan) && Plain(p)
    ensures Show(o, p).t.scan == START && LookOf(Show(o, p)) == LookOf(o)
  {
    ShowText(o, p, |p|);
  }

  lemma DumpPiece(o: Outer, d: bytes)
    requires Ready(o) && AtGround(o.t.scan) && Inert(d)
    ensures Show(o, d).t.scan == START && LookOf(Show(o, d)) == LookOf(o)
  {
  }

  /** A list of pieces that starts at ground, or with ESC, has exactly the effects of its pieces. */
  lemma {:induction false} ShowPieces(o: Outer, ps: seq<Piece>)
    requires Ready(o) && AllSound(ps) && (AtGround(o.t.scan) || (ps != [] && Restarts(ps[0])))
    ensures var w := Show(o, Render(ps));
            Ready(w) && w.t.scan == START && LookOf(w) == Effects(LookOf(o), ps)
  {
    if ps != [] {
      hide Show, PieceBytes;
      var rest, x := ps[..|ps| - 1], ps[|ps| - 1];
      if rest != [] || AtGround(o.t.scan) {
        ShowPieces(o, rest);
      }
      if rest == [] {
        NothingShown(o);
      }
      ShowConcat(o, Render(rest), PieceBytes(x));
      ShowPiece(Show(o, Render(rest)), x);
    }
  }

  lemma NothingShown(o: Outer)
    ensures Show(o, []) == o
  {
  }

  lemma {:induction false} EffectsConcat(l: Look, a: seq<Piece>, b: seq<Piece>)
    ensures Effects(l, a + b) == Effects(Effects(l, a), b)
  {
    if b == [] {
      assert a + b == a;
    } else {
      assert (a + b)[..|a + b| - 1] == a + b[..|b| - 1];
      EffectsConcat(l, a, b[..|b| - 1]);
    }
  }
}
