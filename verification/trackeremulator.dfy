/**
 * The tracked part of a session's terminal, its active screen and modes, as an
 * emulator: it meets what the attach protocol asks of one, so for this part
 * nothing is left as a hypothesis but that renderings draw.
 */
module TrackerEmulator {
  import opened Bytes
  import opened VtScan
  import opened Tracker
  import opened OuterTerminal
  import opened ClientPieces
  import P = AttachProtocol

  /** The renderings of both screens, by whatever the emulator keeps of what it was given. */
  datatype Dumps = Dumps(primary: Tracker -> bytes, screen: Tracker -> bytes)

  ghost predicate Draw(d: Dumps) {
    forall t :: Inert(d.primary(t)) && Inert(d.screen(t))
  }

  /** Forgets a sequence that is over. */
  function Settled(t: Tracker): Tracker {
    if AtGround(t.scan) then t.(esc := []) else t
  }

  function WriteTo(t: Tracker, p: bytes): Tracker {
    Settled(Wrote(t, p))
  }

  /** A snapshot: both screens cleared and drawn, the switch to the active one, every tracked mode. */
  function Replay(d: Dumps, t: Tracker): bytes {
    Render(SnapshotPieces(t.modes.alt, d.primary(t), d.screen(t), t.modes.on))
  }

  predicate Rests(t: Tracker) {
    t.scan == START && t.esc == [] && t.modes.on <= TRACKED
  }

  function TrackedScreen(d: Dumps): P.Emulator<Tracker> {
    P.Emulator(FRESH, WriteTo, t => Replay(d, t), Rests)
  }

  lemma WritesSettle(t: Tracker, a: bytes, b: bytes)
    ensures WriteTo(WriteTo(t, a), b) == WriteTo(t, a + b)
  {
    hide Track;
    SameTrack(WriteTo(t, a), Wrote(t, a), b, |b|);
    WroteConcat(t, a, b);
  }

  lemma AlignedRests(a: bytes)
    requires Aligned(a)
    ensures Rests(WriteTo(FRESH, a))
  {
    hide Track;
    TrackScans(FRESH, a, |a|);
    TrackReady(FRESH, a, |a|);
  }

  lemma ReplayRestores(d: Dumps, s: Tracker, t: Tracker)
    requires Draw(d) && Rests(s) && Rests(t)
    ensures WriteTo(t, Replay(d, s)) == s
  {
    hide Track, SnapshotPieces, Render, Effects, Show, Inert, AllSound;
    var o := Outer(t, true);
    var primary, screen := d.primary(s), d.screen(s);
    var ps := SnapshotPieces(s.modes.alt, primary, screen, s.modes.on);
    SnapshotSound(s.modes.alt, primary, screen, s.modes.on);
    SnapshotEffects(LookOf(o), s.modes.alt, primary, screen, s.modes.on);
    ShowPieces(o, ps);
    ShowWrites(o, Render(ps));
  }

  lemma ShowWrites(o: Outer, p: bytes)
    ensures Show(o, p).t == Wrote(o.t, p)
  {
    ShowTracks(o, p, |p|);
  }

  /**
   * Replaying a snapshot restores screen and modes on any terminal that is
   * between sequences, whatever the renderings in it draw.
   */
  lemma TrackedScreenIsLawful(d: Dumps)
    requires Draw(d)
    ensures P.Lawful(TrackedScreen(d))
  {
    hide WriteTo, Replay, Rests, Aligned, Draw;
    var e := TrackedScreen(d);
    forall s, a, b ensures e.write(e.write(s, a), b) == e.write(s, a + b) {
      WritesSettle(s, a, b);
    }
    forall a | Aligned(a) ensures e.ground(e.write(e.init, a)) {
      AlignedRests(a);
    }
    forall s, t | e.ground(s) && e.ground(t) ensures e.write(t, e.snapshot(s)) == s {
      ReplayRestores(d, s, t);
    }
    FreshRests();
  }

  lemma FreshRests()
    ensures Rests(FRESH)
  {
  }

  /**
   * So what a client tracks after each frame it received is the session's
   * screen and modes at its position of the stream.
   */
  lemma ClientTracksThePast(d: Dumps, events: seq<P.Event>, to: P.Session, id: P.ClientId, k: nat)
    requires Draw(d) && P.Runs(P.START_SESSION, events, to)
    requires P.SnapshotsSucceed(events) && P.RendersAlignedButLast(events)
    requires id in to.clients && 1 <= k <= |to.clients[id].sent|
    requires P.SnapsAtGround(to.clients[id].sent[..k], to.rendered)
    ensures var sent := to.clients[id].sent;
            && 0 <= P.Position(sent[..k]) <= |to.rendered|
            && P.Shown(TrackedScreen(d), sent[..k], to.rendered).modes
               == Wrote(FRESH, to.rendered[..P.Position(sent[..k])]).modes
  {
    hide P.Runs, P.Shown, P.Position, P.Lawful, P.SnapsAtGround, Track, Draw;
    TrackedScreenIsLawful(d);
    P.ClientShowsThePast(TrackedScreen(d), events, to, id, k, k);
  }
}
