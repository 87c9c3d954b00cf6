/**
 * The daemon's attach protocol. The output pump, the per-client writers, joins,
 * detaches and the session-end broadcast interleave freely; each step below is
 * one region the program runs under a lock, with fanout delivering to one
 * client at a time. Stream positions make tiling exact: a snapshot stands for
 * the rendering of everything up to its position.
 */
module AttachProtocol {
  import opened Bytes
  import opened VtScan

  /** The per-client output backlog bound. */
  const QUEUE: nat := 1024

  type ClientId = nat

  /** What a writer puts on the wire: a snapshot of the stream so far, a run of it, or a control frame. */
  datatype Item = Snap(pos: nat) | Out(payload: bytes) | Size | Ended

  datatype Option<T> = None | Some(value: T)

  /** The fields a client's lock guards. */
  datatype Queue = Queue(buf: seq<Item>, pendingSnapshot: Option<nat>, closed: bool)

  datatype Writer = Ready | Sending(item: Item) | Closed | Failed(item: Item) | Finished

  datatype Client = Client(
    q: Queue,
    writer: Writer,
    sent: seq<Item>,     // received whole by the client
    fanned: nat,         // how far the stream has been fanned out to it
    gap: bool,           // a failed snapshot dropped bytes and no later one has repaired it
    clean: bool,         // no snapshot has ever failed
    sizeAsked: bool,
    endQueued: bool)

  datatype Pump =
    | Idle
    | Written(data: bytes)                           // rendered, clients not yet captured; outMu held
    | Fanning(data: bytes, targets: set<ClientId>)   // outMu held
    | Stopped

  datatype Session = Session(
    rendered: bytes,
    aligned: bool,                    // every block rendered so far ended at ground
    clients: map<ClientId, Client>,   // everyone that ever joined
    attachers: set<ClientId>,
    pump: Pump,
    ending: Option<set<ClientId>>)    // captured by the end broadcast, not yet told

  datatype Event =
    | Render(data: bytes)
    | Capture
    | Deliver(id: ClientId, snapshotOk: bool)
    | FanoutDone
    | StopPump
    | Join(id: ClientId)
    | AskSize(id: ClientId)
    | Take(id: ClientId)
    | Wrote(id: ClientId)
    | WriteFailed(id: ClientId)
    | Detach(id: ClientId)
    | SignalClose(id: ClientId)
    | CaptureEnding
    | DeliverEnded(id: ClientId)

  const START_SESSION := Session([], true, map[], {}, Idle, None)

  // ---- steps of one client's queue and writer

  function Enqueue(q: Queue, item: Item): Queue {
    q.(buf := q.buf + [item])
  }

  /** Output for a client: appended, or, on overflow, replaced with the backlog by a snapshot. */
  function Offer(q: Queue, data: bytes, pos: nat, snapshotOk: bool): Queue {
    if |q.buf| < QUEUE then Enqueue(q, Out(data))
    else if snapshotOk then q.(buf := [], pendingSnapshot := Some(pos))
    else q
  }

  function Close(q: Queue): Queue {
    q.(closed := true)
  }

  /** The writer has something to do. */
  predicate Wakes(q: Queue) {
    q.closed || q.pendingSnapshot.Some? || |q.buf| > 0
  }

  /** The writer's next item, snapshots first; a closed queue yields none. */
  function Dequeue(q: Queue): (r: (Queue, Option<Item>))
    requires Wakes(q)
  {
    if q.closed then (q, None)
    else if q.pendingSnapshot.Some? then (q.(pendingSnapshot := None), Some(Snap(q.pendingSnapshot.value)))
    else (q.(buf := q.buf[1..]), Some(q.buf[0]))
  }

  function ClientDeliver(c: Client, data: bytes, pos: nat, snapshotOk: bool): Client {
    var dropped := |c.q.buf| >= QUEUE && !snapshotOk;
    c.(q := Offer(c.q, data, pos, snapshotOk),
       fanned := c.fanned + |data|,
       gap := if |c.q.buf| < QUEUE then c.gap else dropped,
       clean := c.clean && !dropped)
  }

  function ClientTake(c: Client): Client
    requires Wakes(c.q)
  {
    var (q, item) := Dequeue(c.q);
    c.(q := q, writer := if item.None? then Closed else Sending(item.value))
  }

  function ClientWrote(c: Client): Client
    requires c.writer.Sending?
  {
    c.(sent := c.sent + [c.writer.item], writer := if c.writer.item.Ended? then Finished else Ready)
  }

  /** A step of one client's writer, or the signal that tells it to stop. */
  function WriterStep(c: Client, e: Event): Client
    requires e.Take? ==> Wakes(c.q)
    requires e.Wrote? || e.WriteFailed? ==> c.writer.Sending?
    requires e.Take? || e.Wrote? || e.WriteFailed? || e.SignalClose?
  {
    match e
    case Take(_) => ClientTake(c)
    case Wrote(_) => ClientWrote(c)
    case WriteFailed(_) => c.(writer := Failed(c.writer.item))
    case SignalClose(_) => c.(q := Close(c.q))
  }

  // ---- the transition system

  predicate Enabled(s: Session, e: Event) {
    match e
    case Render(_) => s.pump.Idle?
    case Capture => s.pump.Written?
    case Deliver(id, _) => s.pump.Fanning? && id in s.pump.targets && id in s.clients
    case FanoutDone => s.pump.Fanning? && s.pump.targets == {}
    case StopPump => s.pump.Idle?
    case Join(id) => id !in s.clients && (s.pump.Idle? || s.pump.Stopped?)
    case AskSize(id) => id in s.clients && !s.clients[id].sizeAsked
    case Take(id) => id in s.clients && s.clients[id].writer.Ready? && Wakes(s.clients[id].q)
    case Wrote(id) => id in s.clients && s.clients[id].writer.Sending?
    case WriteFailed(id) => id in s.clients && s.clients[id].writer.Sending?
    case Detach(id) => id in s.attachers
    case SignalClose(id) => id in s.clients && id !in s.attachers
    case CaptureEnding => s.pump.Stopped? && s.ending.None?
    case DeliverEnded(id) => s.ending.Some? && id in s.ending.value && id in s.clients
  }

  function SetClient(s: Session, id: ClientId, c: Client): Session {
    s.(clients := s.clients[id := c])
  }

  function Apply(s: Session, e: Event): Session
    requires Enabled(s, e)
  {
    match e
    case Render(data) =>
      s.(rendered := s.rendered + data, aligned := s.aligned && Aligned(data), pump := Written(data))
    case Capture =>
      s.(pump := if s.attachers == {} then Idle else Fanning(s.pump.data, s.attachers))
    case Deliver(id, ok) =>
      SetClient(s, id, ClientDeliver(s.clients[id], s.pump.data, |s.rendered|, ok))
      .(pump := Fanning(s.pump.data, s.pump.targets - {id}))
    case FanoutDone => s.(pump := Idle)
    case StopPump => s.(pump := Stopped)
    case Join(id) =>
      SetClient(s, id, Client(Queue([], None, false), Sending(Snap(|s.rendered|)), [], |s.rendered|, false, true, false, false))
      .(attachers := s.attachers + {id})
    case AskSize(id) =>
      var c := s.clients[id];
      SetClient(s, id, c.(q := Enqueue(c.q, Size), sizeAsked := true))
    case Take(id) => SetClient(s, id, WriterStep(s.clients[id], e))
    case Wrote(id) => SetClient(s, id, WriterStep(s.clients[id], e))
    case WriteFailed(id) => SetClient(s, id, WriterStep(s.clients[id], e))
    case SignalClose(id) => SetClient(s, id, WriterStep(s.clients[id], e))
    case Detach(id) => s.(attachers := s.attachers - {id})
    case CaptureEnding => s.(ending := Some(s.attachers))
    case DeliverEnded(id) =>
      var c := s.clients[id];
      SetClient(s, id, c.(q := Enqueue(c.q, Ended), endQueued := true)).(ending := Some(s.ending.value - {id}))
  }

  /** `to` is reached from `from` by these events, in order, each enabled when it happens. */
  ghost predicate Runs(from: Session, events: seq<Event>, to: Session) {
    if events == [] then from == to
    else
      var n := |events| - 1;
      exists mid :: Runs(from, events[..n], mid) && Enabled(mid, events[n]) && to == Apply(mid, events[n])
  }

  // ---- positions and tiling

  /** Everything a client was, is being, or is still to be sent, in wire order. */
  function All(c: Client): seq<Item> {
    c.sent + InFlight(c.writer) + PendingItem(c.q.pendingSnapshot) + c.q.buf
  }

  function InFlight(w: Writer): seq<Item> {
    match w
    case Sending(item) => [item]
    case Failed(item) => [item]
    case _ => []
  }

  function PendingItem(p: Option<nat>): seq<Item> {
    if p.Some? then [Snap(p.value)] else []
  }

  /** The stream position a receiver of `items` stands at; -1 before its first snapshot. */
  function Position(items: seq<Item>): int {
    if items == [] then -1
    else
      var before := Position(items[..|items| - 1]);
      match items[|items| - 1]
      case Snap(p) => p
      case Out(d) => before + |d|
      case _ => before
  }

  /** Every run continues exactly where the receiver stands, and no snapshot moves it backwards. */
  predicate Tiles(items: seq<Item>, r: bytes) {
    if items == [] then true
    else
      var rest := items[..|items| - 1];
      Tiles(rest, r) && Continues(Position(rest), items[|items| - 1], r)
  }

  predicate Continues(at: int, item: Item, r: bytes) {
    match item
    case Snap(p) => at <= p <= |r|
    case Out(d) => 0 <= at && at + |d| <= |r| && r[at..at + |d|] == d
    case _ => true
  }

  /** The items from the latest snapshot on. */
  function Recent(items: seq<Item>): seq<Item> {
    if items == [] then []
    else if items[|items| - 1].Snap? then [items[|items| - 1]]
    else Recent(items[..|items| - 1]) + [items[|items| - 1]]
  }

  /** Snapshots taken at ground, runs that keep the receiver there. */
  predicate GroundItems(items: seq<Item>, r: bytes) {
    forall i :: 0 <= i < |items| ==>
      match items[i]
      case Snap(p) => p <= |r| && GroundAt(r, p)
      case Out(d) => Aligned(d)
      case _ => true
  }

  lemma Snoc(items: seq<Item>, x: Item)
    ensures (items + [x])[..|items|] == items
    ensures Position(items + [x]) ==
            match x case Snap(p) => p case Out(d) => Position(items) + |d| case _ => Position(items)
    ensures forall r :: Tiles(items + [x], r) == (Tiles(items, r) && Continues(Position(items), x, r))
    ensures Recent(items + [x]) == if x.Snap? then [x] else Recent(items) + [x]
  {
    assert (items + [x])[..|items|] == items;
  }

  lemma {:induction false} TilesGrow(items: seq<Item>, r: bytes, more: bytes)
    requires Tiles(items, r)
    ensures Tiles(items, r + more)
  {
    if items != [] {
      var rest := items[..|items| - 1];
      TilesGrow(rest, r, more);
      var item := items[|items| - 1];
      if item.Out? {
        var at := Position(rest);
        assert (r + more)[at..at + |item.payload|] == r[at..at + |item.payload|];
      }
    }
  }

  lemma {:induction false} TilesPrefix(items: seq<Item>, r: bytes, n: nat)
    requires Tiles(items, r) && n <= |items|
    ensures Tiles(items[..n], r)
    ensures Position(items[..n]) <= Position(items)
  {
    if n < |items| {
      var rest := items[..|items| - 1];
      TilesPrefix(rest, r, n);
      assert rest[..n] == items[..n];
    } else {
      assert items[..n] == items;
    }
  }

  lemma {:induction false} RecentPosition(items: seq<Item>)
    requires |items| > 0 && items[0].Snap?
    ensures |Recent(items)| > 0 && Recent(items)[0].Snap?
    ensures Position(Recent(items)) == Position(items) >= 0
  {
    var rest := items[..|items| - 1];
    if !items[|items| - 1].Snap? {
      RecentPosition(rest);
      Snoc(Recent(rest), items[|items| - 1]);
    } else {
      Snoc([], items[|items| - 1]);
      assert [] + [items[|items| - 1]] == [items[|items| - 1]];
    }
  }

  // ---- the invariant

  /** What the wire items of a client say about how far it has been served. */
  predicate ItemsOk(items: seq<Item>, r: bytes, fanned: nat, gap: bool, clean: bool) {
    && |items| > 0 && items[0].Snap?
    && fanned <= |r|
    && (!gap ==> Tiles(Recent(items), r) && Position(items) == fanned)
    && (clean ==> !gap && Tiles(items, r))
  }

  predicate ClientOk(c: Client, r: bytes) {
    ItemsOk(All(c), r, c.fanned, c.gap, c.clean)
  }

  /** The backlog bound, and the place of control frames. */
  predicate QueueOk(c: Client) {
    && |c.q.buf| <= QUEUE + (if c.sizeAsked then 1 else 0) + (if c.endQueued then 1 else 0)
    && (forall i :: 0 <= i < |c.q.buf| ==> !c.q.buf[i].Snap?)
  }

  /** At most one Ended, behind everything but a size request, and the writer stops right after it. */
  predicate EndOk(c: Client) {
    && var all := All(c);
       && (c.endQueued <==> Ended in all)
       && (forall i, j :: 0 <= i < j < |all| && all[i] == Ended ==> all[j] == Size)
       && (Ended in c.sent <==> c.writer.Finished?)
       && (c.writer.Finished? ==> |c.sent| > 0 && c.sent[|c.sent| - 1] == Ended)
  }

  /** How far each client has been served, given what the pump is doing. */
  predicate ReachOk(s: Session) {
    && s.attachers <= s.clients.Keys
    && (match s.pump
        case Idle => forall id :: id in s.attachers ==> s.clients[id].fanned == |s.rendered|
        case Stopped => forall id :: id in s.attachers ==> s.clients[id].fanned == |s.rendered|
        case Written(d) =>
          && |d| <= |s.rendered| && s.rendered[|s.rendered| - |d|..] == d
          && forall id :: id in s.attachers ==> s.clients[id].fanned == |s.rendered| - |d|
        case Fanning(d, targets) =>
          && |d| <= |s.rendered| && s.rendered[|s.rendered| - |d|..] == d
          && targets <= s.clients.Keys
          && (forall id :: id in targets ==> s.clients[id].fanned == |s.rendered| - |d|)
          && (forall id :: id in s.attachers && id !in targets ==> s.clients[id].fanned == |s.rendered|))
  }

  predicate EndingOk(s: Session) {
    && (s.ending.Some? ==>
          && s.pump.Stopped?
          && s.ending.value <= s.clients.Keys
          && forall id :: id in s.ending.value ==> s.clients[id].fanned == |s.rendered| && !s.clients[id].endQueued)
    && forall id :: id in s.clients && s.clients[id].endQueued ==>
         s.ending.Some? && s.clients[id].fanned == |s.rendered|
  }

  predicate AlignedOk(s: Session) {
    s.aligned ==>
      && GroundAt(s.rendered, |s.rendered|)
      && (s.pump.Written? || s.pump.Fanning? ==> Aligned(s.pump.data))
      && forall id :: id in s.clients ==> GroundItems(All(s.clients[id]), s.rendered)
  }

  predicate Inv(s: Session) {
    && (forall id :: id in s.clients ==>
          ClientOk(s.clients[id], s.rendered) && QueueOk(s.clients[id]) && EndOk(s.clients[id]))
    && ReachOk(s)
    && EndingOk(s)
    && AlignedOk(s)
  }

  // ---- what one client's steps keep

  lemma AppendOut(items: seq<Item>, r: bytes, d: bytes, fanned: nat, gap: bool, clean: bool)
    requires ItemsOk(items, r, fanned, gap, clean)
    requires fanned + |d| == |r| && r[fanned..] == d
    ensures ItemsOk(items + [Out(d)], r, |r|, gap, clean)
  {
    Snoc(items, Out(d));
    RecentPosition(items);
    Snoc(Recent(items), Out(d));
    assert r[fanned..fanned + |d|] == r[fanned..];
  }

  lemma AppendControl(items: seq<Item>, r: bytes, x: Item, fanned: nat, gap: bool, clean: bool)
    requires ItemsOk(items, r, fanned, gap, clean) && (x.Size? || x.Ended?)
    ensures ItemsOk(items + [x], r, fanned, gap, clean)
  {
    Snoc(items, x);
    RecentPosition(items);
    Snoc(Recent(items), x);
  }

  /** Dropping the backlog for a fresh snapshot closes any gap. */
  lemma Resync(items: seq<Item>, n: nat, r: bytes, fanned: nat, gap: bool, clean: bool)
    requires ItemsOk(items, r, fanned, gap, clean) && n <= |items|
    ensures ItemsOk(items[..n] + [Snap(|r|)], r, |r|, false, clean)
  {
    Snoc(items[..n], Snap(|r|));
    LoneSnapshot(|r|, r);
    if clean {
      TilesPrefix(items, r, n);
    }
  }

  lemma LoneSnapshot(p: nat, r: bytes)
    requires p <= |r|
    ensures Tiles([Snap(p)], r) && Recent([Snap(p)]) == [Snap(p)] && Position([Snap(p)]) == p
  {
    Snoc([], Snap(p));
    assert [] + [Snap(p)] == [Snap(p)];
  }

  lemma DeliverKeepsClient(c: Client, data: bytes, r: bytes, ok: bool)
    requires ClientOk(c, r) && c.fanned + |data| == |r| && r[c.fanned..] == data
    ensures ClientOk(ClientDeliver(c, data, |r|, ok), r)
  {
    hide Tiles, Recent, Position;
    var c' := ClientDeliver(c, data, |r|, ok);
    var all := All(c);
    if |c.q.buf| < QUEUE {
      assert All(c') == all + [Out(data)];
      AppendOut(all, r, data, c.fanned, c.gap, c.clean);
    } else if ok {
      var kept := c.sent + InFlight(c.writer);
      assert all[..|kept|] == kept;
      assert All(c') == kept + [Snap(|r|)];
      Resync(all, |kept|, r, c.fanned, c.gap, c.clean);
    } else {
      assert All(c') == all;
    }
  }

  lemma GrowKeepsClient(c: Client, r: bytes, more: bytes)
    requires ClientOk(c, r)
    ensures ClientOk(c, r + more)
  {
    if !c.gap {
      TilesGrow(Recent(All(c)), r, more);
    }
    if c.clean {
      TilesGrow(All(c), r, more);
    }
  }

  lemma GroundGrows(items: seq<Item>, r: bytes, more: bytes)
    requires GroundItems(items, r)
    ensures GroundItems(items, r + more)
  {
    forall i | 0 <= i < |items| && items[i].Snap?
      ensures GroundAt(r + more, items[i].pos)
    {
      var p := items[i].pos;
      assert (r + more)[..p] == r[..p];
      AfterPrefix(START, r, r + more, p);
    }
  }

  // ---- what each step of the system keeps

  /** The client as this step leaves it: only the fields some step of its own may touch have changed. */
  lemma DeliverKeepsInv(s: Session, id: ClientId, ok: bool)
    requires Inv(s) && Enabled(s, Deliver(id, ok))
    ensures Inv(Apply(s, Deliver(id, ok)))
  {
    hide Tiles, Recent, Position, GroundAt, ClientOk, QueueOk, EndOk, GroundItems, Aligned, ClientDeliver, All;
    var s' := Apply(s, Deliver(id, ok));
    var c := s.clients[id];
    var data := s.pump.data;
    assert s.rendered[c.fanned..] == data;
    DeliverKeepsClient(c, data, s.rendered, ok);
    DeliverKeepsControl(c, data, |s.rendered|, ok);
    DeliverReach(c, data, |s.rendered|, ok);
    if s.aligned {
      DeliverKeepsGround(c, data, s.rendered, ok);
    }
  }

  lemma DeliverReach(c: Client, data: bytes, pos: nat, ok: bool)
    ensures var c' := ClientDeliver(c, data, pos, ok);
            c'.fanned == c.fanned + |data| && c'.endQueued == c.endQueued
  {
  }

  lemma DeliverKeepsControl(c: Client, data: bytes, pos: nat, ok: bool)
    requires QueueOk(c) && EndOk(c) && !c.endQueued
    ensures var c' := ClientDeliver(c, data, pos, ok); QueueOk(c') && EndOk(c')
  {
    var c' := ClientDeliver(c, data, pos, ok);
    if |c.q.buf| < QUEUE {
      assert All(c') == All(c) + [Out(data)];
    } else if ok {
      var kept := c.sent + InFlight(c.writer);
      assert All(c)[..|kept|] == kept;
      assert All(c') == kept + [Snap(pos)];
    } else {
      assert All(c') == All(c);
    }
  }

  lemma DeliverKeepsGround(c: Client, data: bytes, r: bytes, ok: bool)
    requires GroundItems(All(c), r) && Aligned(data) && GroundAt(r, |r|)
    ensures GroundItems(All(ClientDeliver(c, data, |r|, ok)), r)
  {
    hide GroundAt;
    var c' := ClientDeliver(c, data, |r|, ok);
    if |c.q.buf| < QUEUE {
      assert All(c') == All(c) + [Out(data)];
    } else if ok {
      var kept := c.sent + InFlight(c.writer);
      assert All(c)[..|kept|] == kept;
      assert All(c') == kept + [Snap(|r|)];
    } else {
      assert All(c') == All(c);
    }
  }

  lemma RenderKeepsInv(s: Session, data: bytes)
    requires Inv(s) && s.pump.Idle?
    ensures Inv(Apply(s, Render(data)))
  {
    hide Tiles, Recent, Position, GroundAt, After;
    var s' := Apply(s, Render(data));
    assert s'.rendered[|s'.rendered| - |data|..] == data;
    forall id | id in s.clients
      ensures ClientOk(s.clients[id], s'.rendered)
      ensures s'.aligned ==> GroundItems(All(s.clients[id]), s'.rendered)
    {
      GrowKeepsClient(s.clients[id], s.rendered, data);
      if s'.aligned {
        GroundGrows(All(s.clients[id]), s.rendered, data);
      }
    }
    if s'.aligned {
      AlignedConcat(s.rendered, data);
    }
  }

  lemma JoinKeepsInv(s: Session, id: ClientId)
    requires Inv(s) && Enabled(s, Join(id))
    ensures Inv(Apply(s, Join(id)))
  {
    hide GroundAt, All, EndOk, QueueOk, ClientOk, GroundItems, Aligned;
    NewClient(Apply(s, Join(id)).clients[id], s.rendered);
  }

  /** A client that has just been given the snapshot of everything rendered. */
  lemma NewClient(c: Client, r: bytes)
    requires c == Client(Queue([], None, false), Sending(Snap(|r|)), [], |r|, false, true, false, false)
    ensures ClientOk(c, r) && QueueOk(c) && EndOk(c)
    ensures GroundAt(r, |r|) ==> GroundItems(All(c), r)
  {
    hide Tiles, Recent, Position, GroundAt;
    assert All(c) == [Snap(|r|)];
    LoneSnapshot(|r|, r);
  }

  lemma EnqueueKeepsControl(c: Client, x: Item)
    requires QueueOk(c) && EndOk(c)
    requires (x == Size && !c.sizeAsked) || (x == Ended && !c.endQueued)
    ensures var q := Enqueue(c.q, x);
            var c' := if x.Size? then c.(q := q, sizeAsked := true) else c.(q := q, endQueued := true);
            QueueOk(c') && EndOk(c') && All(c') == All(c) + [x]
  {
    var q := Enqueue(c.q, x);
    var c' := if x.Size? then c.(q := q, sizeAsked := true) else c.(q := q, endQueued := true);
    assert All(c') == All(c) + [x];
  }

  /** A client with one more control frame, as its step leaves it. */
  lemma ControlKeeps(c: Client, x: Item, r: bytes, aligned: bool)
    requires ClientOk(c, r) && QueueOk(c) && EndOk(c) && (aligned ==> GroundItems(All(c), r))
    requires (x == Size && !c.sizeAsked) || (x == Ended && !c.endQueued)
    ensures var q := Enqueue(c.q, x);
            var c' := if x.Size? then c.(q := q, sizeAsked := true) else c.(q := q, endQueued := true);
            ClientOk(c', r) && QueueOk(c') && EndOk(c') && (aligned ==> GroundItems(All(c'), r))
  {
    hide ClientOk, QueueOk, EndOk, All, GroundItems, GroundAt;
    var q := Enqueue(c.q, x);
    var c' := if x.Size? then c.(q := q, sizeAsked := true) else c.(q := q, endQueued := true);
    EnqueueKeepsControl(c, x);
    ControlKeepsClient(c, c', x, r);
    if aligned {
      GroundAppend(All(c), x, r);
    }
  }

  lemma AskSizeKeepsInv(s: Session, id: ClientId)
    requires Inv(s) && Enabled(s, AskSize(id))
    ensures Inv(Apply(s, AskSize(id)))
  {
    hide GroundAt, All, EndOk, QueueOk, ClientOk, GroundItems, Aligned, Enqueue;
    ControlKeeps(s.clients[id], Size, s.rendered, s.aligned);
  }

  lemma DeliverEndedKeepsInv(s: Session, id: ClientId)
    requires Inv(s) && Enabled(s, DeliverEnded(id))
    ensures Inv(Apply(s, DeliverEnded(id)))
  {
    hide GroundAt, All, EndOk, QueueOk, ClientOk, GroundItems, Aligned, Enqueue;
    ControlKeeps(s.clients[id], Ended, s.rendered, s.aligned);
  }

  lemma ControlKeepsClient(c: Client, c': Client, x: Item, r: bytes)
    requires ClientOk(c, r) && (x.Size? || x.Ended?) && All(c') == All(c) + [x]
    requires c'.fanned == c.fanned && c'.gap == c.gap && c'.clean == c.clean
    ensures ClientOk(c', r)
  {
    hide Tiles, Recent, Position;
    AppendControl(All(c), r, x, c.fanned, c.gap, c.clean);
  }

  lemma GroundAppend(items: seq<Item>, x: Item, r: bytes)
    requires GroundItems(items, r) && (x.Size? || x.Ended?)
    ensures GroundItems(items + [x], r)
  {
  }

  lemma WriterKeepsControl(c: Client, e: Event)
    requires QueueOk(c) && EndOk(c)
    requires e.Take? ==> c.writer.Ready? && Wakes(c.q)
    requires e.Wrote? || e.WriteFailed? ==> c.writer.Sending?
    requires e.Take? || e.Wrote? || e.WriteFailed? || e.SignalClose?
    ensures var c' := WriterStep(c, e);
            && QueueOk(c') && EndOk(c') && All(c') == All(c)
            && c'.fanned == c.fanned && c'.gap == c.gap && c'.clean == c.clean && c'.endQueued == c.endQueued
  {
    var c' := WriterStep(c, e);
    assert All(c') == All(c);
  }

  /** Replacing a client by one with the same items and reach. */
  lemma SetClientKeepsInv(s: Session, id: ClientId, c': Client)
    requires Inv(s) && id in s.clients
    requires var c := s.clients[id];
             && QueueOk(c') && EndOk(c') && All(c') == All(c)
             && c'.fanned == c.fanned && c'.gap == c.gap && c'.clean == c.clean && c'.endQueued == c.endQueued
    ensures Inv(SetClient(s, id, c'))
  {
    hide Tiles, Recent, Position, GroundAt, After, All, EndOk, QueueOk, GroundItems, Aligned;
  }

  lemma WriterKeepsInv(s: Session, e: Event)
    requires Inv(s) && Enabled(s, e) && (e.Take? || e.Wrote? || e.WriteFailed? || e.SignalClose?)
    ensures Inv(Apply(s, e))
  {
    hide Inv, EndOk, QueueOk, All, WriterStep;
    assert QueueOk(s.clients[e.id]) && EndOk(s.clients[e.id]) by {
      ClientInv(s, e.id);
    }
    WriterKeepsControl(s.clients[e.id], e);
    SetClientKeepsInv(s, e.id, WriterStep(s.clients[e.id], e));
  }

  lemma ClientInv(s: Session, id: ClientId)
    requires Inv(s) && id in s.clients
    ensures ClientOk(s.clients[id], s.rendered) && QueueOk(s.clients[id]) && EndOk(s.clients[id])
  {
  }

  /** Every step of the protocol keeps the invariant. */
  lemma StepKeepsInv(s: Session, e: Event)
    requires Inv(s) && Enabled(s, e)
    ensures Inv(Apply(s, e))
  {
    hide Tiles, Recent, Position, GroundAt, After, All, EndOk, QueueOk, ClientOk;
    match e
    case Render(data) => RenderKeepsInv(s, data);
    case Deliver(id, ok) => DeliverKeepsInv(s, id, ok);
    case Join(id) => JoinKeepsInv(s, id);
    case AskSize(id) => AskSizeKeepsInv(s, id);
    case DeliverEnded(id) => DeliverEndedKeepsInv(s, id);
    case Take(_) => WriterKeepsInv(s, e);
    case Wrote(_) => WriterKeepsInv(s, e);
    case WriteFailed(_) => WriterKeepsInv(s, e);
    case SignalClose(_) => WriterKeepsInv(s, e);
    case _ =>
  }

  lemma {:induction false} RunKeepsInv(from: Session, events: seq<Event>, to: Session)
    requires Inv(from) && Runs(from, events, to)
    ensures Inv(to)
  {
    if events != [] {
      var n := |events| - 1;
      var mid :| Runs(from, events[..n], mid) && Enabled(mid, events[n]) && to == Apply(mid, events[n]);
      RunKeepsInv(from, events[..n], mid);
      StepKeepsInv(mid, events[n]);
    }
  }

  // ---- every run

  /** Every snapshot the pump asks for on an overflow succeeds. */
  predicate SnapshotsSucceed(events: seq<Event>) {
    forall i :: 0 <= i < |events| && events[i].Deliver? ==> events[i].snapshotOk
  }

  predicate RendersAligned(events: seq<Event>) {
    forall i :: 0 <= i < |events| && events[i].Render? ==> Aligned(events[i].data)
  }

  lemma StartInv()
    ensures Inv(START_SESSION)
  {
  }

  lemma StepStaysClean(s: Session, e: Event)
    requires Enabled(s, e) && (e.Deliver? ==> e.snapshotOk) && forall id :: id in s.clients ==> s.clients[id].clean
    ensures var s' := Apply(s, e); forall id :: id in s'.clients ==> s'.clients[id].clean
  {
  }

  lemma {:induction false} RunStaysClean(events: seq<Event>, to: Session)
    requires Runs(START_SESSION, events, to) && SnapshotsSucceed(events)
    ensures forall id :: id in to.clients ==> to.clients[id].clean
  {
    if events != [] {
      var n := |events| - 1;
      var mid :| Runs(START_SESSION, events[..n], mid) && Enabled(mid, events[n]) && to == Apply(mid, events[n]);
      RunStaysClean(events[..n], mid);
      hide Runs;
      StepStaysClean(mid, events[n]);
    }
  }

  lemma {:induction false} RunStaysAligned(events: seq<Event>, to: Session)
    requires Runs(START_SESSION, events, to) && RendersAligned(events)
    ensures to.aligned
  {
    if events != [] {
      var n := |events| - 1;
      var mid :| Runs(START_SESSION, events[..n], mid) && Enabled(mid, events[n]) && to == Apply(mid, events[n]);
      RunStaysAligned(events[..n], mid);
    }
  }

  /** The session bytes carried by a list of items. */
  function Payloads(items: seq<Item>): bytes {
    if items == [] then []
    else Payloads(items[..|items| - 1]) + if items[|items| - 1].Out? then items[|items| - 1].payload else []
  }

  lemma {:induction false} RecentPayloads(items: seq<Item>, r: bytes)
    requires |items| > 0 && items[0].Snap? && Tiles(Recent(items), r)
    ensures var p := Recent(items)[0];
            p.Snap? && 0 <= p.pos <= Position(items) <= |r| && Payloads(Recent(items)) == r[p.pos..Position(items)]
  {
    hide Tiles, Recent, Position, Payloads;
    var n := |items| - 1;
    var x := items[n];
    var rest := items[..n];
    assert rest + [x] == items;
    Snoc(rest, x);
    RecentPosition(items);
    if x.Snap? {
      LonePayload(x);
      LoneTiles(x, r);
    } else {
      RecentPosition(rest);
      Snoc(Recent(rest), x);
      RecentPayloads(rest, r);
      PayloadsSnoc(Recent(rest), x);
      OnePayload(Recent(rest)[0].pos, Position(rest), x, r);
    }
  }

  lemma LoneTiles(x: Item, r: bytes)
    requires x.Snap? && Tiles([x], r)
    ensures 0 <= x.pos <= |r| && Position([x]) == x.pos
  {
    LoneSnapshot(x.pos, r + r[..0]);
    Snoc([], x);
    assert [] + [x] == [x];
  }

  lemma OnePayload(p: nat, q: nat, x: Item, r: bytes)
    requires p <= q <= |r| && Continues(q, x, r) && !x.Snap?
    ensures x.Out? ==> q + |x.payload| <= |r| && r[p..q] + x.payload == r[p..q + |x.payload|]
  {
  }

  lemma LonePayload(x: Item)
    requires x.Snap?
    ensures Payloads([x]) == [] && Position([x]) == x.pos
  {
    assert [x][..0] == [];
  }

  lemma PayloadsSnoc(items: seq<Item>, x: Item)
    ensures Payloads(items + [x]) == Payloads(items) + if x.Out? then x.payload else []
  {
    assert (items + [x])[..|items|] == items;
  }

  /**
   * Exact tiling, in every run. Whatever interleaving of renders, fanouts,
   * joins, overflows, writer steps, failures and detaches happened: a client's
   * latest snapshot and the output behind it (sent, in flight or queued) carry
   * exactly the rendered bytes from that snapshot up to what has been fanned
   * out to it; over its whole attachment the stream position only moves
   * forward; and between blocks an attached client has been served everything.
   */
  lemma RunTiles(events: seq<Event>, to: Session, id: ClientId)
    requires Runs(START_SESSION, events, to) && SnapshotsSucceed(events) && id in to.clients
    ensures var c := to.clients[id];
            && Tiles(All(c), to.rendered)
            && Position(All(c)) == c.fanned <= |to.rendered|
            && |Recent(All(c))| > 0 && Recent(All(c))[0].Snap?
            && Recent(All(c))[0].pos <= c.fanned
            && Payloads(Recent(All(c))) == to.rendered[Recent(All(c))[0].pos..c.fanned]
            && (id in to.attachers && (to.pump.Idle? || to.pump.Stopped?) ==> c.fanned == |to.rendered|)
  {
    StartInv();
    RunKeepsInv(START_SESSION, events, to);
    RunStaysClean(events, to);
    RecentPosition(All(to.clients[id]));
    RecentPayloads(All(to.clients[id]), to.rendered);
  }

  /** Even when snapshots fail, a client whose last overflow succeeded tiles again from there. */
  lemma RunTilesAgain(events: seq<Event>, to: Session, id: ClientId)
    requires Runs(START_SESSION, events, to) && id in to.clients && !to.clients[id].gap
    ensures var c := to.clients[id];
            && |Recent(All(c))| > 0 && Recent(All(c))[0].Snap?
            && Recent(All(c))[0].pos <= c.fanned <= |to.rendered|
            && Payloads(Recent(All(c))) == to.rendered[Recent(All(c))[0].pos..c.fanned]
  {
    StartInv();
    RunKeepsInv(START_SESSION, events, to);
    RecentPosition(All(to.clients[id]));
    RecentPayloads(All(to.clients[id]), to.rendered);
  }

  /** One snapshot, and no other behind it. */
  predicate Streamed(items: seq<Item>) {
    |items| > 0 && items[0].Snap? && forall i :: 1 <= i < |items| ==> !items[i].Snap?
  }

  lemma {:induction false} StreamedIsRecent(items: seq<Item>)
    requires Streamed(items)
    ensures Recent(items) == items
  {
    var rest := items[..|items| - 1];
    if rest != [] {
      StreamedIsRecent(rest);
    } else {
      assert items == [items[0]];
    }
  }

  /** A client this session has room for, and that was streamed to so far. */
  predicate Streaming(s: Session, id: ClientId) {
    id in s.clients ==> Streamed(All(s.clients[id])) && !s.clients[id].gap
  }

  lemma StreamedAppend(items: seq<Item>, x: Item)
    requires Streamed(items) && !x.Snap?
    ensures Streamed(items + [x])
  {
  }

  lemma DeliverStreams(c: Client, data: bytes, pos: nat, ok: bool)
    requires Streamed(All(c)) && !c.gap && |c.q.buf| < QUEUE
    ensures var c' := ClientDeliver(c, data, pos, ok); Streamed(All(c')) && !c'.gap
  {
    hide Streamed;
    assert All(ClientDeliver(c, data, pos, ok)) == All(c) + [Out(data)];
    StreamedAppend(All(c), Out(data));
  }

  lemma ControlStreams(c: Client, x: Item)
    requires Streamed(All(c)) && !x.Snap?
    ensures Streamed(All(c.(q := Enqueue(c.q, x))))
  {
    hide Streamed;
    assert All(c.(q := Enqueue(c.q, x))) == All(c) + [x];
    StreamedAppend(All(c), x);
  }

  lemma JoinStreams(s: Session, id: ClientId)
    requires Enabled(s, Join(id))
    ensures var c := Apply(s, Join(id)).clients[id]; Streamed(All(c)) && !c.gap
  {
    assert All(Apply(s, Join(id)).clients[id]) == [Snap(|s.rendered|)];
  }

  lemma StepKeepsStreaming(s: Session, e: Event, id: ClientId)
    requires Inv(s) && Enabled(s, e) && Streaming(s, id) && (id in s.clients ==> |s.clients[id].q.buf| < QUEUE)
    ensures Streaming(Apply(s, e), id)
  {
    hide Tiles, Recent, Position, GroundAt, All, EndOk, QueueOk, ClientOk, ClientDeliver, WriterStep, GroundItems, Aligned, Enqueue, Streamed;
    if id !in s.clients {
      if e == Join(id) {
        JoinStreams(s, id);
      }
      return;
    }
    var c := s.clients[id];
    match e
    case Deliver(_, ok) => DeliverStreams(c, s.pump.data, |s.rendered|, ok);
    case AskSize(_) =>
      ControlStreams(c, Size);
      SameItems(c.(q := Enqueue(c.q, Size)), c.(q := Enqueue(c.q, Size), sizeAsked := true));
    case DeliverEnded(_) =>
      ControlStreams(c, Ended);
      SameItems(c.(q := Enqueue(c.q, Ended)), c.(q := Enqueue(c.q, Ended), endQueued := true));
    case Take(i) => WriterKeepsControl(s.clients[i], e);
    case Wrote(i) => WriterKeepsControl(s.clients[i], e);
    case WriteFailed(i) => WriterKeepsControl(s.clients[i], e);
    case SignalClose(i) => WriterKeepsControl(s.clients[i], e);
    case _ =>
  }

  /** Whenever the run passed a state with this client in it, there was room in its queue. */
  ghost predicate NeverFull(events: seq<Event>, id: ClientId) {
    forall n, mid :: 0 <= n < |events| && Runs(START_SESSION, events[..n], mid) && id in mid.clients ==>
      |mid.clients[id].q.buf| < QUEUE
  }

  lemma {:induction false} RoomKeepsStreaming(events: seq<Event>, to: Session, id: ClientId)
    requires Runs(START_SESSION, events, to) && NeverFull(events, id)
    ensures Inv(to) && Streaming(to, id)
  {
    hide Inv, Enabled, Apply, Streaming;
    StartInv();
    if events == [] {
      StartStreams(id);
    } else {
      var n := |events| - 1;
      var mid :| Runs(START_SESSION, events[..n], mid) && Enabled(mid, events[n]) && to == Apply(mid, events[n]);
      assert NeverFull(events[..n], id) by {
        assert forall k :: 0 <= k < n ==> events[..n][..k] == events[..k];
      }
      RoomKeepsStreaming(events[..n], mid, id);
      StepKeepsInv(mid, events[n]);
      StepKeepsStreaming(mid, events[n], id);
    }
  }

  lemma StartStreams(id: ClientId)
    ensures Streaming(START_SESSION, id)
  {
  }

  /**
   * A client that is never too far behind is never resynced: in every run,
   * behind its first snapshot it gets the stream itself, byte by byte.
   */
  lemma RoomMeansNoResync(events: seq<Event>, to: Session, id: ClientId)
    requires Runs(START_SESSION, events, to) && NeverFull(events, id) && id in to.clients
    ensures var c := to.clients[id];
            && |All(c)| > 0 && All(c)[0].Snap? && (forall i :: 1 <= i < |All(c)| ==> !All(c)[i].Snap?)
            && All(c)[0].pos <= c.fanned <= |to.rendered|
            && Payloads(All(c)) == to.rendered[All(c)[0].pos..c.fanned]
  {
    RoomKeepsStreaming(events, to, id);
    RunTilesAgain(events, to, id);
    StreamedIsRecent(All(to.clients[id]));
  }

  lemma RefusedTakesNothing(c: Client, data: bytes, pos: nat)
    ensures All(c) <= All(ClientDeliver(c, data, pos, false))
  {
    var c' := ClientDeliver(c, data, pos, false);
    if |c.q.buf| < QUEUE {
      assert All(c') == All(c) + [Out(data)];
    } else {
      assert All(c') == All(c);
    }
  }

  lemma ControlTakesNothing(c: Client, x: Item)
    ensures All(c) <= All(c.(q := Enqueue(c.q, x)))
  {
    assert All(c.(q := Enqueue(c.q, x))) == All(c) + [x];
  }

  lemma StepTakesNothing(s: Session, e: Event, id: ClientId)
    requires Inv(s) && Enabled(s, e) && id in s.clients && e != Deliver(id, true)
    ensures var s' := Apply(s, e); id in s'.clients && All(s.clients[id]) <= All(s'.clients[id])
  {
    hide Tiles, Recent, Position, GroundAt, All, EndOk, QueueOk, ClientOk, ClientDeliver, WriterStep, GroundItems, Aligned, Enqueue;
    var c := s.clients[id];
    match e
    case Deliver(_, _) => RefusedTakesNothing(c, s.pump.data, |s.rendered|);
    case AskSize(_) =>
      ControlTakesNothing(c, Size);
      SameItems(c.(q := Enqueue(c.q, Size)), c.(q := Enqueue(c.q, Size), sizeAsked := true));
    case DeliverEnded(_) =>
      ControlTakesNothing(c, Ended);
      SameItems(c.(q := Enqueue(c.q, Ended)), c.(q := Enqueue(c.q, Ended), endQueued := true));
    case Take(i) => WriterKeepsControl(s.clients[i], e);
    case Wrote(i) => WriterKeepsControl(s.clients[i], e);
    case WriteFailed(i) => WriterKeepsControl(s.clients[i], e);
    case SignalClose(i) => WriterKeepsControl(s.clients[i], e);
    case _ =>
  }

  /**
   * What was sent or queued for a client is taken back by nothing but a
   * snapshot that succeeds: while none is offered to it, every step of anyone,
   * a failing snapshot's among them, only adds behind what there is.
   */
  lemma {:induction false} OnlySnapshotsTakeBack(from: Session, events: seq<Event>, to: Session, id: ClientId)
    requires Inv(from) && Runs(from, events, to) && id in from.clients && Deliver(id, true) !in events
    ensures Inv(to) && id in to.clients && All(from.clients[id]) <= All(to.clients[id])
  {
    hide Inv, Enabled, Apply, All;
    if events != [] {
      var n := |events| - 1;
      var mid :| Runs(from, events[..n], mid) && Enabled(mid, events[n]) && to == Apply(mid, events[n]);
      OnlySnapshotsTakeBack(from, events[..n], mid, id);
      StepKeepsInv(mid, events[n]);
      StepTakesNothing(mid, events[n], id);
    }
  }

  /** On overflow the client keeps up with the stream if and only if its snapshot succeeds. */
  lemma OverflowTilesIffSnapshot(c: Client, data: bytes, r: bytes, ok: bool)
    requires ClientOk(c, r) && !c.gap && |c.q.buf| >= QUEUE
    requires |data| > 0 && c.fanned + |data| == |r| && r[c.fanned..] == data
    ensures var c' := ClientDeliver(c, data, |r|, ok);
            ok <==> Tiles(Recent(All(c')), r) && Position(All(c')) == c'.fanned
  {
    DeliverKeepsClient(c, data, r, ok);
    if !ok {
      assert All(ClientDeliver(c, data, |r|, ok)) == All(c);
    }
  }

  predicate RendersNonempty(events: seq<Event>) {
    forall i :: 0 <= i < |events| && events[i].Render? ==> events[i].data != []
  }

  /** A client with a gap has been sent less than was fanned out to it. */
  predicate Lagging(s: Session) {
    && (s.pump.Written? || s.pump.Fanning? ==> s.pump.data != [])
    && forall id :: id in s.clients && s.clients[id].gap ==> Position(All(s.clients[id])) < s.clients[id].fanned
  }

  lemma DeliverKeepsLag(c: Client, data: bytes, r: bytes, ok: bool)
    requires ClientOk(c, r) && data != [] && (c.gap ==> Position(All(c)) < c.fanned)
    ensures var c' := ClientDeliver(c, data, |r|, ok);
            c'.gap ==> Position(All(c')) < c'.fanned
  {
    hide Tiles, Recent, Position;
    var c' := ClientDeliver(c, data, |r|, ok);
    if |c.q.buf| < QUEUE {
      assert All(c') == All(c) + [Out(data)];
      Snoc(All(c), Out(data));
    } else if !ok {
      assert All(c') == All(c);
    }
  }

  lemma ControlKeepsLag(c: Client, x: Item)
    requires x.Size? || x.Ended?
    ensures Position(All(c.(q := Enqueue(c.q, x)))) == Position(All(c))
  {
    hide Position;
    assert All(c.(q := Enqueue(c.q, x))) == All(c) + [x];
    Snoc(All(c), x);
  }

  lemma SameItems(c: Client, d: Client)
    requires c.sent == d.sent && c.writer == d.writer && c.q == d.q
    ensures All(c) == All(d)
  {
  }

  lemma StepKeepsLag(s: Session, e: Event)
    requires Inv(s) && Enabled(s, e) && Lagging(s) && (e.Render? ==> e.data != [])
    ensures Lagging(Apply(s, e))
  {
    hide Tiles, Recent, Position, GroundAt, All, EndOk, QueueOk, ClientOk, ClientDeliver, WriterStep, GroundItems, Aligned, Enqueue;
    match e
    case Deliver(id, ok) => DeliverKeepsLag(s.clients[id], s.pump.data, s.rendered, ok);
    case AskSize(id) =>
      var c := s.clients[id];
      ControlKeepsLag(c, Size);
      SameItems(c.(q := Enqueue(c.q, Size)), c.(q := Enqueue(c.q, Size), sizeAsked := true));
    case DeliverEnded(id) =>
      var c := s.clients[id];
      ControlKeepsLag(c, Ended);
      SameItems(c.(q := Enqueue(c.q, Ended)), c.(q := Enqueue(c.q, Ended), endQueued := true));
    case Take(id) => WriterKeepsControl(s.clients[id], e);
    case Wrote(id) => WriterKeepsControl(s.clients[id], e);
    case WriteFailed(id) => WriterKeepsControl(s.clients[id], e);
    case SignalClose(id) => WriterKeepsControl(s.clients[id], e);
    case _ =>
  }

  lemma StartLags()
    ensures Lagging(START_SESSION)
  {
  }

  lemma {:induction false} RunKeepsLag(events: seq<Event>, to: Session)
    requires Runs(START_SESSION, events, to) && RendersNonempty(events)
    ensures Inv(to) && Lagging(to)
  {
    hide Inv, Lagging, Enabled, Apply;
    if events == [] {
      StartInv();
      StartLags();
    } else {
      var n := |events| - 1;
      var mid :| Runs(START_SESSION, events[..n], mid) && Enabled(mid, events[n]) && to == Apply(mid, events[n]);
      RunKeepsLag(events[..n], mid);
      StepKeepsInv(mid, events[n]);
      StepKeepsLag(mid, events[n]);
    }
  }

  /**
   * In every run, with whatever snapshots failing: a client has been sent, or
   * is still to be, everything that was fanned out to it if and only if it has
   * no gap, that is if its last overflow was answered by a snapshot.
   */
  lemma RunTilesIff(events: seq<Event>, to: Session, id: ClientId)
    requires Runs(START_SESSION, events, to) && RendersNonempty(events) && id in to.clients
    ensures var c := to.clients[id];
            && (Position(All(c)) == c.fanned <==> !c.gap)
            && (!c.gap ==> Tiles(Recent(All(c)), to.rendered))
  {
    RunKeepsLag(events, to);
    ClientInv(to, id);
    hide Tiles, Recent, Position, All, Inv;
  }

  /** The queue towards a client is bounded by the cap and its two control frames. */
  lemma RunBoundsBacklog(events: seq<Event>, to: Session, id: ClientId)
    requires Runs(START_SESSION, events, to) && id in to.clients
    ensures |to.clients[id].q.buf| <= QUEUE + 2
  {
    StartInv();
    RunKeepsInv(START_SESSION, events, to);
  }

  // ---- what the client shows

  /** An emulator seen from outside: how it takes bytes, and the snapshot it renders. */
  datatype Emulator<!S(!new)> = Emulator(init: S, write: (S, bytes) -> S, snapshot: S -> bytes, ground: S -> bool)

  /** Writes compose, and between sequences a snapshot replays onto any terminal. */
  ghost predicate Lawful<S(!new)>(e: Emulator<S>) {
    && (forall s, a, b {:trigger e.write(e.write(s, a), b)} :: e.write(e.write(s, a), b) == e.write(s, a + b))
    && (forall a {:trigger e.write(e.init, a)} :: Aligned(a) ==> e.ground(e.write(e.init, a)))
    && e.ground(e.init)
    && (forall s, t {:trigger e.write(t, e.snapshot(s))} :: e.ground(s) && e.ground(t) ==> e.write(t, e.snapshot(s)) == s)
  }

  /** The daemon's terminal after the first `p` bytes. */
  function Screen<S(!new)>(e: Emulator<S>, r: bytes, p: nat): S
    requires p <= |r|
  {
    e.write(e.init, r[..p])
  }

  /** The client's terminal after receiving `items`. */
  function Shown<S(!new)>(e: Emulator<S>, items: seq<Item>, r: bytes): S {
    if items == [] then e.init
    else
      var before := Shown(e, items[..|items| - 1], r);
      match items[|items| - 1]
      case Snap(p) => if p <= |r| then e.write(before, e.snapshot(Screen(e, r, p))) else before
      case Out(d) => e.write(before, d)
      case _ => before
  }

  lemma GroundScreen<S(!new)>(e: Emulator<S>, r: bytes, p: nat)
    requires Lawful(e) && p <= |r| && GroundAt(r, p)
    ensures e.ground(Screen(e, r, p))
  {
    AfterPrefix(START, r, r[..p], p);
    assert Aligned(r[..p]);
  }

  lemma GroundInit<S(!new)>(e: Emulator<S>)
    requires Lawful(e)
    ensures e.ground(e.init)
  {
  }

  lemma SnapshotShows<S(!new)>(e: Emulator<S>, t: S, r: bytes, p: nat)
    requires Lawful(e) && e.ground(t) && p <= |r| && GroundAt(r, p)
    ensures e.write(t, e.snapshot(Screen(e, r, p))) == Screen(e, r, p)
  {
    GroundScreen(e, r, p);
  }

  lemma WritesCompose<S(!new)>(e: Emulator<S>, s: S, a: bytes, b: bytes)
    requires Lawful(e)
    ensures e.write(e.write(s, a), b) == e.write(s, a + b)
  {
    hide Aligned;
  }

  lemma GroundExtends(r: bytes, q: nat, d: bytes)
    requires q + |d| <= |r| && r[q..q + |d|] == d && GroundAt(r, q) && Aligned(d)
    ensures GroundAt(r, q + |d|)
  {
    hide After;
    GroundRestart(r, q, |d|);
    assert r[q..][..|d|] == d == d[..|d|];
    AfterPrefix(START, r[q..], d, |d|);
  }

  /** Only the last block rendered, the final flush, may stop inside a sequence. */
  predicate RendersAlignedButLast(events: seq<Event>) {
    forall i, j :: 0 <= i < j < |events| && events[i].Render? && events[j].Render? ==> Aligned(events[i].data)
  }

  /** An output frame keeps its receiver at ground, or brings it to the end of the stream. */
  predicate LooseOuts(items: seq<Item>, r: bytes) {
    forall i :: 0 <= i < |items| && items[i].Out? ==>
      Aligned(items[i].payload) || Position(items[..i + 1]) == |r|
  }

  predicate SnapsAtGround(items: seq<Item>, r: bytes) {
    forall i :: 0 <= i < |items| && items[i].Snap? ==> items[i].pos <= |r| && GroundAt(r, items[i].pos)
  }

  predicate Loose(s: Session) {
    forall id :: id in s.clients ==> LooseOuts(All(s.clients[id]), s.rendered)
  }

  lemma LoosePrefix(items: seq<Item>, r: bytes, n: nat)
    requires LooseOuts(items, r) && n <= |items|
    ensures LooseOuts(items[..n], r)
  {
    hide Position, Aligned;
    forall i | 0 <= i < n && items[i].Out? ensures Aligned(items[i].payload) || Position(items[..n][..i + 1]) == |r| {
      assert items[..n][..i + 1] == items[..i + 1];
    }
  }

  lemma LooseAppend(items: seq<Item>, r: bytes, x: Item)
    requires LooseOuts(items, r) && (x.Out? ==> Position(items + [x]) == |r|)
    ensures LooseOuts(items + [x], r)
  {
    hide Position, Aligned;
    var all := items + [x];
    forall i | 0 <= i < |all| && all[i].Out? ensures Aligned(all[i].payload) || Position(all[..i + 1]) == |r| {
      if i < |items| {
        assert all[..i + 1] == items[..i + 1];
      } else {
        assert all[..i + 1] == all;
      }
    }
  }

  lemma DeliverKeepsLoose(c: Client, data: bytes, r: bytes, ok: bool)
    requires ClientOk(c, r) && c.clean && c.fanned + |data| == |r| && LooseOuts(All(c), r)
    ensures LooseOuts(All(ClientDeliver(c, data, |r|, ok)), r)
  {
    hide Tiles, Recent, Position, LooseOuts;
    var c' := ClientDeliver(c, data, |r|, ok);
    if |c.q.buf| < QUEUE {
      assert All(c') == All(c) + [Out(data)];
      Snoc(All(c), Out(data));
      LooseAppend(All(c), r, Out(data));
    } else if ok {
      var kept := c.sent + InFlight(c.writer);
      assert All(c)[..|kept|] == kept;
      assert All(c') == kept + [Snap(|r|)];
      LoosePrefix(All(c), r, |kept|);
      LooseAppend(kept, r, Snap(|r|));
    } else {
      assert All(c') == All(c);
    }
  }

  lemma LoneSnapIsLoose(c: Client, p: nat, r: bytes)
    requires All(c) == [Snap(p)]
    ensures LooseOuts(All(c), r)
  {
  }

  lemma ControlKeepsLoose(c: Client, x: Item, r: bytes)
    requires (x.Size? || x.Ended?) && LooseOuts(All(c), r)
    ensures LooseOuts(All(c.(q := Enqueue(c.q, x))), r)
  {
    hide LooseOuts;
    assert All(c.(q := Enqueue(c.q, x))) == All(c) + [x];
    LooseAppend(All(c), r, x);
  }

  lemma StepKeepsLoose(s: Session, e: Event)
    requires Inv(s) && Enabled(s, e) && Loose(s) && !e.Render?
    requires forall id :: id in s.clients ==> s.clients[id].clean
    ensures Loose(Apply(s, e))
  {
    hide Tiles, Recent, Position, GroundAt, All, EndOk, QueueOk, ClientOk, ClientDeliver, WriterStep, GroundItems, Aligned, Enqueue, LooseOuts;
    match e
    case Deliver(id, ok) => DeliverKeepsLoose(s.clients[id], s.pump.data, s.rendered, ok);
    case AskSize(id) =>
      var c := s.clients[id];
      ControlKeepsLoose(c, Size, s.rendered);
      SameItems(c.(q := Enqueue(c.q, Size)), c.(q := Enqueue(c.q, Size), sizeAsked := true));
    case DeliverEnded(id) =>
      var c := s.clients[id];
      ControlKeepsLoose(c, Ended, s.rendered);
      SameItems(c.(q := Enqueue(c.q, Ended)), c.(q := Enqueue(c.q, Ended), endQueued := true));
    case Join(id) => JoinIsLoose(s, id);
    case Take(id) => WriterKeepsControl(s.clients[id], e);
    case Wrote(id) => WriterKeepsControl(s.clients[id], e);
    case WriteFailed(id) => WriterKeepsControl(s.clients[id], e);
    case SignalClose(id) => WriterKeepsControl(s.clients[id], e);
    case _ =>
  }

  lemma JoinIsLoose(s: Session, id: ClientId)
    requires Enabled(s, Join(id))
    ensures LooseOuts(All(Apply(s, Join(id)).clients[id]), s.rendered)
  {
    var c := Apply(s, Join(id)).clients[id];
    assert All(c) == [Snap(|s.rendered|)];
    LoneSnapIsLoose(c, |s.rendered|, s.rendered);
  }

  lemma RenderIsLoose(s: Session, data: bytes)
    requires Inv(s) && s.aligned && Enabled(s, Render(data))
    ensures Loose(Apply(s, Render(data)))
  {
    hide Aligned, GroundAt, Position, All;
  }

  lemma {:induction false} RunStaysLoose(events: seq<Event>, to: Session)
    requires Runs(START_SESSION, events, to) && SnapshotsSucceed(events) && RendersAlignedButLast(events)
    ensures Loose(to)
  {
    if events != [] {
      hide Inv, Loose, Aligned, Apply, Enabled;
      var n := |events| - 1;
      var e := events[n];
      var mid :| Runs(START_SESSION, events[..n], mid) && Enabled(mid, e) && to == Apply(mid, e);
      StartInv();
      RunKeepsInv(START_SESSION, events[..n], mid);
      if e.Render? {
        RunStaysAligned(events[..n], mid);
        RenderIsLoose(mid, e.data);
      } else {
        RunStaysLoose(events[..n], mid);
        RunStaysClean(events[..n], mid);
        StepKeepsLoose(mid, e);
      }
    }
  }

  /** Between snapshots at ground a receiver shows the session at its position, also when the last block stops inside a sequence. */
  lemma {:induction false} ShownIsScreen<S(!new)>(e: Emulator<S>, items: seq<Item>, r: bytes)
    requires Lawful(e) && |items| > 0 && items[0].Snap? && Tiles(items, r)
    requires LooseOuts(items, r) && SnapsAtGround(items, r)
    ensures 0 <= Position(items) <= |r| && (GroundAt(r, Position(items)) || Position(items) == |r|)
    ensures GroundItems(items, r) ==> GroundAt(r, Position(items))
    ensures Shown(e, items, r) == Screen(e, r, Position(items))
  {
    hide GroundAt, Lawful, Aligned, LooseOuts;
    var n := |items| - 1;
    var x := items[n];
    GroundInit(e);
    if n == 0 {
      assert items[..0] == [];
      assert GroundAt(r, x.pos);
      SnapshotShows(e, e.init, r, x.pos);
    } else {
      LoosePrefix(items, r, n);
      ShownIsScreen(e, items[..n], r);
      var q := Position(items[..n]);
      match x
      case Snap(p) =>
        GroundScreen(e, r, q);
        SnapshotShows(e, Shown(e, items[..n], r), r, p);
      case Out(d) => LooseOutputShows(e, items, r, q);
      case _ =>
    }
  }

  lemma LooseOutputShows<S(!new)>(e: Emulator<S>, items: seq<Item>, r: bytes, q: nat)
    requires Lawful(e) && LooseOuts(items, r) && |items| > 0 && items[|items| - 1].Out?
    requires var d := items[|items| - 1].payload;
             q + |d| <= |r| && r[q..q + |d|] == d && Position(items) == q + |d|
    requires GroundAt(r, q) || q == |r|
    ensures var d := items[|items| - 1].payload;
            && e.write(Screen(e, r, q), d) == Screen(e, r, q + |d|)
            && (GroundAt(r, q + |d|) || q + |d| == |r|)
            && (GroundAt(r, q) && Aligned(d) ==> GroundAt(r, q + |d|))
  {
    hide GroundAt, Lawful, Aligned, Position;
    var d := items[|items| - 1].payload;
    assert items[..|items|] == items;
    assert r[..q] + d == r[..q + |d|];
    WritesCompose(e, e.init, r[..q], d);
    if GroundAt(r, q) && Aligned(d) {
      GroundExtends(r, q, d);
    }
  }

  /**
   * What an attached client shows after each frame it has received is the
   * session's own terminal at some position of the stream, and that position
   * never moves backwards: a frame still in flight at an overflow only lags.
   * This holds up to a snapshot taken inside a sequence, which only the final
   * flush can bring about.
   */
  lemma ClientShowsThePast<S(!new)>(e: Emulator<S>, events: seq<Event>, to: Session, id: ClientId, k: nat, m: nat)
    requires Lawful(e) && Runs(START_SESSION, events, to)
    requires SnapshotsSucceed(events) && RendersAlignedButLast(events)
    requires id in to.clients && 1 <= k <= m <= |to.clients[id].sent|
    requires SnapsAtGround(to.clients[id].sent[..k], to.rendered)
    ensures var sent := to.clients[id].sent;
            && 0 <= Position(sent[..k]) <= Position(sent[..m]) <= |to.rendered|
            && Shown(e, sent[..k], to.rendered) == Screen(e, to.rendered, Position(sent[..k]))
  {
    StartInv();
    RunKeepsInv(START_SESSION, events, to);
    RunStaysClean(events, to);
    RunStaysLoose(events, to);
    hide Tiles, Position, Recent, Shown, Runs, GroundAt, Lawful, LooseOuts;
    SentShowsThePast(e, to.clients[id], to.rendered, k, m);
  }

  lemma SentShowsThePast<S(!new)>(e: Emulator<S>, c: Client, r: bytes, k: nat, m: nat)
    requires Lawful(e) && 1 <= k <= m <= |c.sent|
    requires Tiles(All(c), r) && LooseOuts(All(c), r) && All(c)[0].Snap? && SnapsAtGround(c.sent[..k], r)
    ensures 0 <= Position(c.sent[..k]) <= Position(c.sent[..m]) <= |r|
    ensures Shown(e, c.sent[..k], r) == Screen(e, r, Position(c.sent[..k]))
  {
    hide Tiles, Position, Recent, Shown, GroundAt, Lawful, LooseOuts;
    var all := All(c);
    assert all[..k] == c.sent[..k] && all[..m] == c.sent[..m];
    TilesPrefix(all, r, k);
    TilesPrefix(all, r, m);
    TilesPrefix(all[..m], r, k);
    assert all[..m][..k] == all[..k];
    LoosePrefix(all, r, k);
    ShownIsScreen(e, all[..k], r);
    PositionInStream(all, r, m);
  }

  lemma {:induction false} PositionInStream(items: seq<Item>, r: bytes, m: nat)
    requires Tiles(items, r) && m <= |items|
    ensures Position(items[..m]) <= |r|
  {
    TilesPrefix(items, r, m);
    WithinStream(items[..m], r);
  }

  lemma {:induction false} WithinStream(items: seq<Item>, r: bytes)
    requires Tiles(items, r)
    ensures Position(items) <= |r|
  {
    if items != [] {
      WithinStream(items[..|items| - 1], r);
    }
  }

  /** While every block ends at ground so does every snapshot. */
  lemma AlignedRunSnapshots(events: seq<Event>, to: Session, id: ClientId, k: nat)
    requires Runs(START_SESSION, events, to) && RendersAligned(events)
    requires id in to.clients && k <= |to.clients[id].sent|
    ensures SnapsAtGround(to.clients[id].sent[..k], to.rendered)
  {
    hide Inv, Runs, GroundAt, Aligned;
    StartInv();
    RunKeepsInv(START_SESSION, events, to);
    RunStaysAligned(events, to);
    AlignedClient(to, id);
    var c := to.clients[id];
    assert forall i :: 0 <= i < k ==> All(c)[i] == c.sent[i];
  }

  lemma AlignedClient(s: Session, id: ClientId)
    requires Inv(s) && s.aligned && id in s.clients
    ensures GroundItems(All(s.clients[id]), s.rendered)
  {
    hide GroundAt, Aligned, All;
  }

  // ---- the end of a session

  lemma {:induction false} TrailingSizes(items: seq<Item>, n: nat)
    requires n <= |items| && forall i :: n <= i < |items| ==> items[i] == Size
    ensures Position(items) == Position(items[..n])
    ensures forall r :: Tiles(items, r) == Tiles(items[..n], r)
  {
    if n < |items| {
      TrailingSizes(items[..|items| - 1], n);
      assert items[..|items| - 1][..n] == items[..n];
    } else {
      assert items[..n] == items;
    }
  }

  /** A client whose writer finished got the whole stream, then exactly one Ended, and nothing behind it. */
  lemma FinishedClientIsComplete(events: seq<Event>, to: Session, id: ClientId)
    requires Runs(START_SESSION, events, to) && SnapshotsSucceed(events)
    requires id in to.clients && to.clients[id].writer.Finished?
    ensures var sent := to.clients[id].sent;
            && |sent| > 0 && sent[|sent| - 1] == Ended && Ended !in sent[..|sent| - 1]
            && Tiles(sent, to.rendered) && Position(sent) == |to.rendered|
  {
    StartInv();
    RunKeepsInv(START_SESSION, events, to);
    RunStaysClean(events, to);
    hide Tiles, Position, Recent, Runs, AlignedOk, ReachOk;
    FinishedSent(to.clients[id], to.rendered);
  }

  lemma FinishedSent(c: Client, r: bytes)
    requires EndOk(c) && c.writer.Finished? && Tiles(All(c), r)
    ensures var sent := c.sent;
            && |sent| > 0 && sent[|sent| - 1] == Ended && Ended !in sent[..|sent| - 1]
            && Tiles(sent, r) && Position(sent) == Position(All(c))
  {
    hide Tiles, Position;
    var all := All(c);
    assert all[..|c.sent|] == c.sent;
    assert forall i :: 0 <= i < |c.sent| ==> all[i] == c.sent[i];
    TrailingSizes(all, |c.sent|);
  }

  /** One step of a writer nobody disturbs. */
  function DrainOne(c: Client): Client {
    if c.writer.Ready? && Wakes(c.q) then ClientTake(c)
    else if c.writer.Sending? then ClientWrote(c)
    else c
  }

  function Drain(c: Client, steps: nat): Client {
    if steps == 0 then c else DrainOne(Drain(c, steps - 1))
  }

  function Work(c: Client): nat {
    2 * (|c.q.buf| + |PendingItem(c.q.pendingSnapshot)|) + if c.writer.Sending? then 1 else 0
  }

  /** Ended is queued, and the writer is neither closed nor failing. */
  predicate Delivering(c: Client) {
    QueueOk(c) && EndOk(c) && c.endQueued && !c.q.closed && (c.writer.Ready? || c.writer.Sending?)
  }

  lemma ReadyMeansWork(c: Client)
    requires EndOk(c) && c.endQueued && c.writer.Ready?
    ensures Wakes(c.q)
  {
  }

  lemma DrainOneWorks(c: Client)
    requires !c.q.closed && ((c.writer.Ready? && Wakes(c.q)) || c.writer.Sending?)
    ensures var d := DrainOne(c);
            && d.endQueued == c.endQueued && !d.q.closed
            && (d.writer.Finished? || ((d.writer.Ready? || d.writer.Sending?) && Work(d) + 1 == Work(c)))
  {
  }

  lemma DrainOneKeeps(c: Client)
    requires Delivering(c)
    ensures var d := DrainOne(c);
            && QueueOk(d) && EndOk(d) && All(d) == All(c)
            && (d.writer.Finished? || (Delivering(d) && Work(d) + 1 == Work(c)))
  {
    if c.writer.Ready? {
      ReadyMeansWork(c);
    }
    hide QueueOk, EndOk, All, Work;
    DrainOneWorks(c);
    if c.writer.Ready? {
      WriterKeepsControl(c, Take(0));
    } else {
      WriterKeepsControl(c, Wrote(0));
    }
  }

  lemma {:induction false} DrainKeeps(c: Client, steps: nat)
    requires Delivering(c)
    ensures var d := Drain(c, steps);
            && QueueOk(d) && EndOk(d) && All(d) == All(c)
            && (d.writer.Finished? || (Delivering(d) && Work(d) + steps == Work(c)))
  {
    if steps > 0 {
      hide QueueOk, EndOk, All, Work;
      DrainKeeps(c, steps - 1);
      var d := Drain(c, steps - 1);
      if d.writer.Finished? {
        NothingToDrain(d);
      } else {
        DrainOneKeeps(d);
      }
    }
  }

  /** Everything up to Ended was sent; only a size request may be left behind it. */
  predicate SentToTheEnd(c: Client) {
    && |c.sent| > 0 && c.sent[|c.sent| - 1] == Ended && Ended !in c.sent[..|c.sent| - 1]
    && c.sent <= All(c) && forall i :: |c.sent| <= i < |All(c)| ==> All(c)[i] == Size
  }

  lemma FinishedSentAll(c: Client)
    requires EndOk(c) && c.writer.Finished?
    ensures SentToTheEnd(c)
  {
    var all := All(c);
    assert all[..|c.sent|] == c.sent;
    assert forall i :: 0 <= i < |c.sent| ==> all[i] == c.sent[i];
  }

  /**
   * Once Ended is queued, a writer that is neither closed nor failing needs
   * only its own steps to deliver everything up to it, and then it stops.
   */
  lemma DrainDelivers(c: Client)
    requires Delivering(c)
    ensures var d := Drain(c, Work(c) + 1);
            d.writer.Finished? && All(d) == All(c) && SentToTheEnd(d)
  {
    hide QueueOk, EndOk, All, SentToTheEnd;
    DrainKeeps(c, Work(c) + 1);
    FinishedSentAll(Drain(c, Work(c) + 1));
  }

  /** Everyone in `ids` has been sent Ended or is still to be. */
  predicate Told(s: Session, ids: set<ClientId>) {
    && s.ending.Some?
    && forall id :: id in ids ==> id in s.clients && (id in s.ending.value || s.clients[id].endQueued)
  }

  predicate WriterSteps(events: seq<Event>, id: ClientId) {
    forall i :: 0 <= i < |events| ==> events[i] == Take(id) || events[i] == Wrote(id)
  }

  /** Those steps are a run of the session. */
  lemma {:induction false} DrainRuns(s: Session, id: ClientId, steps: nat) returns (more: seq<Event>, to: Session)
    requires id in s.clients
    ensures Runs(s, more, to) && to == SetClient(s, id, Drain(s.clients[id], steps)) && WriterSteps(more, id)
  {
    if steps == 0 {
      more, to := [], s;
      assert s.clients[id := s.clients[id]] == s.clients;
    } else {
      hide Apply, Enabled, DrainOne, Runs, Wakes, SetClient;
      var before, mid := DrainRuns(s, id, steps - 1);
      SetClientTwice(s, id, Drain(s.clients[id], steps - 1), Drain(s.clients[id], steps));
      var d := mid.clients[id];
      if (d.writer.Ready? && Wakes(d.q)) || d.writer.Sending? {
        var e := if d.writer.Ready? then Take(id) else Wrote(id);
        DrainOneApplies(mid, id);
        more, to := before + [e], Apply(mid, e);
        OneMoreEvent(s, before, mid, e);
      } else {
        more, to := before, mid;
        NothingToDrain(d);
      }
    }
  }

  lemma SetClientTwice(s: Session, id: ClientId, c: Client, d: Client)
    ensures SetClient(SetClient(s, id, c), id, d) == SetClient(s, id, d)
    ensures id in SetClient(s, id, c).clients && SetClient(s, id, c).clients[id] == c
  {
    assert s.clients[id := c][id := d] == s.clients[id := d];
  }

  lemma DrainOneApplies(s: Session, id: ClientId)
    requires id in s.clients
    requires var c := s.clients[id]; (c.writer.Ready? && Wakes(c.q)) || c.writer.Sending?
    ensures var e := if s.clients[id].writer.Ready? then Take(id) else Wrote(id);
            Enabled(s, e) && Apply(s, e) == SetClient(s, id, DrainOne(s.clients[id]))
  {
  }

  lemma NothingToDrain(c: Client)
    requires !(c.writer.Ready? && Wakes(c.q)) && !c.writer.Sending?
    ensures DrainOne(c) == c
  {
  }

  lemma OneMoreEvent(from: Session, events: seq<Event>, mid: Session, e: Event)
    requires Runs(from, events, mid) && Enabled(mid, e)
    ensures Runs(from, events + [e], Apply(mid, e))
  {
    assert (events + [e])[..|events|] == events;
  }

  lemma {:induction false} RunsConcat(from: Session, a: seq<Event>, mid: Session, b: seq<Event>, to: Session)
    requires Runs(from, a, mid) && Runs(mid, b, to)
    ensures Runs(from, a + b, to)
  {
    hide Apply, Enabled;
    if b == [] {
      assert a + b == a;
    } else {
      var n := |b| - 1;
      var last :| Runs(mid, b[..n], last) && Enabled(last, b[n]) && to == Apply(last, b[n]);
      RunsConcat(from, a, mid, b[..n], last);
      OneMoreEvent(from, a + b[..n], last, b[n]);
      assert a + b == a + b[..n] + [b[n]];
    }
  }

  /**
   * From wherever a run has got to, a client that is told the session ended,
   * and whose writer is neither closed nor failing, can be served to the end
   * by nothing but its own Ended being queued and its own writer's steps. If
   * snapshots succeeded, what it was sent then tiles the whole stream.
   */
  lemma ToldClientIsServed(events: seq<Event>, s: Session, id: ClientId) returns (more: seq<Event>, to: Session)
    requires Runs(START_SESSION, events, s) && Told(s, {id})
    requires !s.clients[id].q.closed && (s.clients[id].writer.Ready? || s.clients[id].writer.Sending?)
    ensures Runs(START_SESSION, events + more, to) && to.rendered == s.rendered && id in to.clients
    ensures forall i :: 0 <= i < |more| ==> more[i] == DeliverEnded(id) || more[i] == Take(id) || more[i] == Wrote(id)
    ensures to.clients[id].writer.Finished? && SentToTheEnd(to.clients[id])
    ensures SnapshotsSucceed(events) ==>
              Tiles(to.clients[id].sent, s.rendered) && Position(to.clients[id].sent) == |s.rendered|
  {
    hide QueueOk, EndOk, All, SentToTheEnd, Tiles, Position, Work, Inv, Runs, Told, Delivering, Apply;
    StartInv();
    RunKeepsInv(START_SESSION, events, s);
    var before, mid := EndedIsQueued(s, id);
    DrainDelivers(mid.clients[id]);
    var after;
    after, to := DrainRuns(mid, id, Work(mid.clients[id]) + 1);
    more := before + after;
    RunsConcat(s, before, mid, after, to);
    RunsConcat(START_SESSION, events, s, more, to);
    if SnapshotsSucceed(events) {
      FinishedClientIsComplete(events + more, to, id);
    }
  }

  lemma EndedIsQueued(s: Session, id: ClientId) returns (before: seq<Event>, mid: Session)
    requires Inv(s) && Told(s, {id})
    requires !s.clients[id].q.closed && (s.clients[id].writer.Ready? || s.clients[id].writer.Sending?)
    ensures Runs(s, before, mid) && mid.rendered == s.rendered
    ensures id in mid.clients && Delivering(mid.clients[id])
    ensures forall i :: 0 <= i < |before| ==> before[i] == DeliverEnded(id)
  {
    hide QueueOk, EndOk, All;
    before, mid := [], s;
    if id in s.ending.value {
      var e := DeliverEnded(id);
      before, mid := [e], Apply(s, e);
      OneMoreEvent(s, [], s, e);
      assert [] + [e] == [e];
      StepKeepsInv(s, e);
    }
    ClientInv(mid, id);
  }

  lemma StepKeepsTold(s: Session, e: Event, ids: set<ClientId>)
    requires Enabled(s, e) && Told(s, ids)
    ensures Told(Apply(s, e), ids)
  {
  }

  /** The broadcast reaches everyone attached when it captured its targets. */
  lemma {:induction false} BroadcastReachesAll(from: Session, events: seq<Event>, to: Session)
    requires Inv(from) && Enabled(from, CaptureEnding)
    requires Runs(Apply(from, CaptureEnding), events, to)
    ensures Inv(to) && Told(to, from.attachers)
  {
    StepKeepsInv(from, CaptureEnding);
    hide Inv;
    if events != [] {
      var n := |events| - 1;
      var mid :| Runs(Apply(from, CaptureEnding), events[..n], mid) && Enabled(mid, events[n]) && to == Apply(mid, events[n]);
      BroadcastReachesAll(from, events[..n], mid);
      StepKeepsInv(mid, events[n]);
      hide Runs;
      StepKeepsTold(mid, events[n], from.attachers);
    } else {
      AttachedAreClients(from);
    }
  }

  lemma AttachedAreClients(s: Session)
    requires Inv(s)
    ensures s.attachers <= s.clients.Keys
  {
  }
}
