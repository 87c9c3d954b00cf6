/**
 * The objects behind the attach protocol: an attached client's outbound queue
 * with the operations that run under its lock, the writer loop that drains it,
 * and the session's loops over all attached clients. Each operation is proved
 * to be the protocol's step on the queue's value.
 */
module Attachers {
  import opened Bytes
  import opened AttachProtocol

  /** The items up to and including the first Ended. */
  function UpToEnded(items: seq<Item>): seq<Item> {
    if items == [] then []
    else if items[0].Ended? then [items[0]]
    else [items[0]] + UpToEnded(items[1..])
  }

  function Remaining(ended: bool, left: seq<Item>): seq<Item> {
    if ended then [] else UpToEnded(left)
  }

  lemma StepDue(written: seq<Item>, left: seq<Item>)
    requires |left| > 0
    ensures |UpToEnded(left)| > 0
    ensures written + UpToEnded(left) == (written + [left[0]]) + Remaining(left[0].Ended?, left[1..])
  {
  }

  lemma NothingDue()
    ensures UpToEnded([]) == []
  {
  }

  /** What others do to a client while its writer does not hold its lock. */
  datatype Action = Given(data: bytes, pos: nat, snapshotOk: bool) | Queued(f: Item) | Stop

  /** A step of the protocol, as one client sees it: another's, or its writer's. */
  datatype Step = Other(a: Action) | Own(e: Event)

  predicate CanStep(c: Client, s: Step) {
    match s
    case Other(_) => true
    case Own(Take(_)) => c.writer.Ready? && Wakes(c.q)
    case Own(Wrote(_)) => c.writer.Sending?
    case Own(WriteFailed(_)) => c.writer.Sending?
    case Own(_) => false
  }

  function AfterStep(c: Client, s: Step): Client
    requires CanStep(c, s)
  {
    match s
    case Other(Given(data, pos, ok)) => ClientDeliver(c, data, pos, ok)
    case Other(Queued(f)) =>
      c.(q := Enqueue(c.q, f), sizeAsked := c.sizeAsked || f.Size?, endQueued := c.endQueued || f.Ended?)
    case Other(Stop) => WriterStep(c, SignalClose(0))
    case Own(e) => WriterStep(c, e)
  }

  /** `to` is reached from `from` by these steps, in order, each possible when it happens. */
  ghost predicate Evolves(from: Client, steps: seq<Step>, to: Client) {
    if steps == [] then from == to
    else
      var n := |steps| - 1;
      exists mid :: Evolves(from, steps[..n], mid) && CanStep(mid, steps[n]) && to == AfterStep(mid, steps[n])
  }

  lemma OneStep(from: Client, steps: seq<Step>, mid: Client, s: Step)
    requires Evolves(from, steps, mid) && CanStep(mid, s)
    ensures Evolves(from, steps + [s], AfterStep(mid, s))
  {
    assert (steps + [s])[..|steps|] == steps;
  }

  /** What an event of the session is to one of its clients. */
  function StepOf(s: Session, e: Event, id: ClientId): seq<Step>
    requires Enabled(s, e)
  {
    match e
    case Deliver(i, ok) => if i == id then [Other(Given(s.pump.data, |s.rendered|, ok))] else []
    case AskSize(i) => if i == id then [Other(Queued(Size))] else []
    case DeliverEnded(i) => if i == id then [Other(Queued(Ended))] else []
    case SignalClose(i) => if i == id then [Other(Stop)] else []
    case Take(i) => if i == id then [Own(Take(0))] else []
    case Wrote(i) => if i == id then [Own(Wrote(0))] else []
    case WriteFailed(i) => if i == id then [Own(WriteFailed(0))] else []
    case _ => []
  }

  /** The session's runs are, client by client, such steps and nothing else. */
  lemma EventsAreSteps(s: Session, e: Event, id: ClientId)
    requires Enabled(s, e) && id in s.clients
    ensures var s' := Apply(s, e);
            id in s'.clients && Evolves(s.clients[id], StepOf(s, e, id), s'.clients[id])
  {
    hide Enabled, Apply, StepOf, AfterStep, CanStep, Evolves;
    EventActs(s, e, id);
    StartsStill(s.clients[id]);
    var steps := StepOf(s, e, id);
    if steps != [] {
      OneStep(s.clients[id], [], s.clients[id], steps[0]);
      assert [] + [steps[0]] == steps;
    }
  }

  lemma EventActs(s: Session, e: Event, id: ClientId)
    requires Enabled(s, e) && id in s.clients
    ensures var s', steps := Apply(s, e), StepOf(s, e, id);
            && id in s'.clients && |steps| <= 1
            && (steps == [] ==> s'.clients[id] == s.clients[id])
            && (steps != [] ==> CanStep(s.clients[id], steps[0]) && s'.clients[id] == AfterStep(s.clients[id], steps[0]))
  {
    hide ClientDeliver, ClientTake, ClientWrote;
  }

  /** How the writer's loop ends. */
  datatype Exit = Going | Waits | StoppedByClose | FailedWrite | AllSent

  /** The protocol's writer is where the loop is. */
  predicate EndsAs(exit: Exit, c: Client) {
    match exit
    case Going => c.writer.Ready?
    case Waits => c.writer.Ready? && !Wakes(c.q)
    case StoppedByClose => c.writer.Closed? && c.q.closed
    case FailedWrite => c.writer.Failed?
    case AllSent => c.writer.Finished?
  }

  class Attacher {
    var buf: seq<Item>
    var pendingSnapshot: Option<nat>
    var closed: bool
    /** The frames written to the connection, and how many more writes it will accept. */
    var conn: seq<Item>
    var writable: nat

    /** What others do at each of the writer's unlocked moments. */
    var others: seq<seq<Action>>

    function Value(): Queue
      reads `buf, `pendingSnapshot, `closed
    {
      Queue(buf, pendingSnapshot, closed)
    }

    constructor (writable: nat, others: seq<seq<Action>>)
      ensures Value() == Queue([], None, false) && conn == [] && this.writable == writable && this.others == others
    {
      buf, pendingSnapshot, closed, conn := [], None, false, [];
      this.writable, this.others := writable, others;
    }

    method SignalClose()
      modifies `closed
      ensures Value() == Close(old(Value()))
    {
      closed := true;
    }

    method EnqueueFrame(f: Item)
      modifies `buf
      ensures Value() == Enqueue(old(Value()), f)
    {
      buf := buf + [f];
    }

    method DeliverOutput(data: bytes, pos: nat, snapshotOk: bool)
      modifies `buf, `pendingSnapshot
      ensures Value() == Offer(old(Value()), data, pos, snapshotOk)
    {
      if |buf| >= QUEUE {
        if !snapshotOk {
          return;
        }
        buf := [];
        pendingSnapshot := Some(pos);
        return;
      }
      buf := buf + [Out(data)];
    }

    method WriteFrame(f: Item) returns (ok: bool)
      modifies `conn, `writable
      ensures ok == (old(writable) > 0)
      ensures ok ==> conn == old(conn) + [f] && writable == old(writable) - 1
      ensures !ok ==> conn == old(conn) && writable == 0
    {
      if writable == 0 {
        return false;
      }
      conn, writable := conn + [f], writable - 1;
      return true;
    }

    /** The lock is free: others do what the script holds next. */
    method Meanwhile(ghost from: Client, ghost before: seq<Step>, ghost c: Client) returns (ghost steps: seq<Step>, ghost d: Client)
      requires Evolves(from, before, c) && c.q == Value()
      modifies `buf, `pendingSnapshot, `closed, `others
      ensures Evolves(from, steps, d) && d.q == Value()
      ensures d.writer == c.writer && d.sent == c.sent
      ensures others == if old(others) == [] then [] else old(others)[1..]
      ensures old(others) == [] ==> Value() == old(Value())
      ensures old(closed) ==> closed
    {
      hide Evolves, ClientDeliver;
      steps, d := before, c;
      if others == [] {
        return;
      }
      var actions := others[0];
      others := others[1..];
      for i := 0 to |actions|
        invariant Evolves(from, steps, d) && d.q == Value() && d.writer == c.writer && d.sent == c.sent
        invariant others == old(others)[1..] && (old(closed) ==> closed)
      {
        OneStep(from, steps, d, Other(actions[i]));
        DeliverIsOffer(d, actions[i]);
        steps, d := steps + [Other(actions[i])], AfterStep(d, Other(actions[i]));
        match actions[i] {
          case Given(data, pos, ok) => DeliverOutput(data, pos, ok);
          case Queued(f) => EnqueueFrame(f);
          case Stop => SignalClose();
        }
      }
    }

    /** Writes one frame, unlocked. */
    method Send(f: Item, ghost from: Client, ghost before: seq<Step>, ghost c: Client)
      returns (ok: bool, ghost steps: seq<Step>, ghost d: Client)
      requires Evolves(from, before, c) && c.q == Value() && c.sent == conn && c.writer == Sending(f)
      modifies `buf, `pendingSnapshot, `closed, `others, `conn, `writable
      ensures Evolves(from, steps, d) && d.q == Value() && d.sent == conn
      ensures d.writer == if !ok then Failed(f) else if f.Ended? then Finished else Ready
      ensures ok == (old(writable) > 0)
      ensures ok ==> conn == old(conn) + [f] && writable == old(writable) - 1
      ensures !ok ==> conn == old(conn) && writable == 0
      ensures others == if old(others) == [] then [] else old(others)[1..]
      ensures old(others) == [] ==> Value() == old(Value())
    {
      hide Evolves;
      steps, d := Meanwhile(from, before, c);
      ok := WriteFrame(f);
      ghost var own := if ok then Own(Wrote(0)) else Own(WriteFailed(0));
      OneStep(from, steps, d, own);
      steps, d := steps + [own], AfterStep(d, own);
    }

    /** What is queued for the writer, in its order. */
    ghost function Left(): seq<Item>
      reads `buf, `pendingSnapshot
    {
      PendingItem(pendingSnapshot) + buf
    }

    /** Waits until there is something to do, or the script ends. */
    method Await(ghost from: Client, ghost before: seq<Step>, ghost c: Client)
      returns (found: bool, ghost steps: seq<Step>, ghost d: Client)
      requires Evolves(from, before, c) && c.q == Value() && c.sent == conn && c.writer.Ready?
      modifies `buf, `pendingSnapshot, `closed, `others
      ensures Evolves(from, steps, d) && d.q == Value() && d.sent == conn && d.writer.Ready?
      ensures found == Wakes(Value()) && (!found ==> others == [])
      ensures |others| < |old(others)| || (others == old(others) && Value() == old(Value()))
    {
      hide Evolves;
      steps, d := before, c;
      while !closed && pendingSnapshot.None? && buf == []
        invariant Evolves(from, steps, d) && d.q == Value() && d.sent == conn && d.writer.Ready?
        invariant |others| < |old(others)| || (others == old(others) && Value() == old(Value()))
        decreases |others|
      {
        if others == [] {
          return false, steps, d;
        }
        steps, d := Meanwhile(from, steps, d);
      }
      found := true;
    }

    /** One turn of the writer loop. */
    method Turn(ghost from: Client, ghost before: seq<Step>, ghost c: Client)
      returns (exit: Exit, ghost steps: seq<Step>, ghost d: Client)
      requires Evolves(from, before, c) && c.q == Value() && c.sent == conn && c.writer.Ready?
      modifies `buf, `pendingSnapshot, `closed, `others, `conn, `writable
      ensures Evolves(from, steps, d) && d.q == Value() && d.sent == conn && EndsAs(exit, d)
      ensures exit.Waits? ==> others == []
      ensures |others| < |old(others)| || (others == old(others) && (exit.Going? ==> |Left()| < |old(Left())|))
      ensures writable + |conn| == old(writable) + |old(conn)| && (exit.FailedWrite? ==> writable == 0)
      ensures old(others) == [] ==>
                && closed == old(closed)
                && if closed then exit.StoppedByClose? && conn == old(conn)
                   else if old(Left()) == [] then exit.Waits? && conn == old(conn)
                   else if old(writable) == 0 then exit.FailedWrite? && conn == old(conn)
                   else
                     && conn == old(conn) + [old(Left())[0]] && writable == old(writable) - 1
                     && Left() == old(Left())[1..] && exit == if old(Left())[0].Ended? then AllSent else Going
    {
      hide Evolves;
      ghost var b;
      var found;
      found, b, d := Await(from, before, c);
      if !found {
        return Waits, b, d;
      }
      steps, d := Takes(from, b, d);
      if closed {
        return StoppedByClose, steps, d;
      }
      var f := TakeOne();
      var ok;
      ok, steps, d := Send(f, from, steps, d);
      exit := if !ok then FailedWrite else if f.Ended? then AllSent else Going;
    }

    /**
     * The writer loop, until it stops or waits for more than the script holds.
     * Whatever others do whenever the lock is free, what happens to the client
     * are steps of the protocol, and the loop ends as the protocol's writer
     * does. Undisturbed, on a connection that takes every write, it sends the
     * first snapshot, a pending one, then the backlog up to Ended, in that
     * order; a failing connection gets a prefix of that, and a client told to
     * stop gets nothing behind the first snapshot.
     */
    method AttachWriter(snap: nat, ghost from: Client) returns (exit: Exit, ghost steps: seq<Step>, ghost to: Client)
      requires from.q == Value() && from.sent == conn && from.writer == Sending(Snap(snap))
      modifies `buf, `pendingSnapshot, `closed, `others, `conn, `writable
      ensures Evolves(from, steps, to) && to.q == Value() && to.sent == conn
      ensures EndsAs(exit, to) && !exit.Going? && (exit.Waits? ==> others == [])
      ensures writable + |conn| == old(writable) + |old(conn)| && (exit.FailedWrite? ==> writable == 0)
      ensures old(others) == [] ==>
                var due := [Snap(snap)] + if old(closed) then [] else UpToEnded(old(Left()));
                && (!exit.FailedWrite? <==> old(writable) >= |due|)
                && conn == old(conn) + if exit.FailedWrite? then due[..old(writable)] else due
    {
      hide UpToEnded, Offer, Evolves, Wakes, AfterStep, CanStep;
      ghost var w, before, was := writable, conn, closed;
      ghost var quiet := others == [];
      ghost var due := [Snap(snap)] + if closed then [] else UpToEnded(Left());
      StartsStill(from);
      NothingDue();
      var ok;
      ok, steps, to := Send(Snap(snap), from, [], from);
      if !ok {
        return FailedWrite, steps, to;
      }
      ghost var written := [Snap(snap)];
      exit := Going;
      while exit.Going?
        invariant Evolves(from, steps, to) && to.q == Value() && to.sent == conn && EndsAs(exit, to)
        invariant exit.Waits? ==> others == []
        invariant writable + |conn| == w + |before| && (exit.FailedWrite? ==> writable == 0)
        invariant quiet ==> others == [] && closed == was
        invariant quiet && exit.Going? ==> due == written + (if closed then [] else UpToEnded(Left()))
        invariant quiet && !exit.Going? && !exit.FailedWrite? ==> due == written
        invariant quiet && exit.FailedWrite? ==> |written| == w < |due| && due[..w] == written
        invariant quiet ==> conn == before + written && |written| <= w
        invariant quiet && exit.Going? ==> writable + |written| == w
        decreases exit.Going?, |others|, |Left()|
      {
        ghost var left := Left();
        if quiet && left != [] {
          StepDue(written, left);
        }
        exit, steps, to := Turn(from, steps, to);
        if quiet && !was && left != [] && !exit.FailedWrite? {
          written := written + [left[0]];
        }
      }
    }

    /** Takes the next item off the queue: a pending snapshot goes before the backlog. */
    method TakeOne() returns (f: Item)
      requires !closed && Wakes(Value())
      modifies `buf, `pendingSnapshot
      ensures (Value(), Some(f)) == Dequeue(old(Value()))
      ensures old(Left()) == [f] + Left()
    {
      if pendingSnapshot.Some? {
        f := Snap(pendingSnapshot.value);
        pendingSnapshot := None;
      } else {
        f := buf[0];
        buf := buf[1..];
      }
    }
  }

  /** The protocol's delivery acts on the queue as an offer. */
  lemma DeliverIsOffer(c: Client, a: Action)
    ensures a.Given? ==> ClientDeliver(c, a.data, a.pos, a.snapshotOk).q == Offer(c.q, a.data, a.pos, a.snapshotOk)
    ensures a.Given? ==>
              var d := ClientDeliver(c, a.data, a.pos, a.snapshotOk);
              d.writer == c.writer && d.sent == c.sent
  {
  }

  lemma StartsStill(c: Client)
    ensures Evolves(c, [], c)
  {
  }

  /** The writer's own step under the lock. */
  lemma Takes(from: Client, before: seq<Step>, c: Client) returns (steps: seq<Step>, d: Client)
    requires Evolves(from, before, c) && c.writer.Ready? && Wakes(c.q)
    ensures Evolves(from, steps, d) && d.sent == c.sent
    ensures d.q == Dequeue(c.q).0
    ensures d.writer == if Dequeue(c.q).1.None? then Closed else Sending(Dequeue(c.q).1.value)
  {
    hide Evolves;
    OneStep(from, before, c, Own(Take(0)));
    steps, d := before + [Own(Take(0))], AfterStep(c, Own(Take(0)));
  }

  class Clients {
    var attachers: set<Attacher>

    /** Copies one block of output to every attached client; `broken` are those whose snapshot would fail. */
    method Fanout(data: bytes, pos: nat, broken: set<Attacher>)
      modifies attachers
      ensures attachers == old(attachers)
      ensures forall a :: a in attachers ==>
                a.Value() == Offer(old(a.Value()), data, pos, a !in broken) && a.conn == old(a.conn)
    {
      var targets := attachers;
      while targets != {}
        invariant targets <= attachers && attachers == old(attachers)
        invariant forall a :: a in targets ==> a.Value() == old(a.Value())
        invariant forall a :: a in attachers - targets ==> a.Value() == Offer(old(a.Value()), data, pos, a !in broken)
        invariant forall a :: a in attachers ==> a.conn == old(a.conn)
        decreases targets
      {
        var a :| a in targets;
        a.DeliverOutput(data, pos, a !in broken);
        targets := targets - {a};
      }
    }

    /** Queues the final frame behind everything every attached client still has to receive. */
    method EndAttachers()
      modifies attachers
      ensures attachers == old(attachers)
      ensures forall a :: a in attachers ==> a.Value() == Enqueue(old(a.Value()), Ended) && a.conn == old(a.conn)
    {
      var targets := attachers;
      while targets != {}
        invariant targets <= attachers && attachers == old(attachers)
        invariant forall a :: a in targets ==> a.Value() == old(a.Value())
        invariant forall a :: a in attachers - targets ==> a.Value() == Enqueue(old(a.Value()), Ended)
        invariant forall a :: a in attachers ==> a.conn == old(a.conn)
        decreases targets
      {
        var a :| a in targets;
        a.EnqueueFrame(Ended);
        targets := targets - {a};
      }
    }
  }
}
