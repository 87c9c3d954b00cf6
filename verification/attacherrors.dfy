/**
 * Error trees, and how they are pruned of what an attachment's own shutdown
 * causes. A pruned tree keeps exactly the failures that nobody expected.
 */
module AttachErrors {

  /** What the end of an attachment brings about by itself, the end of a stream, the detach request, and the rest. */
  datatype Cause = Shutdown | EndOfStream | DetachRequest | Failure(id: nat)

  datatype Error =
    | Nil
    | Leaf(cause: Cause)
    | Joined(children: seq<Error>)
    | Wrapped(message: string, inner: Error)

  const DETACHED := Leaf(DetachRequest)

  predicate IsExpected(c: Cause, includeEof: bool) {
    c.Shutdown? || (includeEof && c.EndOfStream?)
  }

  /** Drops the nils; without anything left there is no error. */
  function Join(es: seq<Error>): Error {
    var left := NonNil(es);
    if left == [] then Nil else Joined(left)
  }

  function NonNil(es: seq<Error>): seq<Error> {
    if es == [] then []
    else NonNil(es[..|es| - 1]) + if es[|es| - 1].Nil? then [] else [es[|es| - 1]]
  }

  function Pruned(e: Error, includeEof: bool): Error {
    match e
    case Nil => Nil
    case Joined(children) => Join(PrunedAll(children, includeEof))
    case Wrapped(message, inner) =>
      var child := Pruned(inner, includeEof);
      if child.Nil? then Nil else Wrapped(message, child)
    case Leaf(cause) => if IsExpected(cause, includeEof) then Nil else e
  }

  function PrunedAll(es: seq<Error>, includeEof: bool): (r: seq<Error>)
    ensures |r| == |es|
  {
    if es == [] then [] else PrunedAll(es[..|es| - 1], includeEof) + [Pruned(es[|es| - 1], includeEof)]
  }

  function Undetached(e: Error): Error {
    if e.Nil? || e == DETACHED then Nil
    else if e.Joined? then Join(UndetachedAll(e.children))
    else e
  }

  function UndetachedAll(es: seq<Error>): (r: seq<Error>)
    ensures |r| == |es|
  {
    if es == [] then [] else UndetachedAll(es[..|es| - 1]) + [Undetached(es[|es| - 1])]
  }

  method WithoutExpectedShutdownErrors(e: Error, includeEof: bool) returns (r: Error)
    ensures r == Pruned(e, includeEof)
    decreases e
  {
    match e {
      case Nil => return Nil;
      case Joined(children) =>
        var remaining: seq<Error> := [];
        for i := 0 to |children|
          invariant remaining == NonNil(PrunedAll(children[..i], includeEof))
        {
          assert children[..i + 1][..i] == children[..i];
          var child := WithoutExpectedShutdownErrors(children[i], includeEof);
          NonNilSnoc(PrunedAll(children[..i], includeEof), child);
          if !child.Nil? {
            remaining := remaining + [child];
          }
        }
        assert children[..|children|] == children;
        NonNilTwice(PrunedAll(children, includeEof));
        return Join(remaining);
      case Wrapped(message, inner) =>
        var child := WithoutExpectedShutdownErrors(inner, includeEof);
        if child.Nil? {
          return Nil;
        }
        return Wrapped(message, child);
      case Leaf(cause) =>
        return if IsExpected(cause, includeEof) then Nil else e;
    }
  }

  method WithoutAttachDetached(e: Error) returns (r: Error)
    ensures r == Undetached(e)
    decreases e
  {
    if e.Nil? || e == DETACHED {
      return Nil;
    }
    if !e.Joined? {
      return e;
    }
    var remaining: seq<Error> := [];
    for i := 0 to |e.children|
      invariant remaining == NonNil(UndetachedAll(e.children[..i]))
    {
      assert e.children[..i + 1][..i] == e.children[..i];
      var child := WithoutAttachDetached(e.children[i]);
      NonNilSnoc(UndetachedAll(e.children[..i]), child);
      if !child.Nil? {
        remaining := remaining + [child];
      }
    }
    assert e.children[..|e.children|] == e.children;
    NonNilTwice(UndetachedAll(e.children));
    return Join(remaining);
  }

  lemma NonNilSnoc(es: seq<Error>, e: Error)
    ensures NonNil(es + [e]) == NonNil(es) + if e.Nil? then [] else [e]
  {
    assert (es + [e])[..|es|] == es;
  }

  lemma {:induction false} NonNilTwice(es: seq<Error>)
    ensures NonNil(NonNil(es)) == NonNil(es)
  {
    if es != [] {
      NonNilTwice(es[..|es| - 1]);
      if es[|es| - 1].Nil? {
        assert NonNil(es) == NonNil(es[..|es| - 1]);
      } else {
        NonNilSnoc(NonNil(es[..|es| - 1]), es[|es| - 1]);
      }
    }
  }

  // ---- what is in a tree

  /** The failures in a tree, in order; `deep` looks into wrappers, else each counts as one. */
  function Flat(e: Error, deep: bool): seq<Error> {
    match e
    case Nil => []
    case Joined(children) => FlatAll(children, deep)
    case Wrapped(_, inner) => if deep && !inner.Nil? then Flat(inner, deep) else [e]
    case Leaf(_) => [e]
  }

  function FlatAll(es: seq<Error>, deep: bool): seq<Error> {
    if es == [] then [] else FlatAll(es[..|es| - 1], deep) + Flat(es[|es| - 1], deep)
  }

  /** Wrappers have something in them. */
  predicate Solid(e: Error) {
    match e
    case Nil => true
    case Joined(children) => AllSolid(children)
    case Wrapped(_, inner) => !inner.Nil? && Solid(inner)
    case Leaf(_) => true
  }

  predicate AllSolid(es: seq<Error>) {
    es == [] || (AllSolid(es[..|es| - 1]) && Solid(es[|es| - 1]))
  }

  predicate Expected(e: Error, includeEof: bool) {
    e.Leaf? && IsExpected(e.cause, includeEof)
  }

  /** Leaves nobody expects: what pruning is to keep. Wrappers around nothing fail without a leaf. */
  function Surprises(es: seq<Error>, includeEof: bool): seq<Error> {
    if es == [] then []
    else
      var last := es[|es| - 1];
      Surprises(es[..|es| - 1], includeEof) + if Expected(last, includeEof) then [] else [last]
  }

  function Leaves(es: seq<Error>): seq<Error> {
    if es == [] then [] else Leaves(es[..|es| - 1]) + if es[|es| - 1].Leaf? then [es[|es| - 1]] else []
  }

  function NotDetached(es: seq<Error>): seq<Error> {
    if es == [] then []
    else NotDetached(es[..|es| - 1]) + if es[|es| - 1] == DETACHED then [] else [es[|es| - 1]]
  }

  lemma {:induction false} SurprisesConcat(a: seq<Error>, b: seq<Error>, includeEof: bool)
    ensures Surprises(a + b, includeEof) == Surprises(a, includeEof) + Surprises(b, includeEof)
  {
    if b == [] {
      assert a + b == a;
    } else {
      assert (a + b)[..|a + b| - 1] == a + b[..|b| - 1];
      SurprisesConcat(a, b[..|b| - 1], includeEof);
    }
  }

  lemma {:induction false} LeavesConcat(a: seq<Error>, b: seq<Error>)
    ensures Leaves(a + b) == Leaves(a) + Leaves(b)
  {
    if b == [] {
      assert a + b == a;
    } else {
      assert (a + b)[..|a + b| - 1] == a + b[..|b| - 1];
      LeavesConcat(a, b[..|b| - 1]);
    }
  }

  lemma {:induction false} NotDetachedConcat(a: seq<Error>, b: seq<Error>)
    ensures NotDetached(a + b) == NotDetached(a) + NotDetached(b)
  {
    if b == [] {
      assert a + b == a;
    } else {
      assert (a + b)[..|a + b| - 1] == a + b[..|b| - 1];
      NotDetachedConcat(a, b[..|b| - 1]);
    }
  }

  lemma {:induction false} FlatNonNil(es: seq<Error>, deep: bool)
    ensures FlatAll(NonNil(es), deep) == FlatAll(es, deep)
  {
    if es != [] {
      var rest, last := es[..|es| - 1], es[|es| - 1];
      FlatNonNil(rest, deep);
      if last.Nil? {
        assert NonNil(es) == NonNil(rest);
        assert FlatAll(es, deep) == FlatAll(rest, deep);
      } else {
        assert (NonNil(rest) + [last])[..|NonNil(rest)|] == NonNil(rest);
      }
    }
  }

  /** Joining keeps every failure, in order. */
  lemma FlatJoin(es: seq<Error>, deep: bool)
    ensures Flat(Join(es), deep) == FlatAll(es, deep)
  {
    FlatNonNil(es, deep);
  }

  /** Every leaf of a tree with the messages of the wrappers it is in, outermost first. */
  function Trails(e: Error, above: seq<string>): set<(seq<string>, Cause)> {
    match e
    case Nil => {}
    case Joined(children) => TrailsAll(children, above)
    case Wrapped(message, inner) => Trails(inner, above + [message])
    case Leaf(cause) => {(above, cause)}
  }

  function TrailsAll(es: seq<Error>, above: seq<string>): set<(seq<string>, Cause)> {
    if es == [] then {} else TrailsAll(es[..|es| - 1], above) + Trails(es[|es| - 1], above)
  }

  /** A leaf is pruned exactly if the shutdown explains it, an end of stream only with the flag; what stays keeps its wrappers. */
  lemma {:induction false} PruningKeepsTrails(e: Error, includeEof: bool, above: seq<string>, path: seq<string>, cause: Cause)
    ensures (path, cause) in Trails(Pruned(e, includeEof), above) <==>
              (path, cause) in Trails(e, above) && !cause.Shutdown? && !(includeEof && cause.EndOfStream?)
    decreases e
  {
    match e
    case Nil =>
    case Joined(children) =>
      PruningKeepsAllTrails(children, includeEof, above, path, cause);
      TrailsNonNil(PrunedAll(children, includeEof), above);
    case Wrapped(message, inner) => PruningKeepsTrails(inner, includeEof, above + [message], path, cause);
    case Leaf(_) =>
  }

  lemma {:induction false} PruningKeepsAllTrails(es: seq<Error>, includeEof: bool, above: seq<string>, path: seq<string>, cause: Cause)
    ensures (path, cause) in TrailsAll(PrunedAll(es, includeEof), above) <==>
              (path, cause) in TrailsAll(es, above) && !cause.Shutdown? && !(includeEof && cause.EndOfStream?)
    decreases es
  {
    if es != [] {
      PruningKeepsAllTrails(es[..|es| - 1], includeEof, above, path, cause);
      PruningKeepsTrails(es[|es| - 1], includeEof, above, path, cause);
      var p := PrunedAll(es[..|es| - 1], includeEof);
      assert PrunedAll(es, includeEof)[..|p|] == p;
    }
  }

  lemma {:induction false} TrailsNonNil(es: seq<Error>, above: seq<string>)
    ensures TrailsAll(NonNil(es), above) == TrailsAll(es, above) == Trails(Join(es), above)
  {
    if es != [] {
      var rest, last := es[..|es| - 1], es[|es| - 1];
      TrailsNonNil(rest, above);
      if last.Nil? {
        assert NonNil(es) == NonNil(rest);
      } else {
        assert NonNil(es)[..|NonNil(rest)|] == NonNil(rest);
      }
    }
  }

  /** Pruning keeps exactly the unexpected leaves, in order. */
  lemma {:induction false} PruningKeepsLeaves(e: Error, includeEof: bool)
    ensures Flat(Pruned(e, includeEof), true) == Leaves(Surprises(Flat(e, true), includeEof))
    decreases e
  {
    match e
    case Nil =>
    case Joined(children) =>
      PruningKeepsAll(children, includeEof);
      FlatJoin(PrunedAll(children, includeEof), true);
    case Wrapped(_, inner) =>
      PruningKeepsLeaves(inner, includeEof);
      PrunedHasLeaves(inner, includeEof);
      if inner.Nil? {
        assert [e][..0] == [];
      }
    case Leaf(_) =>
      assert [e][..0] == [];
  }

  lemma {:induction false} PruningKeepsAll(es: seq<Error>, includeEof: bool)
    ensures FlatAll(PrunedAll(es, includeEof), true) == Leaves(Surprises(FlatAll(es, true), includeEof))
    decreases es
  {
    if es != [] {
      var rest, last := es[..|es| - 1], es[|es| - 1];
      PruningKeepsAll(rest, includeEof);
      PruningKeepsLeaves(last, includeEof);
      var p := PrunedAll(rest, includeEof);
      assert (p + [Pruned(last, includeEof)])[..|p|] == p;
      SurprisesConcat(FlatAll(rest, true), Flat(last, true), includeEof);
      LeavesConcat(Surprises(FlatAll(rest, true), includeEof), Surprises(Flat(last, true), includeEof));
    }
  }

  /** There is an error left exactly if there is a failure left. */
  lemma {:induction false} PrunedHasLeaves(e: Error, includeEof: bool)
    ensures Pruned(e, includeEof).Nil? <==> Flat(Pruned(e, includeEof), true) == []
    decreases e
  {
    match e
    case Nil =>
    case Joined(children) =>
      PrunedAllHaveLeaves(children, includeEof);
      FlatJoin(PrunedAll(children, includeEof), true);
    case Wrapped(_, inner) =>
      PrunedHasLeaves(inner, includeEof);
    case Leaf(_) =>
  }

  lemma {:induction false} PrunedAllHaveLeaves(es: seq<Error>, includeEof: bool)
    ensures NonNil(PrunedAll(es, includeEof)) == [] <==> FlatAll(PrunedAll(es, includeEof), true) == []
    decreases es
  {
    if es != [] {
      var rest, last := es[..|es| - 1], es[|es| - 1];
      PrunedAllHaveLeaves(rest, includeEof);
      PrunedHasLeaves(last, includeEof);
      var p := PrunedAll(rest, includeEof);
      assert (p + [Pruned(last, includeEof)])[..|p|] == p;
    }
  }

  // ---- exactly when nothing is lost

  lemma {:induction false} LeavesShorter(es: seq<Error>)
    ensures |Leaves(es)| <= |es|
    ensures Leaves(es) == es <==> forall i :: 0 <= i < |es| ==> es[i].Leaf?
  {
    if es != [] {
      var rest, last := es[..|es| - 1], es[|es| - 1];
      LeavesShorter(rest);
      assert es == rest + [last];
      if last.Leaf? {
        assert Leaves(es)[..|Leaves(es)| - 1] == Leaves(rest);
        assert Leaves(es) == es ==> Leaves(rest) == es[..|es| - 1];
      }
    }
  }

  predicate AllLeaves(es: seq<Error>) {
    forall i :: 0 <= i < |es| ==> es[i].Leaf?
  }

  lemma {:induction false} SolidHasLeaves(e: Error)
    ensures Solid(e) <==> AllLeaves(Flat(e, true))
    decreases e
  {
    match e
    case Nil =>
    case Joined(children) => AllSolidHaveLeaves(children);
    case Wrapped(_, inner) =>
      if inner.Nil? {
        assert Flat(e, true)[0] == e;
      } else {
        SolidHasLeaves(inner);
      }
    case Leaf(_) =>
  }

  lemma {:induction false} AllSolidHaveLeaves(es: seq<Error>)
    ensures AllSolid(es) <==> AllLeaves(FlatAll(es, true))
    decreases es
  {
    if es != [] {
      var rest, last := es[..|es| - 1], es[|es| - 1];
      AllSolidHaveLeaves(rest);
      SolidHasLeaves(last);
      LeavesOfConcat(FlatAll(rest, true), Flat(last, true));
    }
  }

  lemma LeavesOfConcat(a: seq<Error>, b: seq<Error>)
    ensures AllLeaves(a + b) <==> AllLeaves(a) && AllLeaves(b)
  {
    assert forall i :: 0 <= i < |a| ==> (a + b)[i] == a[i];
    assert forall i :: 0 <= i < |b| ==> (a + b)[|a| + i] == b[i];
  }

  lemma {:induction false} SurprisesOfLeaves(es: seq<Error>, includeEof: bool)
    ensures AllLeaves(Surprises(es, includeEof)) <==> AllLeaves(es)
  {
    if es != [] {
      var rest, last := es[..|es| - 1], es[|es| - 1];
      SurprisesOfLeaves(rest, includeEof);
      assert es == rest + [last];
      LeavesOfConcat(rest, [last]);
      assert [last][0] == last;
      LeavesOfConcat(Surprises(rest, includeEof), if Expected(last, includeEof) then [] else [last]);
    }
  }

  /**
   * Pruning keeps every failure nobody expected exactly if no wrapper in the
   * tree is empty; an empty one is a failure that pruning drops unseen.
   */
  lemma NothingLostIffSolid(e: Error, includeEof: bool)
    ensures Flat(Pruned(e, includeEof), true) == Surprises(Flat(e, true), includeEof) <==> Solid(e)
  {
    var s := Surprises(Flat(e, true), includeEof);
    PruningKeepsLeaves(e, includeEof);
    LeavesShorter(s);
    SurprisesOfLeaves(Flat(e, true), includeEof);
    SolidHasLeaves(e);
    assert AllLeaves(s) <==> Leaves(s) == s;
  }

  /** And then there is no error left exactly if every failure was expected. */
  lemma NilIffAllExpected(e: Error, includeEof: bool)
    requires Solid(e)
    ensures Pruned(e, includeEof).Nil? <==> Surprises(Flat(e, true), includeEof) == []
  {
    NothingLostIffSolid(e, includeEof);
    PrunedHasLeaves(e, includeEof);
  }

  /** An empty wrapper is lost, though it is an error. */
  lemma EmptyWrapperIsLost(message: string)
    ensures Pruned(Wrapped(message, Nil), false) == Nil
    ensures Surprises(Flat(Wrapped(message, Nil), true), false) == [Wrapped(message, Nil)]
  {
    var e := Wrapped(message, Nil);
    assert [e][..0] == [];
  }

  /** Taking out the detach request takes out nothing else; one inside a wrapper stays. */
  lemma {:induction false} UndetachingKeepsTheRest(e: Error)
    ensures Flat(Undetached(e), false) == NotDetached(Flat(e, false))
    ensures Undetached(e).Nil? <==> NotDetached(Flat(e, false)) == []
    decreases e
  {
    match e
    case Nil =>
    case Joined(children) =>
      UndetachingKeepsAll(children);
      FlatJoin(UndetachedAll(children), false);
    case Wrapped(_, _) => assert [e][..0] == [];
    case Leaf(_) => assert [e][..0] == [];
  }

  lemma {:induction false} UndetachingKeepsAll(es: seq<Error>)
    ensures FlatAll(UndetachedAll(es), false) == NotDetached(FlatAll(es, false))
    ensures NonNil(UndetachedAll(es)) == [] <==> NotDetached(FlatAll(es, false)) == []
    decreases es
  {
    if es != [] {
      var rest, last := es[..|es| - 1], es[|es| - 1];
      UndetachingKeepsAll(rest);
      UndetachingKeepsTheRest(last);
      var u := UndetachedAll(rest);
      assert (u + [Undetached(last)])[..|u|] == u;
      NotDetachedConcat(FlatAll(rest, false), Flat(last, false));
    }
  }

  // ---- the end of an attachment

  /** What the attach loop's first select received from. */
  datatype Selected = Cancelled | FromResize | FromFrames | FromInput | FromView

  /** The one result a worker sends, and the results taken from its channel so far. */
  class Channel {
    var buffered: bool
    var value: Error
    ghost var received: seq<Error>

    constructor (value: Error, buffered: bool)
      ensures this.buffered == buffered && this.value == value && received == []
    {
      this.buffered, this.value, received := buffered, value, [];
    }

    method Receive() returns (e: Error)
      requires buffered
      modifies this
      ensures e == value == old(value) && !buffered && received == old(received) + [e]
    {
      buffered := false;
      received := received + [value];
      return value;
    }
  }

  function Added(result: Error, e: Error): Error {
    if e.Nil? then result else Join([result, e])
  }

  /** Joining adds the new error's failures after those there were. */
  lemma AddedFailures(result: Error, e: Error, deep: bool)
    ensures Flat(Added(result, e), deep) == Flat(result, deep) + Flat(e, deep)
  {
    if !e.Nil? {
      var es := [result, e];
      FlatJoin(es, deep);
      assert es[..1] == [result] && es[..1][..0] == [];
      assert FlatAll(es[..1], deep) == Flat(result, deep);
    }
  }

  /** What one worker's result contributes: what pruning with its flag leaves, or all of it if it was taken as it is. */
  function Part(e: Error, raw: bool, includeEof: bool, deep: bool): seq<Error> {
    Flat(if raw then e else Pruned(e, includeEof), deep)
  }

  /**
   * One attachment's end: what the workers report, nil for a resize or view
   * that never fails, and in which order it is seen.
   */
  datatype Arrivals = Arrivals(
    selected: Selected,
    ctxErr: Error,
    framesReady: bool,
    inputReady: bool,
    detached: bool,
    frames: Error,
    input: Error,
    resize: Error,
    view: Error)
  {
    predicate Possible() {
      && (selected.FromResize? ==> !resize.Nil?)
      && (selected.FromView? ==> !view.Nil?)
      && (selected.Cancelled? ==> !ctxErr.Nil?)
    }

    predicate Shutting() { !ctxErr.Nil? }

    predicate FramesSeen() { selected.FromFrames? || framesReady }

    /** The selected result stands as it is, or follows the context's error. */
    function First(deep: bool): seq<Error> {
      Flat(ctxErr, deep)
      + match selected
        case Cancelled => Part(ctxErr, false, true, deep)
        case FromResize => Part(resize, !Shutting(), true, deep)
        case FromInput => Part(input, !Shutting(), true, deep)
        case FromView => Part(view, !Shutting(), true, deep)
        case FromFrames => []
    }

    function EarlyInput(deep: bool): seq<Error> {
      if !selected.FromInput? && inputReady then Part(input, false, Shutting(), deep) else []
    }

    function Resize(deep: bool): seq<Error> {
      if selected.FromResize? then [] else Part(resize, false, true, deep)
    }

    function LateInput(deep: bool): seq<Error> {
      if !selected.FromInput? && !inputReady then Part(input, false, true, deep) else []
    }

    function Frames(deep: bool): seq<Error> {
      Part(frames, false, Shutting() || !FramesSeen() || detached, deep)
    }

    function Survivors(deep: bool): seq<Error> {
      First(deep) + EarlyInput(deep) + Resize(deep) + LateInput(deep) + Frames(deep)
    }
  }

  /** The workers of an attachment, each with a channel for its one result. */
  class Workers {
    const frames: Channel
    const input: Channel
    const resize: Channel
    const view: Channel
    var result: Error

    /** Every worker's result is on its way and none was received. */
    ghost predicate Pending(a: Arrivals)
      reads this, frames, input, resize, view
    {
      && frames != input && frames != resize && frames != view && input != resize && input != view && resize != view
      && frames.buffered && frames.value == a.frames && frames.received == []
      && input.buffered && input.value == a.input && input.received == []
      && resize.buffered == !a.resize.Nil? && resize.value == a.resize && resize.received == []
      && view.buffered == !a.view.Nil? && view.value == a.view && view.received == []
      && result.Nil?
    }

    constructor (a: Arrivals)
      ensures Pending(a) && fresh(frames) && fresh(input) && fresh(resize) && fresh(view)
    {
      frames := new Channel(a.frames, true);
      input := new Channel(a.input, true);
      resize := new Channel(a.resize, !a.resize.Nil?);
      view := new Channel(a.view, !a.view.Nil?);
      result := Nil;
    }

    method JoinWorkerError(e: Error, includeEof: bool)
      modifies `result
      ensures forall deep :: Flat(result, deep) == Flat(old(result), deep) + Part(e, false, includeEof, deep)
    {
      var kept := WithoutExpectedShutdownErrors(e, includeEof);
      forall deep ensures Flat(Added(result, kept), deep) == Flat(result, deep) + Flat(kept, deep) {
        AddedFailures(result, kept, deep);
      }
      if !kept.Nil? {
        result := Join([result, kept]);
      }
    }

    /** A context that is done puts its error in front, and makes the rest subject to pruning. */
    method Shut(ctxErr: Error)
      modifies `result
      ensures forall deep :: Flat(result, deep) ==
                if ctxErr.Nil? then Flat(old(result), deep) else Flat(ctxErr, deep) + Part(old(result), false, true, deep)
    {
      if !ctxErr.Nil? {
        var selected := result;
        result := ctxErr;
        JoinWorkerError(selected, true);
      }
    }

    /** The first select, and what the context then has to say. */
    method Select(a: Arrivals) returns (frameResult: Error)
      requires a.Possible() && Pending(a)
      modifies `result, frames, input, resize, view
      ensures forall deep :: Flat(result, deep) == a.First(deep)
      ensures a.selected.FromFrames? ==> frameResult == a.frames
      ensures frames.received == (if a.selected.FromFrames? then [a.frames] else [])
      ensures frames.buffered == !a.selected.FromFrames? && frames.value == a.frames
      ensures input.received == (if a.selected.FromInput? then [a.input] else [])
      ensures input.buffered == !a.selected.FromInput? && input.value == a.input
      ensures resize.received == (if a.selected.FromResize? then [a.resize] else [])
      ensures resize.buffered == (!a.selected.FromResize? && !a.resize.Nil?) && resize.value == a.resize
    {
      frameResult := Nil;
      match a.selected {
        case Cancelled => result := a.ctxErr;
        case FromResize => result := resize.Receive();
        case FromFrames => frameResult := frames.Receive();
        case FromInput => result := input.Receive();
        case FromView => result := view.Receive();
      }
      Shut(a.ctxErr);
    }

    /** Takes the results of frames and input that are there already, without waiting. */
    method Poll(a: Arrivals, selectedFrames: Error) returns (frameResult: Error)
      requires frames != input
      requires a.selected.FromFrames? ==> selectedFrames == a.frames
      requires !a.selected.FromFrames? ==> frames.buffered && frames.value == a.frames && frames.received == []
      requires !a.selected.FromInput? ==> input.buffered && input.value == a.input && input.received == []
      requires forall deep :: Flat(result, deep) == a.First(deep)
      modifies `result, frames, input
      ensures forall deep :: Flat(result, deep) == a.First(deep) + a.EarlyInput(deep)
      ensures a.FramesSeen() ==> frameResult == a.frames
      ensures if a.selected.FromFrames? || !a.framesReady
              then frames.received == old(frames.received) && frames.buffered == old(frames.buffered) && frames.value == old(frames.value)
              else frames.received == [a.frames]
      ensures if a.selected.FromInput? || !a.inputReady
              then input.received == old(input.received) && input.buffered == old(input.buffered) && input.value == old(input.value)
              else input.received == [a.input]
    {
      hide Pruned, Flat, Part, a.First;
      frameResult := selectedFrames;
      if !a.selected.FromFrames? && a.framesReady {
        frameResult := frames.Receive();
      }
      if !a.selected.FromInput? && a.inputReady {
        var e := input.Receive();
        JoinWorkerError(e, a.Shutting());
      }
    }

    /** Once the resize worker has stopped, its error is there or never comes. */
    method TakeResize(a: Arrivals)
      requires !a.selected.FromResize? ==> resize.buffered == !a.resize.Nil? && resize.value == a.resize && resize.received == []
      requires a.selected.FromResize? ==> resize.received == [a.resize] && !a.resize.Nil?
      modifies `result, resize
      ensures resize.received == if a.resize.Nil? then [] else [a.resize]
      ensures forall deep :: Flat(result, deep) == Flat(old(result), deep) + a.Resize(deep)
    {
      hide Pruned, Flat, Part;
      if !a.selected.FromResize? && resize.buffered {
        var e := resize.Receive();
        JoinWorkerError(e, true);
      } else {
        NothingLeft(true);
      }
    }

    /** Waits for the input worker unless its result was taken. */
    method TakeInput(a: Arrivals)
      requires if a.selected.FromInput? || a.inputReady then input.received == [a.input]
               else input.buffered && input.value == a.input && input.received == []
      modifies `result, input
      ensures input.received == [a.input]
      ensures forall deep :: Flat(result, deep) == Flat(old(result), deep) + a.LateInput(deep)
    {
      hide Pruned, Flat, Part;
      if !a.selected.FromInput? && !a.inputReady {
        var e := input.Receive();
        JoinWorkerError(e, true);
      }
    }

    /**
     * From the first select to the joined result. The results of frames and
     * input are received exactly once, a resize error once if there is one;
     * and what is in the result is exactly, in order, what the flag used for
     * each of them leaves of it.
     */
    method Collect(a: Arrivals) returns (streamTerminated: bool)
      requires a.Possible() && Pending(a)
      modifies `result, frames, input, resize, view
      ensures frames.received == [a.frames] && input.received == [a.input]
      ensures resize.received == if a.resize.Nil? then [] else [a.resize]
      ensures streamTerminated == (a.FramesSeen() && !a.Shutting())
      ensures forall deep :: Flat(result, deep) == a.Survivors(deep)
    {
      hide Pruned, Flat, Part, a.First, a.EarlyInput, a.Resize, a.LateInput;
      var frameResult := Select(a);
      frameResult := Poll(a, frameResult);
      var frameDone := a.FramesSeen();
      streamTerminated := frameDone && !a.Shutting();
      TakeResize(a);
      if !frameDone {
        frameResult := frames.Receive();
      }
      TakeInput(a);
      JoinWorkerError(frameResult, a.Shutting() || !frameDone || a.detached);
    }
  }

  const CLOSE_STREAM := "attach: close stream"

  /** What closing the stream adds: its error, unless the shutdown itself explains it. */
  function CloseFailure(closeErr: Error): Error {
    var kept := Pruned(closeErr, false);
    if kept.Nil? then Nil else Wrapped(CLOSE_STREAM, kept)
  }

  /**
   * What the deferred cleanups add, and what the caller gets to see of it all:
   * everything but the detach request, and behind it a failure to close the
   * stream.
   */
  method Conclude(result: Error, finishErr: Error, restoreErr: Error, closeErr: Error) returns (r: Error)
    ensures var seen := NotDetached(Flat(result, false) + Flat(finishErr, false) + Flat(restoreErr, false));
            && Flat(r, false) == seen + Flat(CloseFailure(closeErr), false)
            && (r.Nil? <==> seen == [] && CloseFailure(closeErr).Nil?)
  {
    hide Flat, NotDetached, Pruned, Undetached;
    var all := result;
    AddedFailures(all, finishErr, false);
    if !finishErr.Nil? {
      all := Join([all, finishErr]);
    }
    AddedFailures(all, restoreErr, false);
    if !restoreErr.Nil? {
      all := Join([all, restoreErr]);
    }
    NilIsFlat();
    UndetachingKeepsTheRest(all);
    r := WithoutAttachDetached(all);
    var kept := WithoutExpectedShutdownErrors(closeErr, false);
    AddedFailures(r, CloseFailure(closeErr), false);
    if !kept.Nil? {
      JoinsSomething(r, Wrapped(CLOSE_STREAM, kept));
      r := Join([r, Wrapped(CLOSE_STREAM, kept)]);
    }
  }

  lemma NilIsFlat()
    ensures Flat(Nil, false) == []
  {
  }

  lemma JoinsSomething(e: Error, x: Error)
    requires !x.Nil?
    ensures !Join([e, x]).Nil?
  {
    assert [e, x][..1] == [e];
  }

  /** Nothing is missing from a failure to close but what a shutdown explains. */
  lemma CloseFailureKeeps(closeErr: Error)
    ensures Flat(CloseFailure(closeErr), true) == Leaves(Surprises(Flat(closeErr, true), false))
  {
    PruningKeepsLeaves(closeErr, false);
    PrunedHasLeaves(closeErr, false);
  }

  /**
   * A detach is reported to the caller as success in whichever order the
   * request, and the end of the stream that acknowledges it, were seen.
   */
  lemma DetachSucceeds(a: Arrivals, message: string)
    requires a.Possible() && a.ctxErr.Nil? && a.detached
    requires a.input == DETACHED && a.resize.Nil? && a.view.Nil?
    requires a.frames == Wrapped(message, Leaf(EndOfStream)) || a.frames == Wrapped(message, Leaf(Shutdown)) || a.frames.Nil?
    ensures NotDetached(a.Survivors(false)) == []
  {
    NothingLeft(true);
    NothingLeft(false);
    assert Part(DETACHED, true, true, false) == Part(DETACHED, false, true, false) == Part(DETACHED, false, false, false) == [DETACHED];
    assert Pruned(a.frames, true).Nil? by {
      assert Pruned(Leaf(EndOfStream), true).Nil? && Pruned(Leaf(Shutdown), true).Nil?;
    }
    assert a.Frames(false) == [];
    assert a.Survivors(false) == [DETACHED];
    assert [DETACHED][..0] == [];
  }

  /**
   * Every leaf that the flag used for its worker does not expect reaches the
   * result, provided that worker's errors wrap something.
   */
  lemma UnexpectedSurvive(a: Arrivals, x: Error)
    requires a.Possible()
    requires Solid(a.frames) && Solid(a.input) && Solid(a.resize) && Solid(a.view)
    ensures x in Surprises(Flat(a.frames, true), a.Shutting() || !a.FramesSeen() || a.detached) ==> x in a.Survivors(true)
    ensures x in Surprises(Flat(a.input, true), a.Shutting() || !(a.selected.FromInput? || a.inputReady)) ==> x in a.Survivors(true)
    ensures x in Surprises(Flat(a.resize, true), true) ==> x in a.Survivors(true)
    ensures a.selected.FromView? && x in Surprises(Flat(a.view, true), true) ==> x in a.Survivors(true)
  {
    hide Flat, Pruned, Surprises, Solid;
    RawKeepsAll(a.frames, x, true);
    RawKeepsAll(a.frames, x, false);
    RawKeepsAll(a.input, x, true);
    RawKeepsAll(a.input, x, false);
    RawKeepsAll(a.resize, x, true);
    RawKeepsAll(a.view, x, true);
  }

  /**
   * And nothing else reaches it: the context's error, and of each worker what
   * the flag used for it does not expect. Only a result selected while nothing
   * was shutting down stands unpruned.
   */
  lemma OnlyUnexpectedSurvive(a: Arrivals, x: Error)
    requires x in a.Survivors(true)
    ensures || x in Flat(a.ctxErr, true)
            || (x in Flat(a.frames, true) && !Expected(x, a.Shutting() || !a.FramesSeen() || a.detached))
            || (x in Flat(a.input, true)
                && (if a.selected.FromInput? then !a.Shutting() || !Expected(x, true)
                    else !Expected(x, a.Shutting() || !a.inputReady)))
            || (x in Flat(a.resize, true) && ((a.selected.FromResize? && !a.Shutting()) || !Expected(x, true)))
            || (a.selected.FromView? && x in Flat(a.view, true) && (!a.Shutting() || !Expected(x, true)))
  {
    hide Flat, Pruned, Expected;
    forall e, raw, includeEof | e in {a.ctxErr, a.frames, a.input, a.resize, a.view} && x in Part(e, raw, includeEof, true)
      ensures x in Flat(e, true) && (raw || !Expected(x, includeEof))
    {
      PartIsUnexpected(e, raw, includeEof, x);
    }
  }

  lemma PartIsUnexpected(e: Error, raw: bool, includeEof: bool, x: Error)
    requires x in Part(e, raw, includeEof, true)
    ensures x in Flat(e, true) && (raw || !Expected(x, includeEof))
  {
    if !raw {
      PruningKeepsLeaves(e, includeEof);
      LeafIsUnexpected(Flat(e, true), includeEof, x);
    }
  }

  lemma {:induction false} LeafIsUnexpected(es: seq<Error>, includeEof: bool, x: Error)
    requires x in Leaves(Surprises(es, includeEof))
    ensures x in es && !Expected(x, includeEof)
  {
    if es != [] {
      var last := es[|es| - 1];
      var s := Surprises(es[..|es| - 1], includeEof);
      var end := if Expected(last, includeEof) then [] else [last];
      LeavesConcat(s, end);
      if x in Leaves(s) {
        LeafIsUnexpected(es[..|es| - 1], includeEof, x);
      }
    }
  }

  lemma RawKeepsAll(e: Error, x: Error, includeEof: bool)
    requires Solid(e)
    ensures x in Surprises(Flat(e, true), includeEof) ==> x in Part(e, false, includeEof, true) && x in Part(e, true, includeEof, true)
  {
    NothingLostIffSolid(e, includeEof);
    SurprisesAreFailures(Flat(e, true), x, includeEof);
  }

  lemma {:induction false} SurprisesAreFailures(es: seq<Error>, x: Error, includeEof: bool)
    ensures x in Surprises(es, includeEof) ==> x in es
  {
    if es != [] {
      SurprisesAreFailures(es[..|es| - 1], x, includeEof);
    }
  }

  lemma NothingLeft(includeEof: bool)
    ensures forall deep :: Part(Nil, false, includeEof, deep) == []
  {
  }
}
