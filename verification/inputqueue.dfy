/**
 * The queue between attached clients and the session's PTY. Clients append
 * under the lock; the pump writes a copy without it, and removes what was
 * written afterwards, so the cap also counts what is being written.
 */
module InputQueue {
  import opened Bytes

  const CAP: nat := 0x4_0000

  /** What others do while the pump is not holding the lock. */
  datatype Action = Enqueue(p: bytes) | Close | End

  datatype WriteError = Fine | Expected | Unexpected

  /** How a write of the PTY ends: some bytes taken, and an error or none. */
  datatype Write = Write(n: nat, error: WriteError)

  /** The write took everything it was given. */
  predicate IsWhole(w: Write, chunk: bytes) {
    w.error.Fine? && w.n >= |chunk|
  }

  /** What a write takes of what it is given. */
  function Taken(w: Write, chunk: bytes): bytes {
    if w.n > |chunk| then chunk else chunk[..w.n]
  }

  /** What was handed to each write, in order: all of them were whole but, if the pump was stopped, the last. */
  predicate Rounds(writes: seq<Write>, chunks: seq<bytes>, stopped: bool) {
    && |chunks| <= |writes|
    && (stopped ==> |chunks| > 0)
    && forall i :: 0 <= i < |chunks| ==>
         chunks[i] != [] && (IsWhole(writes[i], chunks[i]) <==> !(stopped && i == |chunks| - 1))
  }

  function TakenAll(writes: seq<Write>, chunks: seq<bytes>): bytes
    requires |chunks| <= |writes|
  {
    if chunks == [] then []
    else TakenAll(writes, chunks[..|chunks| - 1]) + Taken(writes[|chunks| - 1], chunks[|chunks| - 1])
  }

  datatype InputError = WriteFailed | ShortWrite

  datatype Exit = Drained | Stopped | Running

  class Session {
    var inputBuf: bytes
    var ended: bool
    var closing: bool
    var inputErr: seq<InputError>
    /** What others do at each of the pump's unlocked moments, and how its writes end. */
    var others: seq<seq<Action>>
    var writes: seq<Write>
    /** The payloads accepted so far, the bytes the PTY took, and the copy being written. */
    ghost var accepted: seq<bytes>
    ghost var written: bytes
    ghost var inFlight: bytes

    ghost predicate Valid()
      reads `inputBuf, `accepted, `written, `inFlight
    {
      && written + inputBuf == Concat(accepted)
      && |inputBuf| <= CAP
      && inFlight <= inputBuf
    }

    constructor (others: seq<seq<Action>>, writes: seq<Write>)
      ensures Valid() && inputBuf == [] && accepted == [] && written == [] && inFlight == []
      ensures !ended && !closing && inputErr == [] && this.others == others && this.writes == writes
    {
      inputBuf, ended, closing, inputErr := [], false, false, [];
      this.others, this.writes := others, writes;
      accepted, written, inFlight := [], [], [];
    }

    predicate Refuses(p: bytes)
      reads `inputBuf, `ended, `closing
    {
      p == [] || ended || closing || |inputBuf| + |p| > CAP
    }

    /** A payload joins the queue whole, or not at all. */
    method QueueInput(p: bytes)
      requires Valid()
      modifies `inputBuf, `accepted
      ensures Valid()
      ensures if old(Refuses(p)) then accepted == old(accepted) && inputBuf == old(inputBuf)
              else accepted == old(accepted) + [p] && inputBuf == old(inputBuf) + p
    {
      if |p| == 0 {
        return;
      }
      if ended || closing {
        return;
      }
      if |inputBuf| + |p| > CAP {
        return;
      }
      ConcatSnoc(accepted, p);
      accepted := accepted + [p];
      inputBuf := inputBuf + p;
    }

    /** The lock is free for others. Queued bytes stay, and stay in front. */
    method Unlocked()
      requires Valid()
      modifies `inputBuf, `ended, `closing, `others, `accepted
      ensures Valid() && old(inputBuf) <= inputBuf && old(accepted) <= accepted && (old(ended) ==> ended)
      ensures old(ended) ==> accepted == old(accepted) && inputBuf == old(inputBuf)
      ensures others == if old(others) == [] then [] else old(others)[1..]
      ensures old(others) == [] ==> inputBuf == old(inputBuf) && accepted == old(accepted) && ended == old(ended)
    {
      if others == [] {
        return;
      }
      var actions := others[0];
      others := others[1..];
      for i := 0 to |actions|
        invariant Valid() && old(inputBuf) <= inputBuf && old(accepted) <= accepted && (old(ended) ==> ended)
        invariant old(ended) ==> accepted == old(accepted) && inputBuf == old(inputBuf)
        invariant others == old(others)[1..]
      {
        match actions[i] {
          case Enqueue(p) => QueueInput(p);
          case Close => closing := true;
          case End => ended := true;
        }
      }
    }

    /** The write is over: what it took leaves the queue's front, and a failure is recorded. */
    method Written(w: Write, chunk: bytes) returns (whole: bool)
      requires Valid() && inFlight == chunk
      modifies `inputBuf, `inputErr, `written, `inFlight
      ensures Valid() && inFlight == []
      ensures whole == IsWhole(w, chunk)
      ensures written == old(written) + Taken(w, chunk) && inputBuf == old(inputBuf)[|Taken(w, chunk)|..]
      ensures inputErr == old(inputErr) + (if w.error.Unexpected? then [WriteFailed]
                                           else if w.error.Fine? && !whole then [ShortWrite] else [])
    {
      hide Concat;
      var n := if w.n > |chunk| then |chunk| else w.n;
      assert inputBuf[..n] == chunk[..n] == Taken(w, chunk);
      assert written + inputBuf == (written + chunk[..n]) + inputBuf[n..];
      if n > 0 {
        inputBuf := inputBuf[n..];
      }
      written := written + chunk[..n];
      inFlight := [];
      if !w.error.Fine? {
        if w.error.Unexpected? {
          inputErr := inputErr + [WriteFailed];
        }
      } else if n != |chunk| {
        inputErr := inputErr + [ShortWrite];
      }
      return w.error.Fine? && n == |chunk|;
    }

    /** One round of the pump, from a queue with bytes: copy, write unlocked, remove what was written. */
    method WriteQueued() returns (whole: bool)
      requires Valid() && inFlight == [] && inputBuf != [] && writes != []
      modifies `inputBuf, `ended, `closing, `inputErr, `others, `writes, `accepted, `written, `inFlight
      ensures Valid() && inFlight == [] && (old(ended) ==> ended && accepted == old(accepted)) && old(accepted) <= accepted
      ensures writes == old(writes)[1..]
      ensures others == if old(others) == [] then [] else old(others)[1..]
      ensures whole == IsWhole(old(writes)[0], old(inputBuf))
      ensures written == old(written) + Taken(old(writes)[0], old(inputBuf))
      ensures whole && (old(others) == [] || old(ended)) ==> inputBuf == []
      ensures whole ==> inputErr == old(inputErr)
      ensures inputErr == old(inputErr) + (if old(writes)[0].error.Unexpected? then [WriteFailed]
                                           else if old(writes)[0].error.Fine? && !whole then [ShortWrite] else [])
    {
      hide Concat;
      var chunk := inputBuf;
      inFlight := chunk;
      Unlocked();
      var w := writes[0];
      writes := writes[1..];
      whole := Written(w, chunk);
    }

    /** Waits for input, or for the end of the session, or for nothing more to happen. */
    method Await()
      requires Valid()
      modifies `inputBuf, `ended, `closing, `others, `accepted
      ensures Valid()
      ensures inputBuf != [] || ended || others == []
      ensures |others| <= |old(others)|
      ensures old(inputBuf) != [] || old(ended) ==>
                inputBuf == old(inputBuf) && ended == old(ended) && others == old(others) && accepted == old(accepted)
      ensures old(others) == [] ==> inputBuf == old(inputBuf)
    {
      while inputBuf == [] && !ended && others != []
        invariant Valid() && |others| <= |old(others)|
        invariant old(inputBuf) != [] || old(ended) ==>
                    inputBuf == old(inputBuf) && ended == old(ended) && others == old(others) && accepted == old(accepted)
        invariant old(others) == [] ==> others == [] && inputBuf == old(inputBuf)
        decreases |others|
      {
        Unlocked();
      }
    }

    /**
     * The pump. Whatever is queued while it waits or writes, the PTY takes the
     * accepted payloads in order, as much of them as its writes take. It stops
     * only for a write that failed or was short, and otherwise goes on until
     * the session has ended and every accepted byte was written, or until
     * nothing more happens: there is nothing to write, or no write to do it.
     */
    method PumpInputTo() returns (exit: Exit, ghost chunks: seq<bytes>)
      requires Valid() && inFlight == []
      modifies `inputBuf, `ended, `closing, `inputErr, `others, `writes, `accepted, `written, `inFlight
      ensures Valid() && inFlight == [] && written <= Concat(accepted)
      ensures Rounds(old(writes), chunks, exit.Stopped?) && writes == old(writes)[|chunks|..]
      ensures written == old(written) + TakenAll(old(writes), chunks)
      ensures exit.Drained? ==> ended && written == Concat(accepted) && inputErr == old(inputErr)
      ensures exit.Running? ==>
                inputErr == old(inputErr) && ((inputBuf != [] && writes == []) || (inputBuf == [] && !ended && others == []))
      ensures |old(writes)| > |old(others)| && !exit.Stopped? ==> written == Concat(accepted)
      ensures old(ended) ==> accepted == old(accepted)
      ensures old(ended) && (old(inputBuf) == [] || (old(writes) != [] && IsWhole(old(writes)[0], old(inputBuf)))) ==>
                exit.Drained?
    {
      hide Concat, Rounds, TakenAll, IsWhole, Taken;
      NoRounds(writes);
      chunks := [];
      ghost var ample := |writes| > |others|;
      while true
        invariant Valid() && inFlight == [] && inputErr == old(inputErr)
        invariant |chunks| <= |old(writes)| && Rounds(old(writes), chunks, false) && writes == old(writes)[|chunks|..]
        invariant written == old(written) + TakenAll(old(writes), chunks)
        invariant ample ==> |writes| > |others| || (others == [] && inputBuf == [])
        invariant old(ended) ==> ended && accepted == old(accepted) && inputBuf == if chunks == [] then old(inputBuf) else []
        decreases |writes|
      {
        Await();
        if inputBuf == [] {
          return if ended then Drained else Running, chunks;
        }
        if writes == [] {
          return Running, chunks;
        }
        ghost var before := chunks;
        chunks := chunks + [inputBuf];
        OneRound(old(writes), before, inputBuf);
        var whole := WriteQueued();
        if !whole {
          return Stopped, chunks;
        }
      }
    }
  }

  lemma NoRounds(writes: seq<Write>)
    ensures Rounds(writes, [], false) && TakenAll(writes, []) == [] && writes[0..] == writes
  {
  }

  lemma OneRound(writes: seq<Write>, chunks: seq<bytes>, chunk: bytes)
    requires Rounds(writes, chunks, false) && |chunks| < |writes| && chunk != []
    ensures Rounds(writes, chunks + [chunk], !IsWhole(writes[|chunks|], chunk))
    ensures TakenAll(writes, chunks + [chunk]) == TakenAll(writes, chunks) + Taken(writes[|chunks|], chunk)
  {
    assert (chunks + [chunk])[..|chunks|] == chunks;
  }
}
