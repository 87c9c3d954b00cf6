/**
 * The loop between the terminal's input and the session: reads are fed to the
 * detach scanner, a lone escape is given up on when its time runs out, and the
 * end of the input releases what was held back.
 */
module AttachInput {
  import opened Bytes
  import opened DetachKey

  /** How a read ended besides its bytes: fine, at the end, closed by the attachment's own shutdown, or failed. */
  datatype ReadError = NoError | Eof | Closed | Broken

  /** What the loop waits for: a read to complete, or the escape's time to run out. */
  datatype Event = Read(p: bytes, err: ReadError) | Expired

  datatype Outcome = Waiting | Detached(err: ReadError) | Ended | Failed(err: ReadError)

  /** An end and a shutdown are not errors to be reported. */
  function Unexpected(e: ReadError): ReadError {
    if e.Eof? || e.Closed? then NoError else e
  }

  /** No read failed or ended. */
  predicate Flowing(events: seq<Event>) {
    forall i :: 0 <= i < |events| ==> events[i].Read? ==> events[i].err.NoError?
  }

  function Reads(events: seq<Event>): bytes {
    if events == [] then []
    else Reads(events[..|events| - 1]) + match events[|events| - 1] case Read(p, _) => p case Expired => []
  }

  class AttachInput {
    const scanner: DetachScanner
    var readPending: bool
    var timeout: bool
    /** The frames sent: input in order, and whether the detach request followed. */
    var sent: seq<bytes>
    var detached: bool
    ghost var input: bytes
    ghost var abandoned: set<nat>

    ghost predicate Valid()
      reads this, scanner
    {
      && !detached
      && Concat(sent) + scanner.pending == input
      && Unmissed(input, |Concat(sent)|, abandoned)
      && (timeout ==> scanner.pending == [ESC])
      && [] !in sent
    }

    constructor ()
      ensures Valid() && sent == [] && input == [] && abandoned == {} && !timeout && !readPending
      ensures fresh(scanner)
    {
      sent, detached, readPending, timeout, input, abandoned := [], false, false, false, [], {};
      scanner := new DetachScanner();
      new;
      NothingMissed();
    }

    method Send(p: bytes)
      requires p != [] && [] !in sent
      modifies `sent
      ensures sent == old(sent) + [p] && Concat(sent) == Concat(old(sent)) + p && [] !in sent
    {
      ConcatSnoc(sent, p);
      sent := sent + [p];
    }

    method Flush()
      requires [] !in sent
      modifies `sent, scanner
      ensures Concat(sent) == Concat(old(sent)) + old(scanner.pending) && scanner.pending == [] && [] !in sent
    {
      var pending := scanner.Flush();
      if |pending| > 0 {
        Send(pending);
      }
    }

    /** The escape's time ran out. */
    method Expire()
      requires Valid() && timeout
      modifies `sent, `timeout, `abandoned, scanner
      ensures Valid() && input == Concat(sent) == old(input)
      ensures |input| > 0 && input[|input| - 1] == ESC && abandoned == old(abandoned) + {|input| - 1}
    {
      hide Unmissed;
      GivingUpMissesNothing(input, |Concat(sent)|, abandoned);
      ghost var n := |Concat(sent)|;
      Flush();
      timeout := false;
      abandoned := abandoned + {n};
    }

    /** A read completed. */
    method Take(p: bytes, err: ReadError) returns (outcome: Outcome)
      requires Valid()
      modifies `readPending, `timeout, `sent, `detached, `input, scanner
      ensures input == old(input) + p && !readPending
      ensures outcome.Detached? ==>
                && detached && Detaches(input) && Withheld(input, |Concat(sent)|, abandoned)
                && Concat(sent) <= input && outcome.err == Unexpected(err)
      ensures Keyless(old(input), abandoned)
      ensures outcome.Ended? ==> err.Eof? && !detached && Concat(sent) == input && Keyless(input, abandoned)
      ensures outcome.Failed? || outcome.Waiting? ==> Valid()
      ensures outcome.Detached? <==> p != [] && Detaches(old(scanner.pending) + p)
      ensures outcome == if outcome.Detached? then Detached(Unexpected(err))
                         else match err case NoError => Waiting case Eof => Ended case _ => Failed(err)
      ensures [] !in sent
    {
      hide Unmissed, Keyless, Withheld, Detaches, HoldsBack;
      readPending, timeout := false, false;
      ghost var before := input;
      UnmissedIsKeyless(input, |Concat(sent)|, abandoned);
      ghost var n := |Concat(sent)|;
      input := input + p;
      if |p| > 0 {
        assert input[n..] == scanner.pending + p;
        var forward, detach := scanner.Feed(p);
        if |forward| > 0 {
          Send(forward);
        }
        if detach {
          detached := true;
          assert input == input[..n] + input[n..] + [];
          DetachExtends(input[..n], input[n..], []);
          FeedWithholds(before, p, n, abandoned);
          return Detached(Unexpected(err));
        }
        FeedMissesNothing(before, p, n, |scanner.pending|, abandoned);
        assert input == input[..n] + input[n..];
        assert input[..n] == before[..n];
        assert Concat(sent) + scanner.pending == input;
      } else {
        assert input == before;
      }
      assert Valid();
      if !err.NoError? {
        if err.Eof? {
          UnmissedIsKeyless(input, |Concat(sent)|, abandoned);
          Flush();
          return Ended;
        }
        return Failed(err);
      }
      return Waiting;
    }

    /** Where the loop stands after the first `used` events. */
    ghost predicate Followed(events: seq<Event>, used: nat)
      requires used <= |events|
      reads this, scanner
    {
      Valid() && input == Reads(events[..used]) && Flowing(events[..used]) && Traced(events, used)
    }

    ghost predicate Traced(events: seq<Event>, used: nat)
      reads this
    {
      (forall i :: i in abandoned ==> GivenUp(events, used, i)) && (Expired !in events ==> abandoned == {})
    }

    /** What the inner loop selects: the next event, whichever it is. */
    method Receive(events: seq<Event>, used: nat) returns (outcome: Outcome)
      requires used < |events| && Followed(events, used) && (timeout <==> scanner.pending == [ESC])
      modifies this, scanner
      ensures outcome.Waiting? ==>
                && Followed(events, used + 1)
                && (events[used].Expired? ==> readPending == old(readPending) && !timeout && scanner.pending != [ESC])
                && (events[used].Read? ==> !readPending)
      ensures !outcome.Waiting? ==> events[used].Read? && EndsAt(events, used, outcome)
      ensures !outcome.Waiting? ==> input == Reads(events[..used + 1]) && [] !in sent && Traced(events, used + 1)
      ensures outcome.Failed? ==> Concat(sent) + scanner.pending == input
      ensures outcome.Failed? || outcome.Ended? ==> !detached && Keyless(input, abandoned)
      ensures outcome.Ended? ==> Concat(sent) == input
      ensures outcome.Detached? ==>
                && detached && Detaches(input) && Withheld(input, |Concat(sent)|, abandoned) && Concat(sent) <= input
                && Keyless(Reads(events[..used]), abandoned)
    {
      hide Unmissed, Keyless, Withheld, Detaches, Reads, GivenUp, Flowing;
      ReadsSnoc(events, used);
      FlowingSnoc(events, used);
      GivenUpStays(events, used, abandoned);
      match events[used] {
        case Expired =>
          if timeout {
            Expire();
            GivenUpNow(events, used, |input| - 1);
          }
          return Waiting;
        case Read(p, err) =>
          outcome := Take(p, err);
          if outcome.Failed? {
            UnmissedIsKeyless(input, |Concat(sent)|, abandoned);
          }
      }
    }

    /**
     * The loop. Whatever the reads and however often an escape's time ran out,
     * what was sent and what is held back are the input, in order; a key in
     * the input ends the loop at the read that completes it.
     */
    method Run(events: seq<Event>) returns (outcome: Outcome, used: nat)
      requires Valid() && input == [] && abandoned == {} && !timeout
      modifies this, scanner
      ensures used <= |events| && input == Reads(events[..used]) && [] !in sent
      ensures outcome.Waiting? ==>
                && used == |events| && Flowing(events[..used])
                && (used > 0 && events[used - 1].Expired? ==> scanner.pending != [ESC])
      ensures !outcome.Waiting? ==> used > 0 && EndsAt(events, used - 1, outcome)
      ensures !outcome.Detached? && !outcome.Ended? ==> Concat(sent) + scanner.pending == input
      ensures !outcome.Detached? ==> !detached && Keyless(input, abandoned)
      ensures outcome.Ended? ==> Concat(sent) == input
      ensures outcome.Detached? ==>
                && detached && Detaches(input) && Withheld(input, |Concat(sent)|, abandoned) && Concat(sent) <= input
                && used > 0 && events[used - 1].Read? && Keyless(Reads(events[..used - 1]), abandoned)
      ensures forall i :: i in abandoned ==> GivenUp(events, used, i)
      ensures Expired !in events ==> abandoned == {}
    {
      hide Unmissed, Keyless, Withheld, Detaches, Reads, GivenUp, Flowing, EndsAt, Concat;
      outcome, used := Waiting, 0;
      NothingRead(events);
      while used < |events|
        invariant used <= |events| && outcome == Waiting && Followed(events, used)
        invariant used > 0 && events[used - 1].Expired? ==> used == |events| && scanner.pending != [ESC]
      {
        readPending := true;
        timeout := scanner.pending == [ESC];
        ghost var start := used;
        while readPending && used < |events|
          invariant used <= |events| && outcome == Waiting && Followed(events, used)
          invariant start < used || (start == used && readPending)
          invariant readPending ==> timeout == (scanner.pending == [ESC])
          invariant !readPending ==> used > 0 && events[used - 1].Read?
          invariant start < used && events[used - 1].Expired? ==> scanner.pending != [ESC]
          decreases |events| - used
        {
          outcome := Receive(events, used);
          used := used + 1;
          if !outcome.Waiting? {
            return;
          }
        }
      }
      UnmissedIsKeyless(input, |Concat(sent)|, abandoned);
    }
  }

  /** The reads went well up to the one at `i`, with which the loop ends so. */
  predicate EndsAt(events: seq<Event>, i: nat, outcome: Outcome)
    requires i < |events| && !outcome.Waiting?
  {
    && Flowing(events[..i])
    && events[i].Read?
    && match outcome
       case Detached(e) => e == Unexpected(events[i].err)
       case Ended => events[i].err.Eof?
       case Failed(e) => e == events[i].err && !e.NoError? && !e.Eof?
  }

  /** The byte at `i` is an escape, the last byte read when an event at which its time ran out came. */
  ghost predicate GivenUp(events: seq<Event>, used: nat, i: int) {
    exists j :: 0 <= j < used <= |events| && events[j].Expired?
      && i == |Reads(events[..j])| - 1 >= 0 && Reads(events[..j])[i] == ESC
  }

  lemma GivenUpStays(events: seq<Event>, used: nat, abandoned: set<nat>)
    requires used < |events| && forall i :: i in abandoned ==> GivenUp(events, used, i)
    ensures forall i :: i in abandoned ==> GivenUp(events, used + 1, i)
  {
  }

  lemma GivenUpNow(events: seq<Event>, used: nat, i: nat)
    requires used < |events| && events[used].Expired?
    requires i == |Reads(events[..used])| - 1 && Reads(events[..used])[i] == ESC
    ensures GivenUp(events, used + 1, i)
  {
  }

  lemma NothingRead(events: seq<Event>)
    ensures Reads(events[..0]) == [] && Flowing(events[..0])
  {
  }

  lemma ReadsSnoc(events: seq<Event>, i: nat)
    requires i < |events|
    ensures Reads(events[..i + 1]) == Reads(events[..i]) + if events[i].Read? then events[i].p else []
    ensures events[i] in events
  {
    assert events[..i + 1][..i] == events[..i];
  }

  lemma FlowingSnoc(events: seq<Event>, i: nat)
    requires i < |events|
    ensures Flowing(events[..i + 1]) <==> Flowing(events[..i]) && (events[i].Read? ==> events[i].err.NoError?)
  {
    assert forall k :: 0 <= k < i ==> events[..i + 1][k] == events[..i][k];
    assert events[..i + 1][i] == events[i];
  }

  lemma UnmissedIsKeyless(input: bytes, n: nat, abandoned: set<nat>)
    requires Unmissed(input, n, abandoned)
    ensures Keyless(input, abandoned)
  {
  }
}
