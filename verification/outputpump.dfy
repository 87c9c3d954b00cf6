/**
 * The daemon's output pump. PTY reads are held back to the last ground
 * position, the safe part is rendered and copied to the attached clients, and
 * the remainder slides down in the same array. The array is modelled as the
 * program has it, so that a payload handed to a client provably survives its
 * reuse.
 */
module OutputPump {
  import opened Bytes
  import opened VtScan

  /** The last position at which a scanner reading `p` from the start is at ground. */
  function LastGround(p: bytes): (n: nat)
    ensures n <= |p| && GroundAt(p, n)
    ensures forall k :: n < k <= |p| ==> !GroundAt(p, k)
  {
    LastGroundFrom(p, |p|)
  }

  function LastGroundFrom(p: bytes, m: nat): (n: nat)
    requires m <= |p|
    ensures n <= m && GroundAt(p, n)
    ensures forall k :: n < k <= m ==> !GroundAt(p, k)
  {
    if m == 0 || GroundAt(p, m) then m else LastGroundFrom(p, m - 1)
  }

  /** What is held back never shrinks the rendered part: the last ground position only moves forward. */
  lemma LastGroundGrows(p: bytes, q: bytes)
    ensures LastGround(p) <= LastGround(p + q)
  {
    var n := LastGround(p);
    assert (p + q)[..n] == p[..n];
    AfterPrefix(START, p, p + q, n);
    assert GroundAt(p + q, n);
  }

  /** The held-back bytes can be scanned on their own. */
  lemma GroundShift(rendered: bytes, held: bytes)
    requires GroundAt(rendered, |rendered|)
    ensures GroundAt(rendered + held, |rendered|)
    ensures forall k :: 0 <= k <= |held| ==> GroundAt(rendered + held, |rendered| + k) == GroundAt(held, k)
  {
    forall k | 0 <= k <= |held|
      ensures GroundAt(rendered + held, |rendered| + k) == GroundAt(held, k)
    {
      AfterConcat(START, rendered, held, k);
    }
    AfterConcat(START, rendered, held, 0);
  }

  lemma GroundAtStart(p: bytes)
    ensures GroundAt(p, 0)
  {
  }

  lemma LiveIsGround(rendered: bytes, held: bytes)
    requires GroundAt(rendered + held, |rendered|)
    ensures GroundAt(rendered, |rendered|)
  {
    assert (rendered + held)[..|rendered|] == rendered == rendered[..|rendered|];
    AfterPrefix(START, rendered + held, rendered, |rendered|);
  }

  /** Releasing the bytes up to the last ground position of what is held back. */
  lemma Release(rendered: bytes, held: bytes, cut: nat)
    requires GroundAt(rendered, |rendered|)
    requires cut <= |held| && GroundAt(held, cut)
    requires forall k :: cut < k <= |held| ==> !GroundAt(held, k)
    ensures LastGround(rendered + held) == |rendered| + cut
    ensures Aligned(held[..cut])
  {
    GroundShift(rendered, held);
    AfterPrefix(START, held[..cut], held, cut);
    assert GroundAt(rendered + held, |rendered| + cut);
    forall k | |rendered| + cut < k <= |rendered + held|
      ensures !GroundAt(rendered + held, k)
    {
      assert GroundAt(rendered + held, |rendered| + (k - |rendered|)) == GroundAt(held, k - |rendered|);
    }
  }

  class Pump {
    const outScan: Scanner
    var outPending: array<byte>
    var pendingLen: nat
    /** The payload arrays handed to the clients, oldest first. */
    var delivered: seq<array<byte>>
    ghost var sent: seq<bytes>
    /** Everything read from the PTY, and the blocks given to the terminal. */
    ghost var received: bytes
    ghost var blocks: seq<bytes>

    ghost function Rendered(): bytes
      reads this
    {
      Concat(blocks)
    }

    ghost function Pending(): bytes
      reads this, outPending
      requires pendingLen <= outPending.Length
    {
      outPending[..pendingLen]
    }

    /** Every payload still reads as it did when it was handed over, and none lives in the pending array. */
    ghost predicate Kept()
      reads this, outPending, set i | 0 <= i < |delivered| :: delivered[i]
    {
      && |sent| == |delivered|
      && (forall i :: 0 <= i < |delivered| ==> delivered[i] != outPending && delivered[i][..] == sent[i])
    }

    ghost predicate Valid()
      reads this, outScan, outPending, set i | 0 <= i < |delivered| :: delivered[i]
    {
      && pendingLen <= outPending.Length
      && received == Rendered() + Pending()
      && outScan.Value() == After(START, Rendered(), |Rendered()|)
      && Kept()
    }

    /** Nothing has been forced through yet: the rendered part ends at the last ground position. */
    ghost predicate Live()
      reads this
    {
      && |Rendered()| == LastGround(received)
      && (forall i :: 0 <= i < |blocks| ==> Aligned(blocks[i]))
      && [] !in blocks
    }

    constructor ()
      ensures Valid() && Live() && fresh(outScan) && fresh(outPending)
      ensures received == [] && blocks == [] && delivered == [] && sent == []
    {
      outScan := new Scanner();
      outPending := new byte[0];
      pendingLen := 0;
      delivered, sent, received, blocks := [], [], [], [];
    }

    /** Slides the bytes from `cut` on down to the front of the same array. */
    method SlidePending(cut: nat)
      requires cut <= pendingLen <= outPending.Length
      modifies this`pendingLen, outPending
      ensures pendingLen <= outPending.Length
      ensures Pending() == old(Pending())[cut..]
    {
      for i := 0 to pendingLen - cut
        invariant pendingLen == old(pendingLen)
        invariant forall k :: 0 <= k < i ==> outPending[k] == old(outPending[cut + k])
        invariant forall k :: i <= k < pendingLen ==> outPending[k] == old(outPending[k])
      {
        outPending[i] := outPending[cut + i];
      }
      pendingLen := pendingLen - cut;
    }

    /** Copies a block for the clients; with nobody attached there is nothing to copy for. */
    method Fanout(data: bytes, attached: bool)
      requires Kept()
      modifies this`delivered, this`sent
      ensures Kept()
      ensures sent == old(sent) + if attached then [data] else []
      ensures old(delivered) <= delivered
    {
      if !attached {
        return;
      }
      var cp := new byte[|data|](i requires 0 <= i < |data| => data[i]);
      assert cp[..] == data;
      delivered, sent := delivered + [cp], sent + [data];
    }

    /** Gives a block to the terminal and moves the scanner past it. */
    method Render(safe: bytes)
      requires outScan.Value() == After(START, Rendered(), |Rendered()|)
      modifies this`blocks, outScan
      ensures outScan.Value() == After(START, Rendered(), |Rendered()|)
      ensures blocks == old(blocks) + [safe]
      ensures Rendered() == old(Rendered()) + safe
    {
      outScan.Advance(safe);
      AfterConcat(START, Rendered(), safe, |safe|);
      ConcatSnoc(blocks, safe);
      blocks := blocks + [safe];
    }

    /** The locked part of a feed: render a block, copy it to the clients, slide the rest down. */
    method Commit(cut: nat, attached: bool)
      requires Valid() && cut <= pendingLen
      modifies this`blocks, this`delivered, this`sent, this`pendingLen, outScan, outPending
      ensures Valid()
      ensures blocks == old(blocks) + [old(Pending())[..cut]]
      ensures |Rendered()| == |old(Rendered())| + cut
      ensures Pending() == old(Pending())[cut..]
      ensures sent == old(sent) + if attached then blocks[|old(blocks)|..] else []
      ensures old(delivered) <= delivered
    {
      var safe := outPending[..cut];
      ghost var held := Pending();
      assert held == safe + held[cut..];
      Render(safe);
      assert received == Rendered() + held[cut..];
      Fanout(safe, attached);
      SlidePending(cut);
    }

    /**
     * Renders what has become safe. Without `flush` the rendered part is then
     * exactly the longest prefix that ends at ground, however the reads were
     * split; with it everything goes through. Payloads handed over
     * earlier stay as they were: `sent` only grows and `Kept` still holds.
     */
    method FeedTerm(data: bytes, flush: bool, attached: bool)
      requires Valid() && Live()
      modifies this, outScan, outPending
      ensures Valid()
      ensures received == old(received) + data
      ensures !flush ==> Live()
      ensures flush ==> Rendered() == received
      ensures old(blocks) <= blocks && |blocks| <= |old(blocks)| + 1 && [] !in blocks
      ensures sent == old(sent) + if attached then blocks[|old(blocks)|..] else []
      ensures old(delivered) <= delivered
      ensures outPending == old(outPending) || fresh(outPending)
    {
      hide After, Kept;
      ghost var rendered := Rendered();
      LiveIsGround(rendered, Pending());
      Absorb(data);
      ghost var held := Pending();
      var cut: int := pendingLen;
      if !flush {
        cut := outScan.SafeCut(outPending[..pendingLen], pendingLen);
        GroundAtStart(held);
        Release(rendered, held, cut);
      }
      if cut <= 0 {
        return;
      }
      Commit(cut, attached);
    }

    /** A read joins the pending bytes. */
    method Absorb(data: bytes)
      requires Valid()
      modifies this`outPending, this`pendingLen, this`received, outPending
      ensures Valid()
      ensures received == old(received) + data && Pending() == old(Pending()) + data
      ensures outPending == old(outPending) || fresh(outPending)
    {
      hide After;
      outPending := AppendSlice(outPending, pendingLen, data);
      pendingLen := pendingLen + |data|;
      received := received + data;
      assert received == Rendered() + Pending();
    }

    /**
     * Reads until the PTY ends. At every read the rendered part is the longest
     * prefix of the input so far that ends at ground; the final flush renders
     * the rest. `cuts` records the rendered length after each read. No block
     * is empty, and only the last may stop inside a sequence.
     */
    method PumpOutputFrom(chunks: seq<bytes>, attached: seq<bool>) returns (ghost cuts: seq<nat>)
      requires Valid() && Live() && received == [] && blocks == [] && sent == []
      requires |attached| == |chunks| + 1
      modifies this, outScan, outPending
      ensures Valid()
      ensures received == Concat(chunks) && Rendered() == Concat(chunks)
      ensures |cuts| == |chunks|
      ensures forall i :: 0 <= i < |chunks| ==> cuts[i] == LastGround(Concat(chunks[..i + 1]))
      ensures (forall i :: 0 <= i < |attached| ==> attached[i]) ==> Concat(sent) == Concat(chunks)
      ensures (forall i :: 0 <= i < |blocks| - 1 ==> Aligned(blocks[i])) && [] !in blocks
    {
      hide After, GroundAt, Aligned;
      cuts := [];
      for i := 0 to |chunks|
        invariant Valid() && Live()
        invariant received == Concat(chunks[..i])
        invariant |cuts| == i
        invariant forall k :: 0 <= k < i ==> cuts[k] == LastGround(Concat(chunks[..k + 1]))
        invariant (forall k :: 0 <= k < i ==> attached[k]) ==> sent == blocks
        invariant outPending == old(outPending) || fresh(outPending)
      {
        assert chunks[..i + 1] == chunks[..i] + [chunks[i]];
        ConcatSnoc(chunks[..i], chunks[i]);
        if |chunks[i]| > 0 {
          FeedTerm(chunks[i], false, attached[i]);
        }
        cuts := cuts + [|Rendered()|];
      }
      assert chunks[..|chunks|] == chunks;
      ghost var fed := blocks;
      FeedTerm([], true, attached[|chunks|]);
      assert blocks == fed + blocks[|fed|..];
    }
  }
}
