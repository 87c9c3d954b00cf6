/**
 * The framing of an attached connection: a tag, a big-endian 32-bit length and
 * the payload, on a byte stream that may end anywhere.
 */
module Frame {
  import opened Bytes

  const MAX_FRAME: nat := 0x100_0000
  const HEADER: nat := 5
  const WORD: nat := 0x1_0000_0000

  datatype Frame = Frame(tag: byte, payload: bytes)

  /** A stream that ended where a read wanted its first byte, one that ended later, a length over the cap. */
  datatype Error = Eof | UnexpectedEof | TooLarge(n: nat)

  datatype Result = Got(frame: Frame) | Failed(error: Error)

  // ---- integers

  /** Four bytes, so 32 bits of the length. */
  function Word(n: nat): (b: bytes) {
    [n / 256 / 256 / 256 % 256, n / 256 / 256 % 256, n / 256 % 256, n % 256]
  }

  function FromWord(b: bytes): nat
    requires |b| == 4
  {
    b[0] as int * 0x100_0000 + b[1] as int * 0x1_0000 + b[2] as int * 0x100 + b[3]
  }

  lemma WordWraps(n: nat)
    ensures FromWord(Word(n)) == n % WORD
  {
    var n1 := n / 256;
    var n2 := n1 / 256;
    var n3 := n2 / 256;
    var n4 := n3 / 256;
    assert n == 256 * n1 + n % 256 && n1 == 256 * n2 + n1 % 256 && n2 == 256 * n3 + n2 % 256 && n3 == 256 * n4 + n3 % 256;
    WrapsAt(n, n4, FromWord(Word(n)));
  }

  /** The most significant byte comes first. */
  lemma WordIsBigEndian(n: nat, b: bytes)
    requires |b| == 4
    ensures b == Word(n) <==> n % WORD == ((b[0] as int * 256 + b[1]) * 256 + b[2]) * 256 + b[3]
  {
    WordWraps(n);
    var w := Word(n);
    if FromWord(b) == FromWord(w) {
      hide Word;
      LastByte((b[0] as int * 256 + b[1]) * 256 + b[2], b[3], (w[0] as int * 256 + w[1]) * 256 + w[2], w[3]);
      LastByte(b[0] as int * 256 + b[1], b[2], w[0] as int * 256 + w[1], w[2]);
      LastByte(b[0] as int, b[1], w[0] as int, w[1]);
      assert b == [b[0], b[1], b[2], b[3]] == [w[0], w[1], w[2], w[3]] == w;
    }
  }

  lemma LastByte(x: nat, a: byte, y: nat, b: byte)
    requires x * 256 + a == y * 256 + b
    ensures x == y && a == b
  {
  }

  lemma WrapsAt(n: nat, q: nat, r: nat)
    requires n == q * WORD + r && r < WORD
    ensures n % WORD == r
  {
  }

  function Half(n: nat): (b: bytes)
    requires n < 0x1_0000
  {
    [n / 256, n % 256]
  }

  function FromHalf(b: bytes): nat
    requires |b| == 2
  {
    b[0] as int * 256 + b[1]
  }

  // ---- frames

  function Encoded(f: Frame): bytes {
    [f.tag] + (Word(|f.payload|) + f.payload)
  }

  function EncodeAll(fs: seq<Frame>): bytes {
    if fs == [] then [] else Encoded(fs[0]) + EncodeAll(fs[1..])
  }

  /** What filling a buffer of `n` bytes from what is left of a stream takes, and how it fails. */
  function Fill(s: bytes, n: nat): (r: (bytes, bool, Error)) {
    if |s| >= n then (s[n..], true, Eof)
    else ([], false, if s == [] then Eof else UnexpectedEof)
  }

  function Decode(s: bytes): (Result, bytes) {
    var (rest, ok, e) := Fill(s, HEADER);
    if !ok then (Failed(e), rest)
    else
      var n := FromWord(s[1..HEADER]);
      if n > MAX_FRAME then (Failed(TooLarge(n)), rest)
      else
        var (left, whole, short) := Fill(rest, n);
        if whole then (Got(Frame(s[0], rest[..n])), left) else (Failed(short), left)
  }

  /** Reads until it fails. */
  function DecodeAll(s: bytes): (seq<Frame>, Error)
    decreases |s|
  {
    var (r, rest) := Decode(s);
    match r
    case Got(f) => var (fs, e) := DecodeAll(rest); ([f] + fs, e)
    case Failed(e) => ([], e)
  }

  predicate Fits(f: Frame) { |f.payload| <= MAX_FRAME }

  predicate AllFit(fs: seq<Frame>) {
    forall i :: 0 <= i < |fs| ==> Fits(fs[i])
  }

  lemma EncodedParts(f: Frame, t: bytes)
    ensures |Encoded(f)| == HEADER + |f.payload|
    ensures var s := Encoded(f) + t;
            s[0] == f.tag && s[1..HEADER] == Word(|f.payload|) && s[HEADER..] == f.payload + t
  {
    var s := Encoded(f) + t;
    assert s == [f.tag] + Word(|f.payload|) + (f.payload + t);
  }

  /** A frame is read back, whatever follows it, exactly if its payload is within the reader's cap. */
  lemma RoundTrip(f: Frame, t: bytes)
    ensures Decode(Encoded(f) + t) == (Got(f), t) <==> Fits(f)
  {
    hide Word, FromWord, Encoded;
    EncodedParts(f, t);
    WordWraps(|f.payload|);
    var s := Encoded(f) + t;
    var rest := f.payload + t;
    if Fits(f) {
      assert rest[..|f.payload|] == f.payload && rest[|f.payload|..] == t;
    } else {
      var n := |f.payload| % WORD;
      if n <= MAX_FRAME {
        assert |rest[..n]| < |f.payload|;
      }
    }
  }

  /** The frames that are whole in the first `n` bytes. */
  function Whole(fs: seq<Frame>, n: nat): (k: nat)
    ensures k <= |fs|
    decreases |fs|
  {
    if fs == [] || |Encoded(fs[0])| > n then 0 else 1 + Whole(fs[1..], n - |Encoded(fs[0])|)
  }

  lemma {:induction false} WholeFits(fs: seq<Frame>, n: nat)
    ensures |EncodeAll(fs[..Whole(fs, n)])| <= n
    decreases |fs|
  {
    if fs != [] && |Encoded(fs[0])| <= n {
      var m := n - |Encoded(fs[0])|;
      WholeFits(fs[1..], m);
      assert fs[..Whole(fs, n)][1..] == fs[1..][..Whole(fs[1..], m)];
    }
  }

  /** A stream that ends early: on a frame boundary, or right behind a header, it looks like a clean end. */
  function EndOf(left: nat): Error {
    if left == 0 || left == HEADER then Eof else UnexpectedEof
  }

  lemma TruncatedFrame(f: Frame, n: nat)
    requires Fits(f) && n < |Encoded(f)|
    ensures Decode(Encoded(f)[..n]).0 == Failed(EndOf(n))
  {
    EncodedParts(f, []);
    assert Encoded(f) + [] == Encoded(f);
    WordWraps(|f.payload|);
    var s := Encoded(f)[..n];
    if n >= HEADER {
      assert s[1..HEADER] == Encoded(f)[1..HEADER];
    }
  }

  /**
   * However many frames were written and wherever their stream ends, reading
   * it returns the frames that are whole in it, in order, and then an error.
   */
  lemma {:induction false} TruncatedStream(fs: seq<Frame>, n: nat)
    requires AllFit(fs) && n <= |EncodeAll(fs)|
    ensures var k := Whole(fs, n);
            && |EncodeAll(fs[..k])| <= n
            && DecodeAll(EncodeAll(fs)[..n]) == (fs[..k], EndOf(n - |EncodeAll(fs[..k])|))
    decreases |fs|
  {
    hide Decode, Encoded;
    WholeFits(fs, n);
    if fs == [] {
      EndOfNothing();
    } else {
      var first, rest := Encoded(fs[0]), EncodeAll(fs[1..]);
      if n < |first| {
        assert EncodeAll(fs)[..n] == first[..n];
        TruncatedFrame(fs[0], n);
      } else {
        var m := n - |first|;
        assert EncodeAll(fs)[..n] == first + rest[..m];
        RoundTrip(fs[0], rest[..m]);
        assert Fits(fs[0]);
        TruncatedStream(fs[1..], m);
        var k := Whole(fs[1..], m);
        assert fs[..k + 1][1..] == fs[1..][..k];
        assert fs[..k + 1] == [fs[0]] + fs[1..][..k];
      }
    }
  }

  lemma EndOfNothing()
    ensures DecodeAll([]) == ([], Eof)
  {
  }

  lemma {:induction false} AllAreWhole(fs: seq<Frame>)
    ensures Whole(fs, |EncodeAll(fs)|) == |fs|
  {
    if fs != [] {
      AllAreWhole(fs[1..]);
    }
  }

  /** Reading back everything that was written. */
  lemma StreamRoundTrip(fs: seq<Frame>)
    requires AllFit(fs)
    ensures DecodeAll(EncodeAll(fs)) == (fs, Eof)
  {
    var s := EncodeAll(fs);
    AllAreWhole(fs);
    TruncatedStream(fs, |s|);
    assert s[..|s|] == s && fs[..|fs|] == fs;
  }

  // ---- the code

  /** One direction of a connection; it fails once its room is used up. */
  class Pipe {
    var data: bytes
    var room: nat

    constructor (room: nat)
      ensures data == [] && this.room == room
    {
      data, this.room := [], room;
    }

    /** A failing write has taken as many bytes as there was room for. */
    method Write(p: array<byte>) returns (ok: bool)
      modifies this
      ensures ok == (p.Length <= old(room))
      ensures ok ==> data == old(data) + p[..] && room == old(room) - p.Length
      ensures !ok ==> data == old(data) + p[..old(room)] && room == 0
    {
      ok := p.Length <= room;
      var n := if ok then p.Length else room;
      assert ok ==> p[..n] == p[..];
      data, room := data + p[..n], room - n;
    }

    /** Fills the buffer, taking short reads until it is full or the stream ends. */
    method ReadFull(p: array<byte>) returns (ok: bool, error: Error)
      modifies `data, p
      ensures (data, ok, error) == Fill(old(data), p.Length)
      ensures ok ==> p[..] == old(data)[..p.Length]
    {
      var n := 0;
      ghost var was := data;
      while n < p.Length && |data| > 0
        invariant n <= p.Length && n <= |was| && data == was[n..]
        invariant p[..n] == was[..n]
        decreases p.Length - n
      {
        p[n] := data[0];
        data := data[1..];
        n := n + 1;
        assert p[..n] == was[..n];
      }
      if n == p.Length {
        assert p[..] == p[..n];
        return true, Eof;
      }
      return false, if n == 0 then Eof else UnexpectedEof;
    }
  }

  method PutWord(b: array<byte>, at: nat, n: nat)
    requires at + 4 <= b.Length
    modifies b
    ensures b[at..at + 4] == Word(n)
    ensures b[..at] == old(b[..at]) && b[at + 4..] == old(b[at + 4..])
  {
    b[at], b[at + 1], b[at + 2], b[at + 3] :=
      n / 256 / 256 / 256 % 256, n / 256 / 256 % 256, n / 256 % 256, n % 256;
  }

  method PutHalf(b: array<byte>, at: nat, n: nat)
    requires at + 2 <= b.Length && n < 0x1_0000
    modifies b
    ensures b[at..at + 2] == Half(n)
    ensures b[..at] == old(b[..at]) && b[at + 2..] == old(b[at + 2..])
  {
    b[at], b[at + 1] := n / 256, n % 256;
  }

  /** A frame goes out whole, or the write fails and what went out is a beginning of it. */
  method WriteFrame(w: Pipe, tag: byte, payload: array<byte>) returns (ok: bool)
    modifies w
    ensures var f := Encoded(Frame(tag, payload[..]));
            && ok == (|f| <= old(w.room))
            && w.data == old(w.data) + (if ok then f else f[..old(w.room)])
            && w.room == if ok then old(w.room) - |f| else 0
  {
    hide Word, Encoded;
    var hdr := Header(tag, payload.Length);
    ghost var h, body, room := hdr[..], payload[..], w.room;
    HeaderFirst(Frame(tag, body), h);
    ok := w.Write(hdr);
    if !ok {
      FirstBytes(h, body, room);
      return;
    }
    if payload.Length > 0 {
      ok := w.Write(payload);
      if !ok {
        FirstBytes(h, body, room);
      }
    }
  }

  method Header(tag: byte, n: nat) returns (hdr: array<byte>)
    ensures fresh(hdr) && hdr[..] == [tag] + Word(n)
  {
    hide Word;
    hdr := new byte[HEADER];
    hdr[0] := tag;
    PutWord(hdr, 1, n);
    assert hdr[..] == hdr[..1] + hdr[1..5];
  }

  lemma HeaderFirst(f: Frame, h: bytes)
    requires h == [f.tag] + Word(|f.payload|)
    ensures |h| == HEADER && Encoded(f) == h + f.payload
  {
  }

  lemma FirstBytes(h: bytes, body: bytes, n: nat)
    requires n <= |h + body|
    ensures (h + body)[..n] == if n <= |h| then h[..n] else h + body[..n - |h|]
  {
  }

  method ReadFrame(r: Pipe) returns (result: Result)
    modifies r
    ensures (result, r.data) == Decode(old(r.data))
  {
    var hdr := new byte[HEADER];
    var ok, error := r.ReadFull(hdr);
    if !ok {
      return Failed(error);
    }
    assert hdr[1..] == old(r.data)[1..HEADER];
    var n := FromWord(hdr[1..]);
    if n > MAX_FRAME {
      return Failed(TooLarge(n));
    }
    if n == 0 {
      return Got(Frame(hdr[0], []));
    }
    var buf := new byte[n];
    ok, error := r.ReadFull(buf);
    if !ok {
      return Failed(error);
    }
    return Got(Frame(hdr[0], buf[..]));
  }

  /**
   * Whatever becomes of the last write, a reader of the connection gets the
   * frames that were written whole, and then an error, never part of one.
   */
  lemma FailedWriteIsNoFrame(fs: seq<Frame>, f: Frame, room: nat)
    requires AllFit(fs) && Fits(f) && room < |Encoded(f)|
    ensures DecodeAll(EncodeAll(fs) + Encoded(f)[..room]) == (fs, EndOf(room))
  {
    hide Encoded, Whole, DecodeAll, EncodeAll;
    EncodeAllSnoc(fs, f);
    var all := fs + [f];
    var s := EncodeAll(all);
    var n := |EncodeAll(fs)| + room;
    WholeSnoc(fs, f, room);
    TruncatedStream(all, n);
    assert s[..n] == EncodeAll(fs) + Encoded(f)[..room];
    assert all[..|fs|] == fs;
  }

  lemma {:induction false} EncodeAllSnoc(fs: seq<Frame>, f: Frame)
    ensures EncodeAll(fs + [f]) == EncodeAll(fs) + Encoded(f)
  {
    hide Encoded;
    if fs == [] {
      assert [f][1..] == [];
      assert EncodeAll([]) == [];
    } else {
      assert (fs + [f])[1..] == fs[1..] + [f];
      EncodeAllSnoc(fs[1..], f);
    }
  }

  lemma {:induction false} WholeSnoc(fs: seq<Frame>, f: Frame, room: nat)
    requires room < |Encoded(f)|
    ensures Whole(fs + [f], |EncodeAll(fs)| + room) == |fs|
  {
    hide Encoded;
    if fs != [] {
      assert (fs + [f])[1..] == fs[1..] + [f];
      WholeSnoc(fs[1..], f, room);
    }
  }

  // ---- sizes

  datatype ResizePayload = ResizePayload(rows: nat, cols: nat)

  predicate ShortSizes(r: ResizePayload) { r.rows < 0x1_0000 && r.cols < 0x1_0000 }

  datatype Decoded = Malformed | Size(size: ResizePayload)

  function DecodeResize(b: bytes): Decoded {
    if |b| != 4 then Malformed else Size(ResizePayload(FromHalf(b[..2]), FromHalf(b[2..])))
  }

  function ResizeBytes(r: ResizePayload): bytes
    requires ShortSizes(r)
  {
    Half(r.rows) + Half(r.cols)
  }

  method EncodeResize(rows: nat, cols: nat) returns (b: array<byte>)
    requires rows < 0x1_0000 && cols < 0x1_0000
    ensures fresh(b) && b[..] == ResizeBytes(ResizePayload(rows, cols))
  {
    b := new byte[4];
    PutHalf(b, 0, rows);
    assert b[..2] == b[0..2];
    PutHalf(b, 2, cols);
    assert b[..] == b[..2] + b[2..4];
  }

  /** Sizes and four-byte payloads correspond one to one; anything else is malformed, the empty request among it. */
  lemma ResizeBijection(r: ResizePayload, b: bytes)
    requires ShortSizes(r)
    ensures b == ResizeBytes(r) <==> DecodeResize(b) == Size(r)
    ensures b == ResizeBytes(r) <==> |b| == 4 && r.rows == b[0] as int * 256 + b[1] && r.cols == b[2] as int * 256 + b[3]
    ensures DecodeResize(b).Malformed? <==> |b| != 4
    ensures |b| == 4 ==> ShortSizes(DecodeResize(b).size)
  {
    assert ResizeBytes(r)[..2] == Half(r.rows) && ResizeBytes(r)[2..] == Half(r.cols);
    if |b| == 4 {
      assert b == b[..2] + b[2..];
    }
  }
}
