/** The 24-byte session header, and the datagram framing that carries it: stamped on what is
    sent, checked and stripped in place from what is received. */
module Wire {
  import opened Words
  import opened Ownership

  type Byte = b: int | 0 <= b < 256

  const HEADER_SIZE: nat := 24
  const VERSION: Byte := 1
  const DATA: Byte := 0
  const UPSTREAM: Byte := 0
  const DOWNSTREAM: Byte := 1
  datatype Header = Header(version: Byte, kind: Byte, direction: Byte, sessionID: Uint64, epoch: Uint32, seqNo: Uint64)

  // ------------------------------------------------------------- big-endian integers

  function Power(k: nat): (r: nat)
    ensures r > 0
  {
    if k == 0 then 1 else 256 * Power(k - 1)
  }

  /** The low k bytes of v, most significant first. */
  function Bytes(v: nat, k: nat): (s: seq<Byte>)
    ensures |s| == k
  {
    if k == 0 then [] else Bytes(v / 256, k - 1) + [v % 256]
  }

  function Value(s: seq<Byte>): (v: nat)
    ensures v < Power(|s|)
  {
    if s == [] then 0 else Value(s[..|s| - 1]) * 256 + s[|s| - 1]
  }

  lemma {:induction false} ValueOfBytes(v: nat, k: nat)
    requires v < Power(k)
    ensures Value(Bytes(v, k)) == v
  {
    if k > 0 {
      ValueOfBytes(v / 256, k - 1);
      assert Bytes(v, k)[..k - 1] == Bytes(v / 256, k - 1);
    }
  }

  lemma {:induction false} BytesOfValue(s: seq<Byte>)
    ensures Bytes(Value(s), |s|) == s
  {
    if s != [] {
      BytesOfValue(s[..|s| - 1]);
      assert Value(s) / 256 == Value(s[..|s| - 1]);
    }
  }

  lemma Widths()
    ensures Power(4) == UINT32 && Power(8) == UINT64
  {
    assert Power(4) == 256 * 256 * 256 * 256;
    assert Power(8) == 256 * 256 * 256 * 256 * Power(4);
  }

  // ------------------------------------------------------------- the header

  function Encoded(h: Header): (s: seq<Byte>)
    ensures |s| == HEADER_SIZE
  {
    [h.version, h.kind, if h.direction == DOWNSTREAM then 1 else 0, 0]
    + Bytes(h.sessionID, 8) + Bytes(h.epoch, 4) + Bytes(h.seqNo, 8)
  }

  /** The header a datagram begins with. */
  function Decoded(s: seq<Byte>): Header
    requires |s| >= HEADER_SIZE
  {
    Widths();
    Header(s[0], s[1], if s[2] % 2 == 1 then DOWNSTREAM else UPSTREAM,
           Value(s[4..12]), Value(s[12..16]), Value(s[16..24]))
  }

  /** Decoding what was encoded gives the header back, exactly for the two directions there are. */
  lemma DecodeEncode(h: Header, payload: seq<Byte>)
    ensures Decoded(Encoded(h) + payload) == h <==> h.direction == UPSTREAM || h.direction == DOWNSTREAM
    ensures Decoded(Encoded(h) + payload) == h.(direction := if h.direction == DOWNSTREAM then DOWNSTREAM else UPSTREAM)
  {
    var s := Encoded(h) + payload;
    Widths();
    ValueOfBytes(h.sessionID, 8);
    ValueOfBytes(h.epoch, 4);
    ValueOfBytes(h.seqNo, 8);
    assert s[4..12] == Bytes(h.sessionID, 8);
    assert s[12..16] == Bytes(h.epoch, 4);
    assert s[16..24] == Bytes(h.seqNo, 8);
  }

  /** Encoding what was decoded gives the datagram's first 24 bytes back, exactly when the
      reserved bits are zero. */
  lemma EncodeDecode(s: seq<Byte>)
    requires |s| >= HEADER_SIZE
    ensures Encoded(Decoded(s)) == s[..HEADER_SIZE] <==> s[2] < 2 && s[3] == 0
  {
    BytesOfValue(s[4..12]);
    BytesOfValue(s[12..16]);
    BytesOfValue(s[16..24]);
    var flags: Byte := s[2] % 2;
    assert Encoded(Decoded(s)) == [s[0], s[1], flags, 0] + s[4..12] + s[12..16] + s[16..24];
    assert s[..HEADER_SIZE] == [s[0], s[1], s[2], s[3]] + s[4..12] + s[12..16] + s[16..24];
    assert Encoded(Decoded(s))[2] == flags && Encoded(Decoded(s))[3] == 0;
    assert s[..HEADER_SIZE][2] == s[2] && s[..HEADER_SIZE][3] == s[3];
  }

  /** The number four bytes from `at` on make, most significant first. */
  function Big4(s: seq<Byte>, at: nat): nat
    requires at + 4 <= |s|
  {
    s[at] as int * 0x100_0000 + s[at + 1] as int * 0x1_0000 + s[at + 2] as int * 0x100 + s[at + 3] as int
  }

  lemma ValueOfFour(s: seq<Byte>)
    requires |s| == 4
    ensures Value(s) == Big4(s, 0)
  {
    assert s[..3][..2] == s[..2] && s[..2][..1] == s[..1] && s[..1][..0] == [];
    var first: int := s[0];
    assert Value(s[..1]) == first;
    assert Value(s[..2]) == first * 256 + s[1];
    assert Value(s[..3]) == (first * 256 + s[1]) * 256 + s[2];
  }

  lemma ValueOfEight(s: seq<Byte>)
    requires |s| == 8
    ensures Value(s) == Big4(s, 0) * 0x1_0000_0000 + Big4(s, 4)
  {
    assert s[..7][..6] == s[..6] && s[..6][..5] == s[..5] && s[..5][..4] == s[..4];
    ValueOfFour(s[..4]);
    assert Value(s[..5]) == Big4(s, 0) * 256 + s[4];
    assert Value(s[..6]) == (Big4(s, 0) * 256 + s[4]) * 256 + s[5];
    assert Value(s[..7]) == ((Big4(s, 0) * 256 + s[4]) * 256 + s[5]) * 256 + s[6];
  }

  /** Where everything is in a header: a byte each for version, kind and direction, one reserved,
      then session, epoch and sequence number, big-endian. */
  lemma Layout(h: Header)
    ensures var s := Encoded(h);
            && s[0] == h.version && s[1] == h.kind && s[2] == (if h.direction == 1 then 1 else 0) && s[3] == 0
            && h.sessionID == Big4(s, 4) * 0x1_0000_0000 + Big4(s, 8)
            && h.epoch == Big4(s, 12)
            && h.seqNo == Big4(s, 16) * 0x1_0000_0000 + Big4(s, 20)
  {
    var s := Encoded(h);
    Widths();
    ValueOfBytes(h.sessionID, 8);
    ValueOfBytes(h.epoch, 4);
    ValueOfBytes(h.seqNo, 8);
    ValueOfEight(s[4..12]);
    ValueOfFour(s[12..16]);
    ValueOfEight(s[16..24]);
    assert s[4..12] == Bytes(h.sessionID, 8) && s[12..16] == Bytes(h.epoch, 4) && s[16..24] == Bytes(h.seqNo, 8);
  }

  /** Writes the low k bytes of v at `at`. */
  method PutBytes(buf: array<Byte>, at: nat, v: nat, k: nat)
    requires at + k <= buf.Length
    modifies buf
    ensures buf[at..at + k] == Bytes(v, k)
    ensures forall i :: 0 <= i < buf.Length && !(at <= i < at + k) ==> buf[i] == old(buf[i])
    decreases k
  {
    if k > 0 {
      PutBytes(buf, at, v / 256, k - 1);
      buf[at + k - 1] := v % 256;
      assert buf[at..at + k] == buf[at..at + k - 1] + [v % 256];
    }
  }

  /** Writes h at the front of buf, which must have room for it. */
  method EncodeTo(h: Header, buf: array<Byte>) returns (ok: bool)
    modifies buf
    ensures ok <==> buf.Length >= HEADER_SIZE
    ensures ok ==> buf[..HEADER_SIZE] == Encoded(h) && buf[HEADER_SIZE..] == old(buf[HEADER_SIZE..])
    ensures !ok ==> buf[..] == old(buf[..])
  {
    if buf.Length < HEADER_SIZE {
      return false;
    }
    buf[0], buf[1] := h.version, h.kind;
    var flags: Byte := 0;
    if h.direction == DOWNSTREAM {
      flags := 1;
    }
    buf[2], buf[3] := flags, 0;
    ghost var front := buf[..4];
    PutBytes(buf, 4, h.sessionID, 8);
    PutBytes(buf, 12, h.epoch, 4);
    PutBytes(buf, 16, h.seqNo, 8);
    assert buf[..4] == front;
    assert buf[..HEADER_SIZE] == buf[..4] + buf[4..12] + buf[12..16] + buf[16..24];
    return true;
  }

  // ------------------------------------------------------------- sending

  /** The header of the packet that takes sequence number n. */
  function Stamp(sessionID: Uint64, epoch: Uint32, n: Uint64): Header {
    Header(VERSION, DATA, UPSTREAM, sessionID, epoch, n)
  }

  /** The sequence number i after n, as the 64-bit counter gives it. */
  function After(n: Uint64, i: nat): Uint64 {
    (n + i) % UINT64
  }

  lemma AfterNext(n: Uint64, i: nat)
    ensures After(After(n, i), 1) == After(n, i + 1) && After(n, 0) == n
  {
    var q, r := (n + i) / UINT64, (n + i) % UINT64;
    assert n + i + 1 == q * UINT64 + (r + 1);
  }

  function Framed(h: Header, payload: seq<Byte>): seq<Byte> {
    Encoded(h) + payload
  }

  class SessionBind {
    const sessionID: Uint64
    var epoch: Uint32
    var seqNo: Uint64

    constructor (sessionID: Uint64, epoch: Uint32)
      ensures this.sessionID == sessionID && this.epoch == epoch && seqNo == 0
    {
      this.sessionID, this.epoch, seqNo := sessionID, epoch, 0;
    }

    /** The epoch stamped into every datagram from now on. */
    method SetEpoch(epoch: Uint32)
      modifies this`epoch
      ensures this.epoch == epoch
    {
      this.epoch := epoch;
    }

    /** The datagrams handed to the real connection: each payload behind a header with the
        next sequence number. */
    method Send(bufs: seq<seq<Byte>>) returns (framed: seq<seq<Byte>>)
      modifies this`seqNo
      ensures seqNo == After(old(seqNo), |bufs|)
      ensures framed == Datagrams(sessionID, epoch, old(seqNo), bufs)
      ensures AllCarried(framed, sessionID, epoch, old(seqNo), bufs)
    {
      framed := FrameAll(bufs);
      AllCarry(sessionID, epoch, old(seqNo), bufs);
    }

    method FrameAll(bufs: seq<seq<Byte>>) returns (framed: seq<seq<Byte>>)
      modifies this`seqNo
      ensures seqNo == After(old(seqNo), |bufs|)
      ensures framed == Datagrams(sessionID, epoch, old(seqNo), bufs)
    {
      framed := [];
      AfterNext(seqNo, 0);
      for i := 0 to |bufs|
        invariant seqNo == After(old(seqNo), i)
        invariant framed == Datagrams(sessionID, epoch, old(seqNo), bufs[..i])
      {
        AfterNext(old(seqNo), i);
        seqNo := After(seqNo, 1);
        var out := FrameOne(Stamp(sessionID, epoch, seqNo), bufs[i]);
        framed := framed + [out];
        assert bufs[..i + 1][..i] == bufs[..i];
      }
      assert bufs[..|bufs|] == bufs;
    }
  }

  /** A data packet upstream, of that session, epoch and number. */
  predicate Carries(s: seq<Byte>, sessionID: Uint64, epoch: Uint32, seqNo: Uint64, payload: seq<Byte>) {
    |s| >= HEADER_SIZE && Decoded(s) == Header(1, 0, 0, sessionID, epoch, seqNo) && s[HEADER_SIZE..] == payload
  }

  lemma FramedCarries(sessionID: Uint64, epoch: Uint32, n: Uint64, payload: seq<Byte>)
    ensures Carries(Framed(Stamp(sessionID, epoch, n), payload), sessionID, epoch, n, payload)
  {
    DecodeEncode(Stamp(sessionID, epoch, n), payload);
    assert Framed(Stamp(sessionID, epoch, n), payload)[HEADER_SIZE..] == payload;
  }

  lemma {:induction false} DatagramAt(sessionID: Uint64, epoch: Uint32, from: Uint64, bufs: seq<seq<Byte>>, i: nat)
    requires i < |bufs|
    ensures Datagrams(sessionID, epoch, from, bufs)[i] == Framed(Stamp(sessionID, epoch, After(from, i + 1)), bufs[i])
  {
    var last := |bufs| - 1;
    if i < last {
      DatagramAt(sessionID, epoch, from, bufs[..last], i);
    }
  }

  lemma DatagramCarries(sessionID: Uint64, epoch: Uint32, from: Uint64, bufs: seq<seq<Byte>>, i: nat)
    requires i < |bufs|
    ensures Carries(Datagrams(sessionID, epoch, from, bufs)[i], sessionID, epoch, After(from, i + 1), bufs[i])
  {
    DatagramAt(sessionID, epoch, from, bufs, i);
    FramedCarries(sessionID, epoch, After(from, i + 1), bufs[i]);
  }

  /** Each payload is carried, in order, under the numbers after `from`. */
  ghost predicate AllCarried(framed: seq<seq<Byte>>, sessionID: Uint64, epoch: Uint32, from: Uint64,
                             bufs: seq<seq<Byte>>)
  {
    && |framed| == |bufs|
    && forall i :: 0 <= i < |bufs| ==> Carries(framed[i], sessionID, epoch, (from + 1 + i) % UINT64, bufs[i])
  }

  lemma AllCarry(sessionID: Uint64, epoch: Uint32, from: Uint64, bufs: seq<seq<Byte>>)
    ensures AllCarried(Datagrams(sessionID, epoch, from, bufs), sessionID, epoch, from, bufs)
  {
    forall i | 0 <= i < |bufs|
      ensures Carries(Datagrams(sessionID, epoch, from, bufs)[i], sessionID, epoch, (from + 1 + i) % UINT64, bufs[i])
    {
      DatagramCarries(sessionID, epoch, from, bufs, i);
    }
  }

  method FrameOne(h: Header, payload: seq<Byte>) returns (s: seq<Byte>)
    ensures s == Framed(h, payload)
  {
    var out := new Byte[HEADER_SIZE + |payload|];
    var _ := EncodeTo(h, out);
    for i := 0 to |payload|
      invariant out[..HEADER_SIZE] == Encoded(h) && out[HEADER_SIZE..HEADER_SIZE + i] == payload[..i]
    {
      out[HEADER_SIZE + i] := payload[i];
      assert out[HEADER_SIZE..HEADER_SIZE + i + 1] == out[HEADER_SIZE..HEADER_SIZE + i] + [payload[i]];
    }
    s := out[..];
    assert s == out[..HEADER_SIZE] + out[HEADER_SIZE..HEADER_SIZE + |payload|];
  }

  function Datagrams(sessionID: Uint64, epoch: Uint32, from: Uint64, bufs: seq<seq<Byte>>): (r: seq<seq<Byte>>)
    ensures |r| == |bufs|
  {
    if bufs == [] then []
    else
      var last := |bufs| - 1;
      Datagrams(sessionID, epoch, from, bufs[..last])
      + [Framed(Stamp(sessionID, epoch, After(from, last + 1)), bufs[last])]
  }

  // ------------------------------------------------------------- receiving

  datatype Datagram = Datagram(data: seq<Byte>, source: Name)

  datatype Delivery = Delivery(header: Header, payload: seq<Byte>, source: Name)

  predicate Accepted(d: Datagram, admit: Header -> bool) {
    |d.data| >= HEADER_SIZE && admit(Decoded(d.data))
  }

  function Stripped(d: Datagram): Delivery
    requires |d.data| >= HEADER_SIZE
  {
    Delivery(Decoded(d.data), d.data[HEADER_SIZE..], d.source)
  }

  /** The datagrams that are long enough and admitted, in order, without their headers. */
  function Kept(batch: seq<Datagram>, admit: Header -> bool): (r: seq<Delivery>)
    ensures |r| <= |batch|
  {
    if batch == [] then []
    else
      var d := batch[|batch| - 1];
      Kept(batch[..|batch| - 1], admit) + (if Accepted(d, admit) then [Stripped(d)] else [])
  }

  /** Copies len bytes of src from `from` on to the front of dst, as many as fit; dst and src may
      be the same. */
  method CopyDown(dst: array<Byte>, src: array<Byte>, from: nat, len: nat)
    requires from + len <= src.Length
    modifies dst
    ensures var m := if len < dst.Length then len else dst.Length; dst[..m] == old(src[from..from + m])
  {
    var m := if len < dst.Length then len else dst.Length;
    for i := 0 to m
      invariant forall j :: 0 <= j < i ==> dst[j] == old(src[from + j])
      invariant forall j :: i <= j < src.Length ==> src[j] == old(src[j])
    {
      dst[i] := src[from + i];
    }
  }

  /** A buffer that holds a delivery: all of its payload that the buffer has room for. */
  ghost predicate Holds(packet: array<Byte>, size: nat, source: Name, d: Delivery)
    reads packet
  {
    && size == |d.payload| && source == d.source
    && var m := if size < packet.Length then size else packet.Length; packet[..m] == d.payload[..m]
  }

  ghost predicate Fits(packets: seq<array<Byte>>, sizes: array<nat>, sources: array<Name>, n: nat) {
    && n <= |packets| && n <= sizes.Length && n <= sources.Length
    && forall i, j :: 0 <= i < j < |packets| ==> packets[i] != packets[j]
  }

  /** Buffers i and up still hold what was received. */
  ghost predicate Waiting(packets: seq<array<Byte>>, sizes: array<nat>, sources: array<Name>, batch: seq<Datagram>,
                          i: nat)
    requires Fits(packets, sizes, sources, |batch|)
    reads packets, sizes, sources
  {
    forall j :: i <= j < |batch| ==>
      sizes[j] <= packets[j].Length && packets[j][..sizes[j]] == batch[j].data && sources[j] == batch[j].source
  }

  /** The first buffers hold the deliveries. */
  ghost predicate Done(packets: seq<array<Byte>>, sizes: array<nat>, sources: array<Name>, kept: seq<Delivery>)
    requires Fits(packets, sizes, sources, |kept|)
    reads packets, sizes, sources
  {
    forall k :: 0 <= k < |kept| ==> Holds(packets[k], sizes[k], sources[k], kept[k])
  }

  lemma MiddleOf(s: seq<Byte>, size: nat, m: nat)
    requires HEADER_SIZE + m <= size <= |s|
    ensures s[HEADER_SIZE..HEADER_SIZE + m] == s[..size][HEADER_SIZE..][..m]
  {
  }

  /** Moves datagram i, without its header, down to the next free buffer. */
  method MoveDown(packets: seq<array<Byte>>, sizes: array<nat>, sources: array<Name>, ghost batch: seq<Datagram>,
                  i: nat, out: nat,
                  ghost kept: seq<Delivery>)
    requires out == |kept| <= i < |batch| && Fits(packets, sizes, sources, |batch|)
    requires Waiting(packets, sizes, sources, batch, i) && Done(packets, sizes, sources, kept)
             && |batch[i].data| >= HEADER_SIZE
    modifies packets[out], sizes, sources
    ensures Waiting(packets, sizes, sources, batch, i + 1) && Done(packets, sizes, sources, kept + [Stripped(batch[i])])
  {
    var len := sizes[i] - HEADER_SIZE;
    ghost var payload := batch[i].data[HEADER_SIZE..];
    ghost var m := if len < packets[out].Length then len else packets[out].Length;
    ghost var held := packets[i][..];
    assert packets[i][HEADER_SIZE..HEADER_SIZE + m] == held[HEADER_SIZE..HEADER_SIZE + m]
           && held[..sizes[i]] == batch[i].data;
    MiddleOf(held, sizes[i], m);
    CopyDown(packets[out], packets[i], HEADER_SIZE, len);
    sizes[out] := len;
    sources[out] := sources[i];
    assert Holds(packets[out], sizes[out], sources[out], Stripped(batch[i]));
  }

  /** The header of a datagram that is long enough and admitted. */
  method Check(packet: array<Byte>, size: nat, admit: Header -> bool) returns (ok: bool, h: Header)
    requires size <= packet.Length
    ensures ok <==> size >= HEADER_SIZE && admit(Decoded(packet[..size]))
    ensures ok ==> h == Decoded(packet[..size])
  {
    if size < HEADER_SIZE {
      return false, Stamp(0, 0, 0);
    }
    h := Decoded(packet[..size]);
    return admit(h), h;
  }

  /** Datagrams below i have been dealt with. */
  ghost predicate Compacted(packets: seq<array<Byte>>, sizes: array<nat>, sources: array<Name>, batch: seq<Datagram>,
                            i: nat, kept: seq<Delivery>, seen: seq<Header>)
    requires |kept| <= i <= |batch| && Fits(packets, sizes, sources, |batch|)
    reads packets, sizes, sources
  {
    && seen == Headers(kept)
    && Waiting(packets, sizes, sources, batch, i) && Done(packets, sizes, sources, kept)
  }

  /** Deals with datagram i, which goes to the next free buffer or nowhere. */
  method ReceiveOne(packets: seq<array<Byte>>, sizes: array<nat>, sources: array<Name>, i: nat, out: nat,
                    seen: seq<Header>,
                    admit: Header -> bool, ghost batch: seq<Datagram>, ghost kept: seq<Delivery>)
    returns (next: nat, heard: seq<Header>)
    requires out == |kept| <= i < |batch| && Fits(packets, sizes, sources, |batch|)
    requires Compacted(packets, sizes, sources, batch, i, kept, seen)
    modifies packets[out], sizes, sources
    ensures var now := kept + (if Accepted(batch[i], admit) then [Stripped(batch[i])] else []);
            next == |now| && Compacted(packets, sizes, sources, batch, i + 1, now, heard)
  {
    var ok, h := Check(packets[i], sizes[i], admit);
    if !ok {
      assert kept + [] == kept;
      return out, seen;
    }
    HeadersNext(kept, Stripped(batch[i]));
    MoveDown(packets, sizes, sources, batch, i, out, kept);
    return out + 1, seen + [h];
  }

  /** Compacts a batch of n datagrams in place; `seen` are the headers reported. */
  method Receive(packets: seq<array<Byte>>, sizes: array<nat>, sources: array<Name>, n: nat, admit: Header -> bool,
                 ghost batch: seq<Datagram>)
    returns (out: nat, seen: seq<Header>)
    requires n == |batch| && Fits(packets, sizes, sources, n) && Waiting(packets, sizes, sources, batch, 0)
    modifies packets, sizes, sources
    ensures out == |Kept(batch, admit)| && seen == Headers(Kept(batch, admit))
    ensures Done(packets, sizes, sources, Kept(batch, admit))
  {
    out, seen := 0, [];
    ghost var kept: seq<Delivery> := [];
    for i := 0 to n
      invariant out == |kept| <= i && kept == Kept(batch[..i], admit)
      invariant Compacted(packets, sizes, sources, batch, i, kept, seen)
    {
      KeptNext(batch, i, admit);
      out, seen := ReceiveOne(packets, sizes, sources, i, out, seen, admit, batch, kept);
      kept := Kept(batch[..i + 1], admit);
    }
    assert batch[..n] == batch;
  }

  lemma HeadersNext(ds: seq<Delivery>, d: Delivery)
    ensures Headers(ds + [d]) == Headers(ds) + [d.header]
  {
  }

  lemma KeptNext(batch: seq<Datagram>, i: nat, admit: Header -> bool)
    requires i < |batch|
    ensures Kept(batch[..i + 1], admit) ==
            Kept(batch[..i], admit) + (if Accepted(batch[i], admit) then [Stripped(batch[i])] else [])
  {
    assert batch[..i + 1][..i] == batch[..i];
  }

  function Headers(ds: seq<Delivery>): seq<Header> {
    seq(|ds|, i requires 0 <= i < |ds| => ds[i].header)
  }

  /** No payload is longer than what was received, less the header. */
  lemma {:induction false} KeptShort(batch: seq<Datagram>, admit: Header -> bool, len: nat)
    requires forall i :: 0 <= i < |batch| ==> |batch[i].data| <= len
    ensures forall k :: 0 <= k < |Kept(batch, admit)| ==> |Kept(batch, admit)[k].payload| + HEADER_SIZE <= len
  {
    if batch != [] {
      KeptShort(batch[..|batch| - 1], admit, len);
    }
  }

  /** With buffers of one length, every delivery is whole. */
  lemma EqualBuffersHoldAll(packets: seq<array<Byte>>, sizes: array<nat>, sources: array<Name>, batch: seq<Datagram>,
                            admit: Header -> bool, len: nat, k: nat)
    requires forall i :: 0 <= i < |packets| ==> packets[i].Length == len
    requires forall i :: 0 <= i < |batch| ==> |batch[i].data| <= len
    requires k < |Kept(batch, admit)| && Fits(packets, sizes, sources, |batch|)
             && Done(packets, sizes, sources, Kept(batch, admit))
    ensures sizes[k] <= packets[k].Length && packets[k][..sizes[k]] == Kept(batch, admit)[k].payload
  {
    KeptShort(batch, admit, len);
    var d := Kept(batch, admit)[k];
    assert Holds(packets[k], sizes[k], sources[k], d);
    assert d.payload[..|d.payload|] == d.payload;
  }

  // ------------------------------------------------------------- end to end

  function Arrivals(framed: seq<seq<Byte>>, source: Name): seq<Datagram> {
    seq(|framed|, i requires 0 <= i < |framed| => Datagram(framed[i], source))
  }

  /** What was sent: the payloads with their headers. */
  function Sent(sessionID: Uint64, epoch: Uint32, from: Uint64, bufs: seq<seq<Byte>>, source: Name): seq<Delivery> {
    seq(|bufs|, i requires 0 <= i < |bufs| =>
      Delivery(Header(1, 0, 0, sessionID, epoch, After(from, i + 1)), bufs[i], source))
  }

  function Admitted(ds: seq<Delivery>, admit: Header -> bool): seq<Delivery> {
    if ds == [] then []
    else Admitted(ds[..|ds| - 1], admit) + (if admit(ds[|ds| - 1].header) then [ds[|ds| - 1]] else [])
  }

  lemma StrippedIsSent(sessionID: Uint64, epoch: Uint32, from: Uint64, bufs: seq<seq<Byte>>, source: Name, i: nat)
    requires i < |bufs|
    ensures var d := Arrivals(Datagrams(sessionID, epoch, from, bufs), source)[i];
            |d.data| >= HEADER_SIZE && Stripped(d) == Sent(sessionID, epoch, from, bufs, source)[i]
  {
    DatagramCarries(sessionID, epoch, from, bufs, i);
  }

  /** Stripping datagrams whose headers are known keeps the admitted ones. */
  lemma {:induction false} KeptIsAdmitted(batch: seq<Datagram>, sent: seq<Delivery>, admit: Header -> bool)
    requires |batch| == |sent|
    requires forall i :: 0 <= i < |batch| ==> |batch[i].data| >= HEADER_SIZE && Stripped(batch[i]) == sent[i]
    ensures Kept(batch, admit) == Admitted(sent, admit)
  {
    if batch != [] {
      var last := |batch| - 1;
      KeptIsAdmitted(batch[..last], sent[..last], admit);
      assert Stripped(batch[last]) == sent[last];
    }
  }

  /** Receiving what was sent delivers exactly the payloads sent whose headers are admitted, in
      order, with the headers they were sent with. */
  lemma ReceivedIsSent(sessionID: Uint64, epoch: Uint32, from: Uint64, bufs: seq<seq<Byte>>, source: Name,
                       admit: Header -> bool)
    ensures Kept(Arrivals(Datagrams(sessionID, epoch, from, bufs), source), admit) ==
            Admitted(Sent(sessionID, epoch, from, bufs, source), admit)
  {
    var batch, sent := Arrivals(Datagrams(sessionID, epoch, from, bufs), source),
                       Sent(sessionID, epoch, from, bufs, source);
    forall i | 0 <= i < |batch| ensures |batch[i].data| >= HEADER_SIZE && Stripped(batch[i]) == sent[i] {
      StrippedIsSent(sessionID, epoch, from, bufs, source, i);
    }
    KeptIsAdmitted(batch, sent, admit);
  }

  /** Sequence numbers rise from one datagram to the next, exactly until the counter wraps. */
  lemma NumbersRiseExactly(from: Uint64, n: nat)
    ensures (forall i, j :: 0 <= i < j <= n ==> After(from, i) < After(from, j)) <==> from + n < UINT64
  {
    if from + n >= UINT64 {
      var j := UINT64 - from;
      assert After(from, j) == 0 && After(from, 0) == from;
    } else {
      forall i | 0 <= i <= n ensures After(from, i) == from + i {}
    }
  }
}
