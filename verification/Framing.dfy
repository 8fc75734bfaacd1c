/** Length-prefixed chunk streams: chunk_write of output-chunkstream.c and input_get of input-chunkstream.c. */
module Framing {
  import opened Common

  const BUFSIZE := 65536 * 8

  /** encodeChunk and decodeChunk of the GRAPES library. */
  datatype Codec = Codec(encode: Chunk -> seq<byte>, decode: seq<byte> -> Option<Chunk>) {
    ghost predicate Inverse() {
      forall c {:trigger encode(c)} :: decode(encode(c)) == Some(c)
    }
  }

  /** What encodeChunk returns for an encoding and the room it is given. */
  function EncodeResult(enc: seq<byte>, room: int): int {
    if |enc| <= room then |enc| else -1
  }

  // ---------------------------------------------------------------- headers

  function Digit(n: nat, unit: nat): byte
    requires unit > 0
  {
    (n / unit) % 256
  }

  /** Four bytes, most significant first. */
  function Header(n: nat): (h: seq<byte>)
    ensures |h| == 4
  {
    [Digit(n, 0x100_0000), Digit(n, 0x1_0000), Digit(n, 0x100), Digit(n, 1)]
  }

  function Value(b: seq<byte>): (n: nat)
    requires |b| >= 4
  {
    ((b[0] as int * 256 + b[1] as int) * 256 + b[2] as int) * 256 + b[3] as int
  }

  /** Most significant byte first. */
  lemma {:induction false} HeaderBytes(n: nat)
    requires n < 0x1_0000_0000
    ensures var h := Header(n);
            n == 0x100_0000 * h[0] as int + 0x1_0000 * h[1] as int + 0x100 * h[2] as int + h[3] as int
  {
    HeaderValue(n, []);
    assert Header(n) + [] == Header(n);
  }

  lemma {:induction false} HeaderValue(n: nat, rest: seq<byte>)
    requires n < 0x1_0000_0000
    ensures Value(Header(n) + rest) == n
  {
    var h := Header(n);
    assert n / 0x100 == (n / 0x100) / 256 * 256 + h[2];
    assert (n / 0x100) / 256 == n / 0x1_0000;
    assert n / 0x1_0000 == (n / 0x1_0000) / 256 * 256 + h[1];
    assert (n / 0x1_0000) / 256 == n / 0x100_0000;
  }

  function Frame(enc: seq<byte>): seq<byte> {
    Header(|enc|) + enc
  }

  function Frames(codec: Codec, cs: seq<Chunk>): seq<byte> {
    if cs == [] then [] else Frame(codec.encode(cs[0])) + Frames(codec, cs[1..])
  }

  lemma {:induction false} FramesAppend(codec: Codec, cs: seq<Chunk>, c: Chunk)
    ensures Frames(codec, cs + [c]) == Frames(codec, cs) + Frame(codec.encode(c))
  {
    if cs == [] {
      assert Frames(codec, [c]) == Frame(codec.encode(c)) + [];
    } else {
      assert (cs + [c])[1..] == cs[1..] + [c];
      FramesAppend(codec, cs[1..], c);
    }
  }

  // ---------------------------------------------------------------- the writer

  /** The send buffer after an encoding was put behind its content. An encoder's refusal is stored in an unsigned
      variable, so it is taken for a huge size: its header goes in and the position advances by three. */
  function Appended(buf: seq<byte>, enc: seq<byte>): seq<byte> {
    if |enc| > BUFSIZE - |buf| then buf + [255, 255, 255]
    else if enc == [] then buf
    else buf + Frame(enc)
  }

  /** The header fits, and so does the encoding behind it unless the encoder refuses. */
  predicate InBounds(pos: nat, enc: seq<byte>) {
    enc == [] || pos + 4 + (if |enc| <= BUFSIZE - pos then |enc| else 0) <= BUFSIZE
  }

  function ToUnsigned(n: int): nat {
    n % 0x1_0000_0000
  }

  function ToSigned(n: int): int {
    if n % 0x1_0000_0000 < 0x8000_0000 then n % 0x1_0000_0000 else n % 0x1_0000_0000 - 0x1_0000_0000
  }

  /** The offsets from the start of the buffer that one call stores to: the encoder's, then the header's. */
  ghost function Stores(pos: nat, enc: seq<byte>): set<int> {
    (if |enc| <= BUFSIZE - pos then Range(pos + 4, |enc|) else {})
    + if ToUnsigned(EncodeResult(enc, BUFSIZE - pos)) > 0 then Range(pos, 4) else {}
  }

  ghost predicate Inside(offsets: set<int>) {
    forall i :: i in offsets ==> 0 <= i < BUFSIZE
  }

  /** What the operating system does with the bytes it is offered. */
  datatype SendResult = Sent(n: nat) | Stalled | Broken

  lemma {:induction false} AppendedSize(buf: seq<byte>, enc: seq<byte>)
    ensures |Appended(buf, enc)| ==
      |buf| + if |enc| > BUFSIZE - |buf| then 3 else if enc == [] then 0 else 4 + |enc|
    ensures enc == [] && |buf| <= BUFSIZE ==> Appended(buf, enc) == buf
  {
  }

  lemma {:induction false} SizeField(pos: nat, enc: seq<byte>)
    requires pos <= BUFSIZE
    ensures var size := ToUnsigned(EncodeResult(enc, BUFSIZE - pos));
            if |enc| <= BUFSIZE - pos then size == |enc| && ToSigned(pos + 4 + size) == pos + 4 + |enc|
            else size > 0 && Header(size) == [255, 255, 255, 255] && ToSigned(pos + 4 + size) == pos + 3
  {
    if |enc| > BUFSIZE - pos {
      Division(-1, -1, 0xFFFF_FFFF, 0x1_0000_0000);
      Division(pos + 4 + 0xFFFF_FFFF, 1, pos + 3, 0x1_0000_0000);
    }
  }

  /** The room given to the encoder counts the four header bytes too, so not every call keeps inside the buffer. */
  lemma {:induction false} StoresInside(pos: nat, enc: seq<byte>)
    requires pos <= BUFSIZE
    ensures Inside(Stores(pos, enc)) <==> InBounds(pos, enc)
  {
    SizeField(pos, enc);
    hide ToUnsigned, EncodeResult, Range;
    var offsets := Stores(pos, enc);
    if enc != [] {
      assert pos + 3 in offsets;
      assert |enc| <= BUFSIZE - pos ==> pos + 3 + |enc| in offsets;
    }
  }

  /** An empty buffer is overrun by exactly the encodings that the encoder just still writes. */
  lemma {:induction false} FirstCallOverruns(enc: seq<byte>)
    ensures !Inside(Stores(0, enc)) <==> 524_284 < |enc| <= 524_288
    ensures |enc| == 524_288 ==> 524_291 in Stores(0, enc)
  {
    StoresInside(0, enc);
  }

  /** The stores of a call whose encoding fits, seen on the whole buffer. */
  lemma {:induction false} FittingBytes(all: seq<byte>, pos: nat, enc: seq<byte>)
    requires |all| == BUFSIZE && 0 < |enc| && pos + 4 + |enc| <= BUFSIZE
    ensures Appended(all[..pos], enc) == Spliced(Spliced(all, pos + 4, enc), pos, Header(|enc|))[..pos + 4 + |enc|]
  {
    hide Header;
    var once := Spliced(all, pos + 4, enc);
    var twice := Spliced(once, pos, Header(|enc|));
    assert twice[..pos] == all[..pos];
    assert twice[pos..pos + 4] == Header(|enc|);
    assert twice[pos + 4..pos + 4 + |enc|] == enc;
    ThreeParts(twice, pos, pos + 4, pos + 4 + |enc|);
    assert all[..pos] + (Header(|enc|) + enc) == all[..pos] + Header(|enc|) + enc;
  }

  lemma {:induction false} ThreeParts<T>(s: seq<T>, i: nat, j: nat, k: nat)
    requires i <= j <= k <= |s|
    ensures s[..k] == s[..i] + s[i..j] + s[j..k]
  {
  }

  /** The stores of a call whose encoding is refused. */
  lemma {:induction false} RefusedBytes(all: seq<byte>, pos: nat, enc: seq<byte>)
    requires |all| == BUFSIZE && pos + 4 <= BUFSIZE && |enc| > BUFSIZE - pos
    ensures Appended(all[..pos], enc) == Spliced(all, pos, [255, 255, 255, 255])[..pos + 3]
  {
    var once := Spliced(all, pos, [255, 255, 255, 255]);
    assert once[..pos] == all[..pos] && once[pos..pos + 3] == [255, 255, 255];
    assert once[..pos + 3] == once[..pos] + once[pos..pos + 3];
  }

  /** Stores `s` from offset `off` on; `overrun` tells that some of it lies behind the array. */
  method Store(a: array<byte>, off: nat, s: seq<byte>) returns (overrun: bool)
    modifies a
    ensures overrun <==> s != [] && off + |s| > a.Length
    ensures off + |s| <= a.Length ==> a[..] == Spliced(old(a[..]), off, s)
  {
    ghost var was := a[..];
    overrun := false;
    for i := 0 to |s|
      invariant overrun <==> i > 0 && off + i > a.Length
      invariant off + i <= a.Length ==> a[..] == Spliced(was, off, s[..i])
    {
      if off + i < a.Length {
        a[off + i] := s[i];
      } else {
        overrun := true;
      }
    }
    assert s[..|s|] == s;
  }

  /** memcpy into an array. */
  method Put(a: array<byte>, off: nat, s: seq<byte>)
    requires off + |s| <= a.Length
    modifies a
    ensures a[..] == Spliced(old(a[..]), off, s)
  {
    forall i | 0 <= i < |s| {
      a[off + i] := s[i];
    }
  }

  /** memmove of `count` bytes from `n` to the front. */
  method MoveDown(a: array<byte>, n: nat, count: nat)
    requires n + count <= a.Length
    modifies a
    ensures a[..count] == old(a[n..n + count])
  {
    forall i | 0 <= i < count {
      a[i] := a[n + i];
    }
  }

  class ChunkWriter {
    const sendbuf: array<byte>
    var pos: int
    var connected: bool

    ghost predicate Valid()
      reads this
    {
      sendbuf.Length == BUFSIZE && 0 <= pos <= BUFSIZE
    }

    ghost function Unsent(): seq<byte>
      requires Valid()
      reads this, sendbuf
    {
      sendbuf[..pos]
    }

    constructor (connected: bool)
      ensures Valid() && fresh(sendbuf) && Unsent() == [] && this.connected == connected
    {
      sendbuf := new byte[BUFSIZE];
      pos := 0;
      this.connected := connected;
    }

    /** `overrun` tells that a store lies behind the buffer. What the program does after that is not defined. */
    method Append(enc: seq<byte>) returns (overrun: bool)
      requires Valid()
      modifies this`pos, sendbuf
      ensures overrun <==> !Inside(Stores(old(pos), enc))
      ensures overrun <==> !InBounds(old(pos), enc)
      ensures pos == |Appended(old(Unsent()), enc)|
      ensures !overrun ==> Valid() && Unsent() == Appended(old(Unsent()), enc)
    {
      hide ToUnsigned, ToSigned, EncodeResult, Appended, Spliced, Header, Stores, Inside;
      ghost var all := sendbuf[..];
      ghost var was := pos;
      assert all[..was] == sendbuf[..pos];
      var size := ToUnsigned(EncodeResult(enc, BUFSIZE - pos));
      SizeField(pos, enc);
      StoresInside(pos, enc);
      AppendedSize(all[..was], enc);
      var behind := false;
      if 0 < |enc| <= BUFSIZE - pos {
        behind := Store(sendbuf, pos + 4, enc);
      }
      overrun := behind;
      if size > 0 {
        behind := Store(sendbuf, pos, Header(size));
        overrun := overrun || behind;
        pos := ToSigned(pos + 4 + size);
      }
      if !overrun {
        if 0 < |enc| <= BUFSIZE - was {
          FittingBytes(all, was, enc);
        } else if enc != [] {
          RefusedBytes(all, was, enc);
        }
        assert sendbuf[..pos] == sendbuf[..][..pos];
      }
    }

    /** `reconnects` tells how an attempt to reconnect would end; `wire` is what leaves on this connection. */
    method ChunkWrite(enc: seq<byte>, reconnects: bool, result: SendResult) returns (wire: seq<byte>, overrun: bool)
      requires Valid()
      requires result.Sent? ==> result.n <= |Appended(Unsent(), enc)|
      modifies this, sendbuf
      ensures overrun <==> !InBounds(old(pos), enc)
      ensures !overrun ==> Valid()
      ensures !overrun ==>
        var full := Appended(old(Unsent()), enc);
        if !old(connected) && !reconnects then !connected && wire == [] && Unsent() == full
        else
          match result
          case Sent(n) => connected && wire + Unsent() == full && |wire| == n
          case Stalled => connected && wire == [] && Unsent() == full
          case Broken => !connected && wire == [] && Unsent() == []
    {
      hide Stores, Inside, InBounds, Appended;
      overrun := Append(enc);
      if overrun {
        return [], true;
      }
      wire := [];
      if !connected {
        connected := reconnects;
      }
      if !connected {
        return;
      }
      match result
      case Sent(n) =>
        ghost var full := sendbuf[..pos];
        wire := sendbuf[..n];
        pos := pos - n;
        MoveDown(sendbuf, n, pos);
        assert wire + sendbuf[..pos] == full;
      case Stalled =>
      case Broken =>
        pos := 0;
        connected := false;
    }
  }

  // ---------------------------------------------------------------- the reader

  predicate HasFrame(buf: seq<byte>) {
    |buf| >= 4 && |buf| >= 4 + Value(buf)
  }

  function Payload(buf: seq<byte>): seq<byte>
    requires HasFrame(buf)
  {
    buf[4..4 + Value(buf)]
  }

  function Rest(buf: seq<byte>): seq<byte>
    requires HasFrame(buf)
  {
    buf[4 + Value(buf)..]
  }

  function Stripped(c: Chunk): Chunk {
    c.(attributes := [])
  }

  /** The chunk one call hands out and the buffer it leaves. */
  function Taken(codec: Codec, buf: seq<byte>): (Option<Chunk>, seq<byte>) {
    if !HasFrame(buf) then (None, buf)
    else
      match codec.decode(Payload(buf))
      case None => (None, buf)
      case Some(c) => (Some(Stripped(c)), Rest(buf))
  }

  /** A complete frame that decodes comes out as the chunk in it, without its attributes, and leaves the buffer; nothing
      else comes out or leaves. */
  lemma {:induction false} TakenMeaning(codec: Codec, buf: seq<byte>)
    ensures var (c, rest) := Taken(codec, buf);
            if |buf| >= 4 && |buf| >= 4 + Value(buf) && codec.decode(buf[4..4 + Value(buf)]).Some? then
              var whole := codec.decode(buf[4..4 + Value(buf)]).value;
              && c == Some(Chunk(whole.id, whole.timestamp, whole.data, [])) && rest == buf[4 + Value(buf)..]
            else c == None && rest == buf
  {
    hide Value;
  }

  lemma {:induction false} FrontValue(buf: seq<byte>)
    requires |buf| >= 4
    ensures Value(buf) == Value(buf[..4])
  {
  }

  class ChunkReader {
    const recvbuf: array<byte>
    var pos: nat

    ghost predicate Valid()
      reads this
    {
      recvbuf.Length == BUFSIZE && pos <= BUFSIZE
    }

    ghost function Unread(): seq<byte>
      requires Valid()
      reads this, recvbuf
    {
      recvbuf[..pos]
    }

    constructor ()
      ensures Valid() && fresh(recvbuf) && Unread() == []
    {
      recvbuf := new byte[BUFSIZE];
      pos := 0;
    }

    /** `incoming` is what recv delivers, nothing when it would block. `again` is the return value 0: call again
        at once; otherwise the call returns INT_MAX. */
    method InputGet(codec: Codec, incoming: seq<byte>) returns (c: Option<Chunk>, again: bool)
      requires Valid() && |incoming| <= BUFSIZE - pos
      modifies this, recvbuf
      ensures Valid()
      ensures (c, Unread()) == Taken(codec, old(Unread()) + incoming)
      ensures again <==> HasFrame(Unread()) && (HasFrame(old(Unread()) + incoming) ==> c.Some?)
    {
      ghost var buf := recvbuf[..pos] + incoming;
      hide Value;
      Put(recvbuf, pos, incoming);
      pos := pos + |incoming|;
      assert recvbuf[..pos] == buf;
      c := None;
      if pos < 4 {
        return None, false;
      }
      var size := Value(recvbuf[..4]);
      FrontValue(buf);
      assert recvbuf[..4] == buf[..4];
      if pos >= 4 + size {
        assert recvbuf[4..4 + size] == Payload(buf);
        var decoded := codec.decode(recvbuf[4..4 + size]);
        if decoded.None? {
          return None, false;
        }
        c := Some(Stripped(decoded.value));
        pos := pos - (4 + size);
        MoveDown(recvbuf, 4 + size, pos);
        assert recvbuf[..pos] == Rest(buf);
      }
      again := false;
      if pos >= 4 {
        FrontValue(recvbuf[..pos]);
        assert recvbuf[..4] == recvbuf[..pos][..4];
        size := Value(recvbuf[..4]);
        if pos >= 4 + size {
          again := true;
        }
      }
    }
  }

  // ---------------------------------------------------------------- one unbroken connection

  /** A writer and a reader joined by a byte stream. `sent` and `received` are all bytes that left the one and
      reached the other; `read` are the chunks handed out by the reader. `written` are the chunks that went into the
      stream whole before the encoder refused one, and `tail` is everything put in from the first refusal on. */
  datatype Link = Link(
    sendBuf: seq<byte>, sent: seq<byte>, received: seq<byte>, recvBuf: seq<byte>,
    written: seq<Chunk>, tail: seq<byte>, read: seq<Chunk>)

  const QUIET := Link([], [], [], [], [], [], [])

  /** One call of chunk_write, whose send takes `n` bytes (none when it stalls), or one of input_get, to which
      the stream delivers the next `n` bytes. */
  datatype Event = Write(c: Chunk, n: nat) | Read(n: nat)

  /** A call that overruns the send buffer ends what can be said. */
  ghost predicate Possible(codec: Codec, l: Link, e: Event) {
    match e
    case Write(c, n) => InBounds(|l.sendBuf|, codec.encode(c)) && n <= |Appended(l.sendBuf, codec.encode(c))|
    case Read(n) => |l.received| + n <= |l.sent| && |l.recvBuf| + n <= BUFSIZE
  }

  ghost predicate Refused(codec: Codec, l: Link, e: Event) {
    e.Write? && |codec.encode(e.c)| > BUFSIZE - |l.sendBuf|
  }

  ghost function Next(codec: Codec, l: Link, e: Event): Link
    requires Possible(codec, l, e)
  {
    match e
    case Write(c, n) =>
      var full := Appended(l.sendBuf, codec.encode(c));
      var spoilt := l.tail != [] || Refused(codec, l, e);
      l.(sendBuf := full[n..], sent := l.sent + full[..n],
         written := if spoilt || codec.encode(c) == [] then l.written else l.written + [c],
         tail := if spoilt then l.tail + full[|l.sendBuf|..] else [])
    case Read(n) =>
      var incoming := l.sent[|l.received|..|l.received| + n];
      var (c, rest) := Taken(codec, l.recvBuf + incoming);
      l.(received := l.received + incoming, recvBuf := rest, read := if c.Some? then l.read + [c.value] else l.read)
  }

  ghost predicate Runs(codec: Codec, events: seq<Event>)
    decreases |events|, 0
  {
    events == [] || (Runs(codec, events[..|events| - 1])
                     && Possible(codec, After(codec, events[..|events| - 1]), events[|events| - 1]))
  }

  ghost function After(codec: Codec, events: seq<Event>): Link
    requires Runs(codec, events)
    decreases |events|, 1
  {
    if events == [] then QUIET
    else Next(codec, After(codec, events[..|events| - 1]), events[|events| - 1])
  }

  function StrippedAll(cs: seq<Chunk>): (r: seq<Chunk>)
    ensures |r| == |cs|
  {
    seq(|cs|, i requires 0 <= i < |cs| => Stripped(cs[i]))
  }

  /** The stream of the writer: whole frames, then nothing or the stray bytes of a refusal and what follows them. */
  ghost predicate Stream(codec: Codec, cs: seq<Chunk>, tail: seq<byte>) {
    && (tail == [] || STRAY <= tail)
    && forall c :: c in cs ==> 0 < |codec.encode(c)| && 4 + |codec.encode(c)| <= BUFSIZE
  }

  const STRAY: seq<byte> := [255, 255, 255]

  /** No byte is lost, reordered or read twice. */
  ghost predicate InOrder(codec: Codec, l: Link) {
    && Stream(codec, l.written, l.tail)
    && l.sent + l.sendBuf == Frames(codec, l.written) + l.tail && |l.sendBuf| <= BUFSIZE
    && l.received <= l.sent && |l.recvBuf| <= BUFSIZE
    && |l.read| <= |l.written| && l.read == StrippedAll(l.written[..|l.read|])
    && Frames(codec, l.written[..|l.read|]) + l.recvBuf == l.received
  }

  lemma {:induction false} FramesSplit(codec: Codec, cs: seq<Chunk>, ds: seq<Chunk>)
    ensures Frames(codec, cs + ds) == Frames(codec, cs) + Frames(codec, ds)
  {
    if cs == [] {
      assert cs + ds == ds;
    } else {
      assert (cs + ds)[1..] == cs[1..] + ds;
      FramesSplit(codec, cs[1..], ds);
    }
  }

  lemma {:induction false} PrefixCancel<T>(front: seq<T>, s: seq<T>, t: seq<T>)
    requires front + s <= front + t
    ensures s <= t
  {
    assert forall i :: 0 <= i < |s| ==> s[i] == (front + s)[|front| + i] && t[i] == (front + t)[|front| + i];
  }

  /** A buffer that agrees with the frame of `enc` and whatever follows it has its first frame complete exactly when it
      is long enough, and that frame is the one of `enc`. */
  lemma {:induction false} FirstFrame(buf: seq<byte>, enc: seq<byte>, later: seq<byte>)
    requires buf <= Frame(enc) + later && |enc| < 0x1_0000_0000
    ensures HasFrame(buf) <==> |buf| >= 4 + |enc|
    ensures HasFrame(buf) ==> Payload(buf) == enc && Rest(buf) == buf[4 + |enc|..] && buf == Frame(enc) + Rest(buf)
  {
    var all := Frame(enc) + later;
    assert all == Header(|enc|) + (enc + later);
    HeaderValue(|enc|, enc + later);
    if |buf| >= 4 {
      FrontValue(buf);
      FrontValue(all);
      assert buf[..4] == all[..4];
      hide Value, Header;
      if |buf| >= 4 + |enc| {
        assert buf[4..4 + |enc|] == all[4..4 + |enc|] == enc;
        assert buf[..4 + |enc|] == all[..4 + |enc|] == Frame(enc);
      }
    }
  }

  /** Behind the stray bytes of a refused chunk no frame is ever complete. */
  lemma {:induction false} StrayBytesBlock(buf: seq<byte>, tail: seq<byte>)
    requires buf <= tail && |buf| <= BUFSIZE && (tail == [] || STRAY <= tail)
    ensures !HasFrame(buf)
  {
    if |buf| >= 4 {
      assert buf[0] == STRAY[0] && buf[1] == STRAY[1] && buf[2] == STRAY[2];
      assert Value(buf) >= 0xFFFF_FF00;
    }
  }

  /** What one call makes of a buffer that continues the stream behind the first `k` frames. */
  lemma {:induction false} TakesNext(codec: Codec, cs: seq<Chunk>, tail: seq<byte>, k: nat, buf: seq<byte>)
    requires codec.Inverse() && Stream(codec, cs, tail) && k <= |cs| && |buf| <= BUFSIZE
    requires Frames(codec, cs[..k]) + buf <= Frames(codec, cs) + tail
    ensures var (c, rest) := Taken(codec, buf);
            if c.None? then rest == buf
            else k < |cs| && c.value == Stripped(cs[k]) && |rest| <= |buf|
                 && Frames(codec, cs[..k + 1]) + rest == Frames(codec, cs[..k]) + buf
  {
    hide Frames, HasFrame, Value, Payload, Rest, Frame;
    StreamBehind(codec, cs, tail, k, buf);
    if k == |cs| {
      StrayBytesBlock(buf, tail);
    } else {
      assert cs[k] in cs;
      var enc := codec.encode(cs[k]);
      FirstFrame(buf, enc, Frames(codec, cs[k + 1..]) + tail);
      FramesAppend(codec, cs[..k], cs[k]);
      assert cs[..k + 1] == cs[..k] + [cs[k]];
      if HasFrame(buf) {
        assert codec.decode(enc) == Some(cs[k]);
        assert Frames(codec, cs[..k]) + Frame(enc) + Rest(buf) == Frames(codec, cs[..k]) + (Frame(enc) + Rest(buf));
      }
    }
  }

  /** What the stream holds behind its first `k` frames. */
  lemma {:induction false} StreamBehind(codec: Codec, cs: seq<Chunk>, tail: seq<byte>, k: nat, buf: seq<byte>)
    requires k <= |cs| && Frames(codec, cs[..k]) + buf <= Frames(codec, cs) + tail
    ensures if k == |cs| then buf <= tail
            else buf <= Frame(codec.encode(cs[k])) + (Frames(codec, cs[k + 1..]) + tail)
  {
    var later := cs[k..];
    FramesSplit(codec, cs[..k], later);
    assert cs == cs[..k] + later;
    if k == |cs| {
      assert Frames(codec, later) == [];
    } else {
      assert later[1..] == cs[k + 1..];
      assert Frames(codec, later) == Frame(codec.encode(cs[k])) + Frames(codec, cs[k + 1..]);
    }
    hide Frames, Frame;
    var front := Frames(codec, cs[..k]);
    assert front + Frames(codec, later) + tail == front + (Frames(codec, later) + tail);
    PrefixCancel(front, buf, Frames(codec, later) + tail);
    if k < |cs| {
      var enc := codec.encode(cs[k]);
      assert Frame(enc) + Frames(codec, cs[k + 1..]) + tail == Frame(enc) + (Frames(codec, cs[k + 1..]) + tail);
    } else {
      assert Frames(codec, later) + tail == tail;
    }
  }

  lemma {:induction false} StrippedPush(cs: seq<Chunk>, k: nat)
    requires k < |cs|
    ensures StrippedAll(cs[..k + 1]) == StrippedAll(cs[..k]) + [Stripped(cs[k])]
  {
  }

  lemma {:induction false} SentOn(sent: seq<byte>, buf: seq<byte>, added: seq<byte>, n: nat)
    requires n <= |buf + added|
    ensures sent + (buf + added)[..n] + (buf + added)[n..] == sent + buf + added
    ensures sent <= sent + (buf + added)[..n]
  {
    var full := buf + added;
    assert full[..n] + full[n..] == full;
    assert sent + full[..n] + full[n..] == sent + (full[..n] + full[n..]);
  }

  lemma {:induction false} WriteInOrder(codec: Codec, l: Link, c: Chunk, n: nat)
    requires InOrder(codec, l) && Possible(codec, l, Write(c, n))
    ensures InOrder(codec, Next(codec, l, Write(c, n)))
  {
    hide Frames, Appended, Frame, StrippedAll, Stream;
    var l' := Next(codec, l, Write(c, n));
    var enc := codec.encode(c);
    AppendedSize(l.sendBuf, enc);
    AppendedGrows(l.sendBuf, enc);
    var added := Appended(l.sendBuf, enc)[|l.sendBuf|..];
    SentOn(l.sent, l.sendBuf, added, n);
    StreamWrite(codec, l, c, n);
    assert l'.written[..|l.read|] == l.written[..|l.read|];
  }

  lemma {:induction false} FitsWhole(buf: seq<byte>, enc: seq<byte>)
    requires |buf| <= BUFSIZE && InBounds(|buf|, enc) && 0 < |enc| <= BUFSIZE - |buf|
    ensures 4 + |enc| <= BUFSIZE
  {
  }

  /** A write adds to the stream what it adds to the buffer. */
  lemma {:induction false} StreamWrite(codec: Codec, l: Link, c: Chunk, n: nat)
    requires InOrder(codec, l) && Possible(codec, l, Write(c, n))
    ensures var l' := Next(codec, l, Write(c, n));
            && Stream(codec, l'.written, l'.tail) && l.written <= l'.written
            && Frames(codec, l'.written) + l'.tail
               == l.sent + l.sendBuf + Appended(l.sendBuf, codec.encode(c))[|l.sendBuf|..]
  {
    hide Frames, Appended, Frame, StrippedAll, InBounds, Stream;
    var enc := codec.encode(c);
    AppendedGrows(l.sendBuf, enc);
    var added := Appended(l.sendBuf, enc)[|l.sendBuf|..];
    if l.tail != [] || Refused(codec, l, Write(c, n)) {
      TailGrows(codec, l.written, l.tail, added);
    } else {
      if enc != [] {
        FitsWhole(l.sendBuf, enc);
      }
      WholeGrows(codec, l.written, c, added);
    }
  }

  lemma {:induction false} TailGrows(codec: Codec, cs: seq<Chunk>, tail: seq<byte>, added: seq<byte>)
    requires Stream(codec, cs, tail) && (tail != [] || added == STRAY)
    ensures Stream(codec, cs, tail + added)
    ensures Frames(codec, cs) + (tail + added) == Frames(codec, cs) + tail + added
  {
    hide Frames;
    assert tail == [] ==> tail + added == added;
  }

  lemma {:induction false} WholeGrows(codec: Codec, cs: seq<Chunk>, c: Chunk, added: seq<byte>)
    requires Stream(codec, cs, []) && 4 + |codec.encode(c)| <= BUFSIZE
    requires added == if codec.encode(c) == [] then [] else Frame(codec.encode(c))
    ensures var now := if codec.encode(c) == [] then cs else cs + [c];
            Stream(codec, now, []) && Frames(codec, now) + [] == Frames(codec, cs) + [] + added
  {
    hide Frames, Frame;
    FramesAppend(codec, cs, c);
  }

  lemma {:induction false} AppendedGrows(buf: seq<byte>, enc: seq<byte>)
    requires |buf| <= BUFSIZE
    ensures var full := Appended(buf, enc);
            && |buf| <= |full| && full[..|buf|] == buf && full == buf + full[|buf|..]
            && full[|buf|..] == if |enc| > BUFSIZE - |buf| then STRAY else if enc == [] then [] else Frame(enc)
  {
  }

  lemma {:induction false} ReadInOrder(codec: Codec, l: Link, n: nat)
    requires codec.Inverse() && InOrder(codec, l) && Possible(codec, l, Read(n))
    ensures InOrder(codec, Next(codec, l, Read(n)))
  {
    hide Frames, Taken, StrippedAll, Appended, Stripped, Stream;
    var k := |l.read|;
    var incoming := l.sent[|l.received|..|l.received| + n];
    var buf := l.recvBuf + incoming;
    assert Frames(codec, l.written[..k]) + buf == l.received + incoming == l.sent[..|l.received| + n];
    assert l.sent[..|l.received| + n] <= Frames(codec, l.written) + l.tail;
    TakesNext(codec, l.written, l.tail, k, buf);
    if k < |l.written| {
      StrippedPush(l.written, k);
    }
    var l' := Next(codec, l, Read(n));
    assert l'.sent == l.sent && l'.received == l.sent[..|l.received| + n];
    var (c, rest) := Taken(codec, buf);
    assert c.Some? ==> l'.read == StrippedAll(l'.written[..k + 1]);
    assert c.None? ==> l'.read == StrippedAll(l'.written[..k]);
    assert Frames(codec, l'.written[..|l'.read|]) + l'.recvBuf == l'.received;
  }

  lemma {:induction false} RunInOrder(codec: Codec, events: seq<Event>)
    requires codec.Inverse() && Runs(codec, events)
    ensures InOrder(codec, After(codec, events))
  {
    hide InOrder;
    if events == [] {
      QuietInOrder(codec);
    } else {
      var (before, e) := (events[..|events| - 1], events[|events| - 1]);
      RunInOrder(codec, before);
      match e
      case Write(c, n) => WriteInOrder(codec, After(codec, before), c, n);
      case Read(n) => ReadInOrder(codec, After(codec, before), n);
    }
  }

  lemma {:induction false} QuietInOrder(codec: Codec)
    ensures InOrder(codec, QUIET)
  {
  }

  /** The chunks handed to the writer, without those whose encoding is empty. */
  function Handed(codec: Codec, events: seq<Event>): seq<Chunk> {
    if events == [] then []
    else
      var (before, e) := (events[..|events| - 1], events[|events| - 1]);
      Handed(codec, before) + if e.Write? && codec.encode(e.c) != [] then [e.c] else []
  }

  /** The number of events before the encoder first refused a chunk, or of all events if it never did. */
  ghost function FirstRefusal(codec: Codec, events: seq<Event>): (k: nat)
    requires Runs(codec, events)
    ensures k <= |events|
  {
    if events == [] then 0
    else
      var before := events[..|events| - 1];
      var k := FirstRefusal(codec, before);
      if k < |before| || Refused(codec, After(codec, before), events[|events| - 1]) then k else |events|
  }

  lemma {:induction false} NextWritten(codec: Codec, l: Link, e: Event)
    requires Possible(codec, l, e) && |l.sendBuf| <= BUFSIZE
    ensures var l' := Next(codec, l, e);
            if e.Read? then l'.written == l.written && l'.tail == l.tail
            else if l.tail != [] || Refused(codec, l, e) then l'.written == l.written && l'.tail != []
            else l'.tail == [] && l'.written == l.written + if codec.encode(e.c) != [] then [e.c] else []
  {
    hide Taken, HasFrame, Appended, Frame;
    if e.Write? {
      AppendedGrows(l.sendBuf, codec.encode(e.c));
    }
  }

  lemma {:induction false} HandedPush(codec: Codec, events: seq<Event>, e: Event)
    ensures Handed(codec, events + [e]) ==
      Handed(codec, events) + if e.Write? && codec.encode(e.c) != [] then [e.c] else []
  {
    assert (events + [e])[..|events|] == events;
  }

  lemma {:induction false} WrittenBeforeRefusal(codec: Codec, events: seq<Event>)
    requires codec.Inverse() && Runs(codec, events)
    ensures var (l, k) := (After(codec, events), FirstRefusal(codec, events));
            l.written == Handed(codec, events[..k]) && (l.tail == [] <==> k == |events|)
  {
    hide InOrder, Next, Refused, Possible, Handed;
    assert events[..|events|] == events;
    if events == [] {
      NoneHanded(codec);
    } else {
      var (before, e) := (events[..|events| - 1], events[|events| - 1]);
      WrittenBeforeRefusal(codec, before);
      RunInOrder(codec, before);
      var (l, k) := (After(codec, before), FirstRefusal(codec, before));
      InOrderSizes(codec, l);
      NextWritten(codec, l, e);
      HandedPush(codec, before, e);
      assert before[..k] == events[..k] && before + [e] == events;
      ReadAccepted(codec, l, e);
    }
  }

  lemma {:induction false} NoneHanded(codec: Codec)
    ensures Handed(codec, []) == []
  {
  }

  lemma {:induction false} ReadAccepted(codec: Codec, l: Link, e: Event)
    ensures e.Read? ==> !Refused(codec, l, e)
  {
  }

  lemma {:induction false} InOrderSizes(codec: Codec, l: Link)
    requires InOrder(codec, l)
    ensures |l.sendBuf| <= BUFSIZE && |l.recvBuf| <= BUFSIZE && |l.received| <= |l.sent| && |l.read| <= |l.written|
  {
  }

  /** End to end: after any run, whatever the fragmentation, every byte is accounted for, and the chunks read are a
      prefix, without their attributes, of the chunks handed over before the encoder first refused one. */
  lemma {:induction false} EndToEnd(codec: Codec, events: seq<Event>)
    requires (forall c {:trigger codec.encode(c)} :: codec.decode(codec.encode(c)) == Some(c)) && Runs(codec, events)
    ensures InOrder(codec, After(codec, events))
    ensures var (r, cs) := (After(codec, events).read, Handed(codec, events[..FirstRefusal(codec, events)]));
            |r| <= |cs| && forall i :: 0 <= i < |r| ==>
              r[i].id == cs[i].id && r[i].timestamp == cs[i].timestamp && r[i].data == cs[i].data
                && r[i].attributes == []
  {
    RunInOrder(codec, events);
    WrittenBeforeRefusal(codec, events);
    var l := After(codec, events);
    hide InOrder, Handed, FirstRefusal, Runs, After;
    ReadPart(codec, l);
  }

  lemma {:induction false} ReadPart(codec: Codec, l: Link)
    requires InOrder(codec, l)
    ensures |l.read| <= |l.written| && forall i :: 0 <= i < |l.read| ==> l.read[i] == Stripped(l.written[i])
  {
    assert forall i :: 0 <= i < |l.read| ==> l.written[..|l.read|][i] == l.written[i];
  }

  /** The reader never starves with data at hand: what it holds is short of a frame only when there is room for
      more, and once all frames are in, each call yields the next chunk and asks to be called again exactly when
      another one is left. */
  lemma {:induction false} ReaderProgress(codec: Codec, l: Link)
    requires codec.Inverse() && InOrder(codec, l) && |l.read| < |l.written|
    ensures !HasFrame(l.recvBuf) ==> |l.recvBuf| < BUFSIZE
    ensures FramesIn(codec, l) ==>
              var (c, rest) := Taken(codec, l.recvBuf);
              && c == Some(Stripped(l.written[|l.read|]))
              && (HasFrame(rest) <==> |l.read| + 1 < |l.written|)
  {
    hide Frames, HasFrame, Value, Frame, Payload, Rest, StrippedAll;
    var (cs, k) := (l.written, |l.read|);
    InOrderPrefix(codec, l);
    StreamBehind(codec, cs, l.tail, k, l.recvBuf);
    assert cs[k] in cs;
    FirstFrame(l.recvBuf, codec.encode(cs[k]), Frames(codec, cs[k + 1..]) + l.tail);
    if |l.received| >= |Frames(codec, cs)| {
      FramesLengths(codec, cs, k);
      TakesNext(codec, cs, l.tail, k, l.recvBuf);
      var (c, rest) := Taken(codec, l.recvBuf);
      assert codec.decode(codec.encode(cs[k])) == Some(cs[k]);
      StreamBehind(codec, cs, l.tail, k + 1, rest);
      if k + 1 < |cs| {
        FramesLengths(codec, cs, k + 1);
        assert cs[k + 1] in cs;
        FirstFrame(rest, codec.encode(cs[k + 1]), Frames(codec, cs[k + 2..]) + l.tail);
      } else {
        StrayBytesBlock(rest, l.tail);
      }
    }
  }

  lemma {:induction false} InOrderPrefix(codec: Codec, l: Link)
    requires InOrder(codec, l)
    ensures Frames(codec, l.written[..|l.read|]) + l.recvBuf <= Frames(codec, l.written) + l.tail
  {
    hide Frames;
    assert l.received <= l.sent <= l.sent + l.sendBuf;
  }

  lemma {:induction false} FramesLengths(codec: Codec, cs: seq<Chunk>, k: nat)
    requires k < |cs|
    ensures |Frames(codec, cs)| >= |Frames(codec, cs[..k + 1])| == |Frames(codec, cs[..k])| + 4 + |codec.encode(cs[k])|
  {
    hide Header;
    assert cs == cs[..k + 1] + cs[k + 1..] && cs[..k + 1] == cs[..k] + [cs[k]];
    FramesSplit(codec, cs[..k + 1], cs[k + 1..]);
    FramesAppend(codec, cs[..k], cs[k]);
  }

  /** `n` calls of input_get to which nothing arrives. */
  function Polls(n: nat): seq<Event> {
    if n == 0 then [] else [Read(0)] + Polls(n - 1)
  }

  /** After `n` polls the reader has handed out exactly `cs`. */
  ghost predicate PollsYield(codec: Codec, events: seq<Event>, n: nat, cs: seq<Chunk>) {
    Runs(codec, events + Polls(n)) &&
    var r := After(codec, events + Polls(n)).read;
    |r| == |cs| && forall i :: 0 <= i < |r| ==>
      r[i].id == cs[i].id && r[i].timestamp == cs[i].timestamp && r[i].data == cs[i].data && r[i].attributes == []
  }

  /** All frames put in before the first refusal have arrived. */
  ghost predicate FramesIn(codec: Codec, l: Link) {
    |l.received| >= |Frames(codec, l.written)|
  }

  /** Every chunk handed over before the first refusal does come out: once its bytes have arrived, calling on is
      enough. */
  lemma {:induction false} AllDelivered(codec: Codec, events: seq<Event>)
    requires codec.Inverse() && Runs(codec, events)
    requires |After(codec, events).received| >= |Frames(codec, After(codec, events).written)|
    ensures exists n: nat :: PollsYield(codec, events, n, Handed(codec, events[..FirstRefusal(codec, events)]))
  {
    hide Runs, After, InOrder, Frames, StrippedAll, Handed, FirstRefusal, PollsYield;
    RunInOrder(codec, events);
    var l := After(codec, events);
    InOrderSizes(codec, l);
    WrittenBeforeRefusal(codec, events);
    AllPolled(codec, events, |l.written| - |l.read|);
  }

  lemma {:induction false} AllPolled(codec: Codec, events: seq<Event>, n: nat)
    requires codec.Inverse() && Runs(codec, events) && FramesIn(codec, After(codec, events))
    requires n == |After(codec, events).written| - |After(codec, events).read|
    ensures PollsYield(codec, events, n, After(codec, events).written)
    decreases n
  {
    hide Runs, After, InOrder, StrippedAll, Polls, FramesIn;
    PollsJoin(events, n);
    if n == 0 {
      RunInOrder(codec, events);
      ReadAll(codec, After(codec, events));
    } else {
      PolledStep(codec, events);
      AllPolled(codec, events + [Read(0)], n - 1);
    }
  }

  lemma {:induction false} PollsJoin(events: seq<Event>, n: nat)
    ensures if n == 0 then events + Polls(n) == events else events + Polls(n) == events + [Read(0)] + Polls(n - 1)
  {
  }

  lemma {:induction false} PolledStep(codec: Codec, events: seq<Event>)
    requires codec.Inverse() && Runs(codec, events) && FramesIn(codec, After(codec, events))
    requires |After(codec, events).read| < |After(codec, events).written|
    ensures Runs(codec, events + [Read(0)])
    ensures var (l, l') := (After(codec, events), After(codec, events + [Read(0)]));
            l'.written == l.written && FramesIn(codec, l') && |l'.read| == |l.read| + 1
  {
    hide Runs, After, InOrder, Frames, Taken, HasFrame;
    RunInOrder(codec, events);
    ReaderProgress(codec, After(codec, events));
    Poll(codec, events);
  }

  lemma {:induction false} ReadAll(codec: Codec, l: Link)
    requires InOrder(codec, l) && |l.read| == |l.written|
    ensures forall i :: 0 <= i < |l.read| ==> l.read[i] == Stripped(l.written[i])
  {
    ReadPart(codec, l);
  }

  lemma {:induction false} Poll(codec: Codec, events: seq<Event>)
    requires Runs(codec, events) && InOrder(codec, After(codec, events))
    ensures Runs(codec, events + [Read(0)])
    ensures var (l, l') := (After(codec, events), After(codec, events + [Read(0)]));
            var (c, rest) := Taken(codec, l.recvBuf);
            l' == l.(recvBuf := rest, read := if c.Some? then l.read + [c.value] else l.read)
  {
    hide Taken, Frames, StrippedAll;
    var l := After(codec, events);
    assert (events + [Read(0)])[..|events|] == events;
    assert l.sent[|l.received|..|l.received| + 0] == [];
    assert l.recvBuf + [] == l.recvBuf && l.received + [] == l.received;
  }

  /** The message of chunk_write says that a chunk that does not fit is skipped. A chunk is skipped exactly when its
      encoding is empty, and goes out intact exactly when its whole frame fits. Any other is refused, which leaves three
      stray bytes, or overruns the buffer. */
  lemma {:induction false} AppendedIntact(buf: seq<byte>, enc: seq<byte>)
    requires |buf| <= BUFSIZE
    ensures Inside(Stores(|buf|, enc)) && Appended(buf, enc) == buf + Frame(enc) <==>
      0 < |enc| && |buf| + 4 + |enc| <= BUFSIZE
    ensures Appended(buf, enc) == buf <==> enc == []
    ensures enc != [] && |buf| + 4 + |enc| > BUFSIZE && Inside(Stores(|buf|, enc)) ==>
      Appended(buf, enc) == buf + [255, 255, 255]
  {
    hide Stores, Inside, Frame;
    StoresInside(|buf|, enc);
    AppendedSize(buf, enc);
    assert |Frame(enc)| == 4 + |enc| by { FrameSize(enc); }
  }

  lemma {:induction false} FrameSize(enc: seq<byte>)
    ensures |Frame(enc)| == 4 + |enc|
  {
  }

  /** Chunks that fit can lead to an overrun: while the connection stalls they fill the buffer to its end, and the next
      chunk is refused with its header stored behind the end. */
  lemma {:induction false} OverrunReached(codec: Codec, c: Chunk, next: Chunk)
    requires |codec.encode(c)| == BUFSIZE - 4 && codec.encode(next) != []
    ensures Runs(codec, [Write(c, 0)])
    ensures var l := After(codec, [Write(c, 0)]);
            && |l.sendBuf| == BUFSIZE && Stores(|l.sendBuf|, codec.encode(next)) == Range(BUFSIZE, 4)
            && !Inside(Stores(|l.sendBuf|, codec.encode(next)))
  {
    hide Appended, Range, Frame;
    AppendedSize([], codec.encode(c));
    var one := [Write(c, 0)];
    assert one[..0] == [];
    assert Possible(codec, QUIET, Write(c, 0));
    assert Runs(codec, one);
    SizeField(BUFSIZE, codec.encode(next));
    StoresInside(BUFSIZE, codec.encode(next));
    assert {} + Range(BUFSIZE, 4) == Range(BUFSIZE, 4);
  }

  /** A refusal is final: whatever comes later, the first one stays the first. */
  lemma {:induction false} RefusalFinal(codec: Codec, events: seq<Event>, more: seq<Event>)
    requires Runs(codec, events + more)
    ensures Runs(codec, events)
    ensures FirstRefusal(codec, events) < |events| ==>
      FirstRefusal(codec, events + more) == FirstRefusal(codec, events)
    decreases |more|
  {
    if more == [] {
      assert events + more == events;
    } else {
      assert (events + more)[..|events + more| - 1] == events + more[..|more| - 1];
      RefusalFinal(codec, events, more[..|more| - 1]);
    }
  }

  /** A stalled connection and two chunks of half the buffer's size: the second one is refused. */
  lemma {:induction false} RefusalReached(codec: Codec, c: Chunk, d: Chunk)
    requires |codec.encode(c)| == |codec.encode(d)| == 262_144
    ensures var events := [Write(c, 0), Write(d, 0)];
            && Runs(codec, events) && FirstRefusal(codec, events) == 1
            && After(codec, events).written == [c] && After(codec, events).tail == [255, 255, 255]
  {
    hide Frame, Appended;
    var (one, two) := ([Write(c, 0)], [Write(c, 0), Write(d, 0)]);
    assert one[..0] == [] && two[..1] == one;
    assert Runs(codec, []) && After(codec, []) == QUIET;
    AppendedSize([], codec.encode(c));
    assert Possible(codec, QUIET, Write(c, 0)) && !Refused(codec, QUIET, Write(c, 0));
    assert Runs(codec, one) && FirstRefusal(codec, one) == 1;
    var l := After(codec, one);
    assert |l.sendBuf| == 4 + BUFSIZE / 2 && l.tail == [] && l.written == [c];
    AppendedSize(l.sendBuf, codec.encode(d));
    AppendedGrows(l.sendBuf, codec.encode(d));
    assert Possible(codec, l, Write(d, 0)) && Refused(codec, l, Write(d, 0));
  }

  /** From then on, however the run continues, the reader never hands out anything but the first chunk. */
  lemma {:induction false} RefusalBlocks(codec: Codec, c: Chunk, d: Chunk, more: seq<Event>)
    requires codec.Inverse() && |codec.encode(c)| == |codec.encode(d)| == 262_144
    requires Runs(codec, [Write(c, 0), Write(d, 0)] + more)
    ensures var r := After(codec, [Write(c, 0), Write(d, 0)] + more).read;
            r == [] || r == [Chunk(c.id, c.timestamp, c.data, [])]
  {
    hide Runs, After, FirstRefusal, InOrder;
    var events := [Write(c, 0), Write(d, 0)];
    RefusalReached(codec, c, d);
    RefusalFinal(codec, events, more);
    EndToEnd(codec, events + more);
    assert (events + more)[..1] == [] + [Write(c, 0)];
    NoneHanded(codec);
    HandedPush(codec, [], Write(c, 0));
  }
}
