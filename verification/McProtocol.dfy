/** The Java-edition wire format (crafty_server_watcher/mc_protocol.py).  A byte is an integer below 256;
    shifts and masks on non-negative numbers are written as division and remainder. */
module McProtocol {
  import opened Common

  type byte = b: int | 0 <= b < 256

  datatype Error = EndOfStream | IncompleteRead | VarintTooBig | InvalidLength | PacketTooLarge | BadText

  const VARINT_BYTES := 5
  const MAX_PACKET := 2 * 1024 * 1024
  const TWO_31 := 0x8000_0000
  const TWO_32 := 0x1_0000_0000

  function Pow128(k: nat): nat {
    if k == 0 then 1 else 128 * Pow128(k - 1)
  }

  // ----- VarInts

  /** The unsigned value and the byte count of a VarInt that may use `left` more bytes. */
  function ParseRaw(s: seq<byte>, left: nat): Result<(nat, nat), Error>
    decreases left, s
  {
    if left == 0 then Err(VarintTooBig)
    else if s == [] then Err(EndOfStream)
    else if s[0] < 128 then Ok((s[0], 1))
    else
      var r := ParseRaw(s[1..], left - 1);
      if r.Err? then r else Ok((s[0] - 128 + 128 * r.value.0, r.value.1 + 1))
  }

  /** Bit 31 set means a negative 32-bit number. */
  function SignExtend(raw: nat): int {
    if raw / TWO_31 % 2 == 1 then raw - TWO_32 else raw
  }

  function ParseVarint(s: seq<byte>): Result<(int, nat), Error> {
    var r := ParseRaw(s, VARINT_BYTES);
    if r.Err? then Err(r.error) else Ok((SignExtend(r.value.0), r.value.1))
  }

  function EncodeRaw(u: int, left: nat): seq<byte>
    decreases left, u
  {
    if left == 0 then []
    else if u / 128 == 0 then [u % 128]
    else [u % 128 + 128] + EncodeRaw(u / 128, left - 1)
  }

  function Unsigned(v: int): int {
    if v < 0 then v + TWO_32 else v
  }

  function EncodeVarint(v: int): seq<byte> {
    EncodeRaw(Unsigned(v), VARINT_BYTES)
  }

  lemma {:induction false} RawRoundTrip(u: nat, left: nat, rest: seq<byte>)
    requires left > 0 && u < Pow128(left)
    ensures var e := EncodeRaw(u, left);
            ParseRaw(e + rest, left) == Ok((u, |e|)) && 1 <= |e| <= left
            && u < Pow128(|e|) && (|e| > 1 ==> Pow128(|e| - 1) <= u)
  {
    var e := EncodeRaw(u, left);
    if u / 128 == 0 {
      assert (e + rest)[0] == u;
      assert Pow128(1) == 128 * Pow128(0);
    } else {
      var tail := EncodeRaw(u / 128, left - 1);
      RawRoundTrip(u / 128, left - 1, rest);
      assert (e + rest)[1..] == tail + rest;
    }
  }

  lemma Pow128Of5()
    ensures Pow128(VARINT_BYTES) == 0x8_0000_0000
  {
    assert Pow128(4) == 128 * Pow128(3);
  }

  /** A parsed VarInt of `n` bytes is below 128^n. */
  lemma {:induction false} RawIsBounded(s: seq<byte>, left: nat)
    requires ParseRaw(s, left).Ok?
    ensures var (raw, n) := ParseRaw(s, left).value;
            raw < Pow128(n) && 1 <= n <= left && n <= |s|
  {
    if s[0] < 128 {
      assert Pow128(1) == 128 * Pow128(0);
    } else {
      RawIsBounded(s[1..], left - 1);
    }
  }

  /** The first `n` groups of seven bits, the first the least significant. */
  function Groups(s: seq<byte>, n: nat): nat
    requires n <= |s|
  {
    if n == 0 then 0 else Groups(s, n - 1) + s[n - 1] % 128 * Pow128(n - 1)
  }

  /** The bytes say where a number of at most `left` bytes ends: at the first one with the top bit clear. */
  predicate EndsAt(s: seq<byte>, left: nat, n: nat) {
    1 <= n <= left && n <= |s| && s[n - 1] < 128 && forall i :: 0 <= i < n - 1 ==> s[i] >= 128
  }

  lemma {:induction false} GroupsOfTail(s: seq<byte>, n: nat)
    requires 1 <= n <= |s|
    ensures Groups(s, n) == s[0] % 128 + 128 * Groups(s[1..], n - 1)
  {
    if n == 1 {
      assert Pow128(0) == 1 && Groups(s, 0) == 0 && Groups(s[1..], 0) == 0;
    } else {
      GroupsOfTail(s, n - 1);
      assert s[1..][n - 2] == s[n - 1];
      var d, p := s[n - 1] % 128, Pow128(n - 2);
      assert Pow128(n - 1) == 128 * p;
      assert d * (128 * p) == 128 * (d * p);
    }
  }

  lemma EndOfTail(s: seq<byte>, left: nat, n: nat)
    requires left > 0 && n > 1 && s != [] && s[0] >= 128
    ensures EndsAt(s, left, n) <==> EndsAt(s[1..], left - 1, n - 1)
  {
    if EndsAt(s[1..], left - 1, n - 1) {
      assert forall i :: 1 <= i < n - 1 ==> s[i] == s[1..][i - 1];
    }
  }

  lemma {:induction false} ParsedNumberEnds(s: seq<byte>, left: nat)
    requires ParseRaw(s, left).Ok?
    ensures var (raw, n) := ParseRaw(s, left).value;
            EndsAt(s, left, n) && raw == Groups(s, n)
    decreases left
  {
    if s[0] < 128 {
      GroupsOfTail(s, 1);
    } else {
      ParsedNumberEnds(s[1..], left - 1);
      var n := ParseRaw(s[1..], left - 1).value.1 + 1;
      EndOfTail(s, left, n);
      GroupsOfTail(s, n);
    }
  }

  lemma {:induction false} EndedNumberParses(s: seq<byte>, left: nat, n: nat)
    requires EndsAt(s, left, n)
    ensures ParseRaw(s, left).Ok?
    decreases left
  {
    if s[0] < 128 {
    } else {
      EndOfTail(s, left, n);
      EndedNumberParses(s[1..], left - 1, n - 1);
    }
  }

  /** What any byte string reads as: the number ends at the first byte below 128 among the first five, its
      value is its seven-bit groups from the least significant on, reduced by 2^32 if bit 31 is set, and
      anything else is refused: at the end of the input, or after five bytes. */
  lemma VarintExactly(s: seq<byte>)
    ensures ParseVarint(s).Ok? <==> exists n: nat :: EndsAt(s, 5, n)
    ensures ParseVarint(s).Ok? ==>
              var (v, n) := ParseVarint(s).value;
              EndsAt(s, 5, n) &&
              v == Groups(s, n) - if Groups(s, n) / 0x8000_0000 % 2 == 1 then 0x1_0000_0000 else 0
    ensures ParseVarint(s).Err? ==> ParseVarint(s).error == if |s| < 5 then EndOfStream else VarintTooBig
  {
    if ParseVarint(s).Ok? {
      ParsedNumberEnds(s, VARINT_BYTES);
    } else {
      if n: nat :| EndsAt(s, 5, n) {
        EndedNumberParses(s, VARINT_BYTES, n);
      }
      RefusalSaysWhy(s, VARINT_BYTES);
    }
  }

  lemma {:induction false} RefusalSaysWhy(s: seq<byte>, left: nat)
    requires ParseRaw(s, left).Err?
    ensures ParseRaw(s, left).error == if |s| < left then EndOfStream else VarintTooBig
    decreases left
  {
    if left == 0 || s == [] {
    } else {
      RefusalSaysWhy(s[1..], left - 1);
    }
  }

  predicate Signed32(v: int) {
    -TWO_31 <= v < TWO_31
  }

  /** Every signed 32-bit value reads back, whatever follows, and consumes exactly what was written;
      values from 2^31 to 2^32 - 1 come back reduced by 2^32. */
  lemma VarintRoundTrip(v: int, rest: seq<byte>)
    requires -TWO_31 <= v < TWO_32
    ensures ParseVarint(EncodeVarint(v) + rest) ==
            Ok((if v < TWO_31 then v else v - TWO_32, |EncodeVarint(v)|))
    ensures 1 <= |EncodeVarint(v)| <= 5
  {
    Pow128Of5();
    RawRoundTrip(Unsigned(v), VARINT_BYTES, rest);
  }

  /** No byte string that reads as a signed 32-bit value is shorter than what the writer produces. */
  lemma VarintIsMinimal(v: int, s: seq<byte>)
    requires Signed32(v) && ParseVarint(s).Ok? && ParseVarint(s).value.0 == v
    ensures |EncodeVarint(v)| <= ParseVarint(s).value.1
  {
    var (raw, n) := ParseRaw(s, VARINT_BYTES).value;
    var e := EncodeVarint(v);
    assert raw == Unsigned(v);
    hide ParseRaw, EncodeRaw, Pow128, SignExtend;
    Pow128Of5();
    RawIsBounded(s, VARINT_BYTES);
    RawRoundTrip(Unsigned(v), VARINT_BYTES, []);
    if n < |e| {
      Pow128Grows(n, |e| - 1);
    }
  }

  lemma {:induction false} Pow128Grows(a: nat, b: nat)
    requires a <= b
    ensures Pow128(a) <= Pow128(b)
  {
    if a == b {
    } else {
      Pow128Grows(a, b - 1);
    }
  }

  lemma Associate(a: seq<byte>, b: seq<byte>, c: seq<byte>)
    ensures (a + b) + c == a + (b + c)
  {
  }

  lemma Slice(s: seq<byte>, n: nat, length: nat)
    requires n + length <= |s|
    ensures s[n..][..length] == s[n..n + length] && s[n..][length..] == s[n + length..]
  {
  }

  // ----- Packets

  datatype Packet = Packet(id: int, payload: seq<byte>)

  function Inner(p: Packet): seq<byte> {
    EncodeVarint(p.id) + p.payload
  }

  function BuildPacket(p: Packet): seq<byte> {
    EncodeVarint(|Inner(p)|) + Inner(p)
  }

  /** The packet at the front of `s` and the number of bytes it takes. */
  function ParsePacket(s: seq<byte>): Result<(Packet, nat), Error> {
    var header := ParseVarint(s);
    if header.Err? then Err(if header.error == EndOfStream then IncompleteRead else header.error)
    else
      var (length, n) := header.value;
      if length <= 0 then Err(InvalidLength)
      else if length > MAX_PACKET then Err(PacketTooLarge)
      else if |s| < n + length then Err(IncompleteRead)
      else
        var body := s[n..n + length];
        var id := ParseVarint(body);
        if id.Err? then Err(id.error)
        else
          RawIsBounded(body, VARINT_BYTES);
          Ok((Packet(id.value.0, body[id.value.1..]), n + length))
  }

  /** A built packet reads back, whatever follows, iff its body respects the size cap. */
  lemma PacketRoundTrip(p: Packet, rest: seq<byte>)
    requires Signed32(p.id)
    ensures |Inner(p)| <= 2097152 ==> ParsePacket(BuildPacket(p) + rest) == Ok((p, |BuildPacket(p)|))
    ensures |Inner(p)| > 2097152 ==> ParsePacket(BuildPacket(p) + rest).Err?
  {
    var inner := Inner(p);
    var length := |inner|;
    var s := BuildPacket(p) + rest;
    assert s == EncodeVarint(length) + (inner + rest);
    if length <= MAX_PACKET {
      VarintRoundTrip(length, inner + rest);
      VarintRoundTrip(p.id, p.payload);
      var n := |EncodeVarint(length)|;
      assert s[n..n + length] == inner;
      assert inner[|EncodeVarint(p.id)|..] == p.payload;
    } else {
      OversizeIsRefused(length, inner + rest);
    }
  }

  /** The length prefix of an oversize body never reads as an acceptable length. */
  lemma OversizeIsRefused(length: nat, rest: seq<byte>)
    requires length > MAX_PACKET
    ensures var r := ParseVarint(EncodeVarint(length) + rest);
            r.Ok? ==> r.value.0 <= 0 || r.value.0 > MAX_PACKET
  {
    Pow128Of5();
    if length < Pow128(VARINT_BYTES) {
      RawRoundTrip(length, VARINT_BYTES, rest);
    } else {
      OverlongIsRefused(length, VARINT_BYTES, rest);
    }
  }

  lemma {:induction false} OverlongIsRefused(u: nat, left: nat, rest: seq<byte>)
    requires u >= Pow128(left)
    ensures ParseRaw(EncodeRaw(u, left) + rest, left).Err?
  {
    if left == 0 {
    } else {
      Pow128Grows(0, left - 1);
      assert u / 128 >= Pow128(left - 1);
      OverlongIsRefused(u / 128, left - 1, rest);
      assert (EncodeRaw(u, left) + rest)[1..] == EncodeRaw(u / 128, left - 1) + rest;
    }
  }

  /** Which bytes are no packet, and which error says so: a length that is no number, or not positive, or over
      two megabytes, or longer than what follows, or an id that is no number within the body. */
  lemma PacketRefusedExactly(s: seq<byte>)
    ensures var header, r := ParseVarint(s), ParsePacket(s);
            if header.Err? then
              r == Err(if |s| < 5 then IncompleteRead else VarintTooBig)
            else
              var (length, n) := header.value;
              1 <= n <= |s| &&
              if length <= 0 then r == Err(InvalidLength)
              else if length > 2097152 then r == Err(PacketTooLarge)
              else if length > |s| - n then r == Err(IncompleteRead)
              else
                var id := ParseVarint(s[n..n + length]);
                r.Ok? == id.Ok? && (id.Err? ==> r == Err(if length < 5 then EndOfStream else VarintTooBig))
  {
    VarintExactly(s);
    if ParseVarint(s).Ok? {
      RawIsBounded(s, VARINT_BYTES);
      var (length, n) := ParseVarint(s).value;
      if 0 < length <= |s| - n {
        VarintExactly(s[n..n + length]);
      }
    }
  }

  /** On the wire: a length that reads as the number of bytes after it, an id that reads as the packet's, and
      the payload to the end. */
  lemma PacketLayout(p: Packet)
    requires Signed32(p.id) && |Inner(p)| <= 2097152
    ensures var s := BuildPacket(p);
            && ParseVarint(s).Ok? && ParseVarint(s).value.0 == |s| - ParseVarint(s).value.1
            && 1 <= ParseVarint(s).value.1 <= |s|
            && var body := s[ParseVarint(s).value.1..];
               && ParseVarint(body).Ok? && ParseVarint(body).value.0 == p.id
               && ParseVarint(body).value.1 <= |body| && body[ParseVarint(body).value.1..] == p.payload
  {
    VarintRoundTrip(|Inner(p)|, Inner(p));
    VarintRoundTrip(p.id, p.payload);
    var n := |EncodeVarint(|Inner(p)|)|;
    assert BuildPacket(p)[n..] == Inner(p);
    assert Inner(p)[|EncodeVarint(p.id)|..] == p.payload;
  }

  function BuildAll(ps: seq<Packet>): seq<byte> {
    if ps == [] then [] else BuildPacket(ps[0]) + BuildAll(ps[1..])
  }

  /** The next `count` packets of a stream and the bytes left after them. */
  function ParseAll(s: seq<byte>, count: nat): Result<(seq<Packet>, seq<byte>), Error> {
    if count == 0 then Ok(([], s))
    else
      var first := ParsePacket(s);
      if first.Err? then Err(first.error)
      else
        PacketFits(s);
        var later := ParseAll(s[first.value.1..], count - 1);
        if later.Err? then later else Ok(([first.value.0] + later.value.0, later.value.1))
  }

  lemma PacketFits(s: seq<byte>)
    requires ParsePacket(s).Ok?
    ensures 1 <= ParsePacket(s).value.1 <= |s|
  {
    RawIsBounded(s, VARINT_BYTES);
  }

  ghost predicate Sendable(ps: seq<Packet>) {
    forall i :: 0 <= i < |ps| ==> Signed32(ps[i].id) && |Inner(ps[i])| <= MAX_PACKET
  }

  lemma ParseOneMore(front: seq<byte>, p: Packet, tail: seq<byte>, count: nat)
    requires ParsePacket(front + tail) == Ok((p, |front|))
    requires ParseAll(tail, count).Ok?
    ensures var later := ParseAll(tail, count).value;
            ParseAll(front + tail, count + 1) == Ok(([p] + later.0, later.1))
  {
    assert (front + tail)[|front|..] == tail;
  }

  /** Main result: a stream of built packets reads back as the same list, trailing bytes untouched. */
  lemma {:induction false} StreamRoundTrip(ps: seq<Packet>, rest: seq<byte>)
    requires Sendable(ps)
    ensures ParseAll(BuildAll(ps) + rest, |ps|) == Ok((ps, rest))
  {
    if ps == [] {
      assert BuildAll(ps) + rest == rest;
    } else {
      var front, later := BuildPacket(ps[0]), BuildAll(ps[1..]);
      PacketRoundTrip(ps[0], later + rest);
      StreamRoundTrip(ps[1..], rest);
      ParseOneMore(front, ps[0], later + rest, |ps| - 1);
      Associate(front, later, rest);
      assert ps == [ps[0]] + ps[1..];
    }
  }

  // ----- Text and handshakes, over any encoding of text as bytes

  function EncodeUtf(encode: string -> seq<byte>, text: string): seq<byte> {
    EncodeVarint(|encode(text)|) + encode(text)
  }

  /** A negative length reads everything that is left. */
  function ParseUtf(decode: seq<byte> -> Option<string>, s: seq<byte>): Result<(string, nat), Error> {
    var header := ParseVarint(s);
    if header.Err? then Err(header.error)
    else
      RawIsBounded(s, VARINT_BYTES);
      var (length, n) := header.value;
      if length > |s| - n then Err(EndOfStream)
      else
        var end := if length < 0 then |s| else n + length;
        var text := decode(s[n..end]);
        if text.None? then Err(BadText) else Ok((text.value, end))
  }

  /** What any bytes read as a text: those the length counts, all of them if it is negative, unless there are
      fewer or they do not decode. */
  lemma UtfExactly(decode: seq<byte> -> Option<string>, s: seq<byte>)
    requires ParseVarint(s).Ok?
    ensures ParseVarint(s).value.1 <= |s|
    ensures var (length, n) := ParseVarint(s).value;
            var r, body := ParseUtf(decode, s), s[n..];
            && (length > |body| ==> r == Err(EndOfStream))
            && (0 <= length <= |body| && decode(body[..length]).Some? ==>
                  r == Ok((decode(body[..length]).value, n + length)))
            && (0 <= length <= |body| && decode(body[..length]).None? ==> r == Err(BadText))
            && (length < 0 && decode(body).Some? ==> r == Ok((decode(body).value, |s|)))
            && (length < 0 && decode(body).None? ==> r == Err(BadText))
  {
    RawIsBounded(s, VARINT_BYTES);
    hide ParseRaw;
    var (length, n) := ParseVarint(s).value;
    assert s[n..|s|] == s[n..];
    if 0 <= length <= |s| - n {
      Slice(s, n, length);
    }
  }

  datatype Handshake = Handshake(protocolVersion: int, address: string, port: int, nextState: int)

  function EncodeHandshake(encode: string -> seq<byte>, h: Handshake): seq<byte>
    requires 0 <= h.port < 65536
  {
    EncodeVarint(h.protocolVersion) + EncodeUtf(encode, h.address) + [h.port / 256, h.port % 256]
    + EncodeVarint(h.nextState)
  }

  function ParseHandshake(decode: seq<byte> -> Option<string>, s: seq<byte>): Result<Handshake, Error> {
    var version := ParseVarint(s);
    if version.Err? then Err(version.error)
    else
      RawIsBounded(s, VARINT_BYTES);
      var s1 := s[version.value.1..];
      var address := ParseUtf(decode, s1);
      if address.Err? then Err(address.error)
      else
        var s2 := s1[address.value.1..];
        if |s2| < 2 then Err(EndOfStream)
        else
          var state := ParseVarint(s2[2..]);
          if state.Err? then Err(state.error)
          else Ok(Handshake(version.value.0, address.value.0, s2[0] as int * 256 + s2[1], state.value.0))
  }

  lemma UtfRoundTrip(encode: string -> seq<byte>, decode: seq<byte> -> Option<string>, text: string, rest: seq<byte>)
    requires decode(encode(text)) == Some(text) && |encode(text)| < TWO_31
    ensures ParseUtf(decode, EncodeUtf(encode, text) + rest) == Ok((text, |EncodeUtf(encode, text)|))
  {
    var bytes := encode(text);
    var header := EncodeVarint(|bytes|);
    var s := EncodeUtf(encode, text) + rest;
    assert s == header + (bytes + rest);
    VarintRoundTrip(|bytes|, bytes + rest);
    assert s[|header|..|header| + |bytes|] == bytes;
  }

  /** Four fields that read back one after the other read back as a handshake. */
  lemma HandshakeParts(decode: seq<byte> -> Option<string>, h: Handshake, version: seq<byte>, address: seq<byte>,
                       port: seq<byte>, tail: seq<byte>)
    requires |port| == 2 && port[0] as int * 256 + port[1] == h.port
    requires ParseVarint(version + (address + (port + tail))) == Ok((h.protocolVersion, |version|))
    requires ParseUtf(decode, address + (port + tail)) == Ok((h.address, |address|))
    requires ParseVarint(tail).Ok? && ParseVarint(tail).value.0 == h.nextState
    ensures ParseHandshake(decode, version + (address + (port + tail))) == Ok(h)
  {
    var s2 := port + tail;
    var s1 := address + s2;
    assert (version + s1)[|version|..] == s1;
    assert s1[|address|..] == s2;
    assert s2[2..] == tail;
  }

  /** A handshake parses back to its four fields, whatever follows it in the packet. */
  lemma HandshakeRoundTrip(encode: string -> seq<byte>, decode: seq<byte> -> Option<string>,
                           h: Handshake, rest: seq<byte>)
    requires decode(encode(h.address)) == Some(h.address) && |encode(h.address)| < TWO_31
    requires Signed32(h.protocolVersion) && Signed32(h.nextState) && 0 <= h.port < 65536
    ensures ParseHandshake(decode, EncodeHandshake(encode, h) + rest) == Ok(h)
  {
    var port: seq<byte> := [h.port / 256, h.port % 256];
    var version, state := EncodeVarint(h.protocolVersion), EncodeVarint(h.nextState);
    var address := EncodeUtf(encode, h.address);
    VarintRoundTrip(h.protocolVersion, address + (port + (state + rest)));
    UtfRoundTrip(encode, decode, h.address, port + (state + rest));
    VarintRoundTrip(h.nextState, rest);
    HandshakeParts(decode, h, version, address, port, state + rest);
    AssociateFour(version, address, port, state, rest);
  }

  lemma AssociateFour(a: seq<byte>, b: seq<byte>, c: seq<byte>, d: seq<byte>, e: seq<byte>)
    ensures a + b + c + d + e == a + (b + (c + (d + e)))
  {
  }

  // ----- The readers and the writer as they run

  /** A stream with a read position: an in-memory one, or a network reader at its end of file. */
  class ByteStream {
    const data: seq<byte>
    var pos: nat

    ghost predicate Valid()
      reads this
    {
      pos <= |data|
    }

    ghost function Rest(): seq<byte>
      requires Valid()
      reads this
    {
      data[pos..]
    }

    constructor (data: seq<byte>)
      ensures Valid() && pos == 0 && this.data == data
    {
      this.data := data;
      pos := 0;
    }

    /** Up to `n` bytes; all of them when `n` is negative. */
    method Read(n: int) returns (bytes: seq<byte>)
      requires Valid()
      modifies this
      ensures Valid()
      ensures |bytes| == if n < 0 || n > |old(Rest())| then |old(Rest())| else n
      ensures old(Rest()) == bytes + Rest()
    {
      var end := if n < 0 || pos + n > |data| then |data| else pos + n;
      bytes := data[pos..end];
      pos := end;
    }

    /** Exactly `n` bytes, or everything is consumed and the read fails. */
    method ReadExactly(n: nat) returns (r: Result<seq<byte>, Error>)
      requires Valid()
      modifies this
      ensures Valid()
      ensures if n <= |old(Rest())| then r == Ok(old(Rest())[..n]) && Rest() == old(Rest())[n..]
              else r == Err(IncompleteRead) && Rest() == []
    {
      if pos + n <= |data| {
        r := Ok(data[pos..pos + n]);
        assert data[pos..pos + n] == Rest()[..n];
        pos := pos + n;
      } else {
        r := Err(IncompleteRead);
        pos := |data|;
      }
    }
  }

  /** What the loops know after `i` bytes with value `acc`. */
  function Extended(acc: nat, i: nat, r: Result<(nat, nat), Error>): Result<(nat, nat), Error> {
    if r.Err? then r else Ok((acc + Pow128(i) * r.value.0, i + r.value.1))
  }

  lemma OneDigit(acc: nat, p: nat, low: nat, high: nat)
    ensures acc + p * (low + 128 * high) == (acc + low * p) + (128 * p) * high
  {
    assert p * (low + 128 * high) == p * low + p * (128 * high);
  }

  lemma ExtendByOne(acc: nat, i: nat, s: seq<byte>, left: nat)
    requires s != [] && left > 0
    ensures s[0] >= 128 ==>
              Extended(acc, i, ParseRaw(s, left)) ==
              Extended(acc + (s[0] - 128) * Pow128(i), i + 1, ParseRaw(s[1..], left - 1))
    ensures s[0] < 128 ==> Extended(acc, i, ParseRaw(s, left)) == Ok((acc + s[0] * Pow128(i), i + 1))
  {
    var r := ParseRaw(s[1..], left - 1);
    if s[0] < 128 {
      OneDigit(acc, Pow128(i), s[0], 0);
    } else if r.Ok? {
      OneDigit(acc, Pow128(i), s[0] - 128, r.value.0);
      assert Pow128(i + 1) == 128 * Pow128(i);
      assert ParseRaw(s, left) == Ok((s[0] - 128 + 128 * r.value.0, r.value.1 + 1));
      hide ParseRaw, Pow128;
    }
  }

  /** After `i` bytes of `s` with value `acc`, the rest of the number is still to come. */
  ghost predicate ReadSoFar(s: seq<byte>, i: nat, acc: nat) {
    i <= |s| && i <= VARINT_BYTES &&
    ParseRaw(s, VARINT_BYTES) == Extended(acc, i, ParseRaw(s[i..], VARINT_BYTES - i))
  }

  lemma ReadStarts(s: seq<byte>)
    ensures ReadSoFar(s, 0, 0)
  {
    assert s[0..] == s;
  }

  lemma ReadOneMore(s: seq<byte>, i: nat, acc: nat, b: byte)
    requires ReadSoFar(s, i, acc) && i < VARINT_BYTES && i < |s| && s[i] == b
    ensures b >= 128 ==> ReadSoFar(s, i + 1, acc + b % 128 * Pow128(i))
    ensures b < 128 ==> ParseRaw(s, VARINT_BYTES) == Ok((acc + b % 128 * Pow128(i), i + 1))
  {
    hide ParseRaw, Extended, Pow128;
    ExtendByOne(acc, i, s[i..], VARINT_BYTES - i);
    assert s[i..][1..] == s[i + 1..];
    assert b % 128 == if b < 128 then b else b - 128;
  }

  /** The loop runs out of input, or out of attempts. */
  lemma ReadEnds(s: seq<byte>, i: nat, acc: nat)
    requires ReadSoFar(s, i, acc)
    ensures i == VARINT_BYTES ==> ParseRaw(s, VARINT_BYTES) == Err(VarintTooBig)
    ensures i < VARINT_BYTES && i == |s| ==> ParseRaw(s, VARINT_BYTES) == Err(EndOfStream)
  {
  }

  lemma AfterOneByte(s: seq<byte>, i: nat, bytes: seq<byte>, rest: seq<byte>)
    requires i <= |s| && s[i..] == bytes + rest && |bytes| == 1
    ensures i < |s| && s[i] == bytes[0] && rest == s[i + 1..]
  {
    assert s[i..][0] == bytes[0] && s[i..][1..] == rest;
  }

  method ReadVarint(stream: ByteStream) returns (r: Result<int, Error>)
    requires stream.Valid()
    modifies stream
    ensures stream.Valid()
    ensures var parsed := ParseVarint(old(stream.Rest()));
            match parsed
            case Ok((v, n)) => r == Ok(v) && n <= |old(stream.Rest())| && stream.Rest() == old(stream.Rest())[n..]
            case Err(e) => r == Err(e)
  {
    hide ParseRaw, Extended;
    ghost var s := stream.Rest();
    ReadStarts(s);
    var result: nat, scale: nat := 0, 1;
    for i := 0 to VARINT_BYTES
      invariant stream.Valid() && i <= |s| && stream.Rest() == s[i..] && scale == Pow128(i)
      invariant ReadSoFar(s, i, result)
    {
      var bytes := stream.Read(1);
      if bytes == [] {
        ReadEnds(s, i, result);
        return Err(EndOfStream);
      }
      var b := bytes[0];
      AfterOneByte(s, i, bytes, stream.Rest());
      ReadOneMore(s, i, result, b);
      result := result + b % 128 * scale;
      if b < 128 {
        return Ok(SignExtend(result));
      }
      scale := scale * 128;
    }
    ReadEnds(s, VARINT_BYTES, result);
    return Err(VarintTooBig);
  }

  method ReadVarintAsync(reader: ByteStream) returns (r: Result<int, Error>)
    requires reader.Valid()
    modifies reader
    ensures reader.Valid()
    ensures var parsed := ParseVarint(old(reader.Rest()));
            match parsed
            case Ok((v, n)) => r == Ok(v) && n <= |old(reader.Rest())| && reader.Rest() == old(reader.Rest())[n..]
            case Err(e) => r == Err(if e == EndOfStream then IncompleteRead else e)
  {
    hide ParseRaw, Extended;
    ghost var s := reader.Rest();
    ReadStarts(s);
    var result: nat, scale: nat := 0, 1;
    for i := 0 to VARINT_BYTES
      invariant reader.Valid() && i <= |s| && reader.Rest() == s[i..] && scale == Pow128(i)
      invariant ReadSoFar(s, i, result)
    {
      var got := reader.ReadExactly(1);
      if got.Err? {
        ReadEnds(s, i, result);
        return Err(got.error);
      }
      var b := got.value[0];
      ReadOneMore(s, i, result, b);
      result := result + b % 128 * scale;
      if b < 128 {
        return Ok(SignExtend(result));
      }
      scale := scale * 128;
    }
    ReadEnds(s, VARINT_BYTES, result);
    return Err(VarintTooBig);
  }

  /** One byte of the encoding, and the end of it. */
  lemma EncodeOneByte(u: int, left: nat)
    ensures left == 0 ==> EncodeRaw(u, left) == []
    ensures left > 0 && u / 128 == 0 ==> EncodeRaw(u, left) == [u % 128]
    ensures left > 0 && u / 128 != 0 ==> EncodeRaw(u, left) == [u % 128 + 128] + EncodeRaw(u / 128, left - 1)
  {
  }

  method WriteVarint(value: int) returns (out: seq<byte>)
    ensures out == EncodeVarint(value)
  {
    var u := Unsigned(value);
    out := [];
    assert EncodeRaw(u, VARINT_BYTES) == EncodeVarint(value);
    hide *;
    for i := 0 to VARINT_BYTES
      invariant out + EncodeRaw(u, VARINT_BYTES - i) == EncodeVarint(value)
    {
      EncodeOneByte(u, VARINT_BYTES - i);
      var b := u % 128;
      u := u / 128;
      if u != 0 {
        b := b + 128;
        Associate(out, [b], EncodeRaw(u, VARINT_BYTES - i - 1));
      }
      out := out + [b];
      if u == 0 {
        return;
      }
    }
    EncodeOneByte(u, 0);
  }

  method ReadPacket(reader: ByteStream) returns (r: Result<Packet, Error>)
    requires reader.Valid()
    modifies reader
    ensures reader.Valid()
    ensures var parsed := ParsePacket(old(reader.Rest()));
            match parsed
            case Ok((p, n)) => r == Ok(p) && n <= |old(reader.Rest())| && reader.Rest() == old(reader.Rest())[n..]
            case Err(e) => r == Err(e)
  {
    hide ParseRaw, ParseVarint;
    ghost var s := reader.Rest();
    var length := ReadVarintAsync(reader);
    if length.Err? {
      return Err(length.error);
    }
    if length.value <= 0 {
      return Err(InvalidLength);
    }
    if length.value > MAX_PACKET {
      return Err(PacketTooLarge);
    }
    var data := reader.ReadExactly(length.value);
    if data.Err? {
      return Err(data.error);
    }
    ghost var n := ParseVarint(s).value.1;
    Slice(s, n, length.value);
    assert data.value == s[n..n + length.value] && reader.Rest() == s[n + length.value..];
    var stream := new ByteStream(data.value);
    var id := ReadVarint(stream);
    if id.Err? {
      return Err(id.error);
    }
    return Ok(Packet(id.value, stream.data[stream.pos..]));
  }
}
