/** The WebSocket frame codec (RFC 6455, sections 5.2 and 5.3): what the reader accepts, and that
    it reads back every stream of frames, up to the defect in its 64-bit length form. */
module WebSocketFrames {
  import opened Options

  newtype byte = x: int | 0 <= x < 256

  const MAX_PAYLOAD := 0x40_0000
  const MAX_INT64 := 0x7FFF_FFFF_FFFF_FFFF
  const TWO_64 := 0x1_0000_0000_0000_0000

  /** The accumulator of the 64-bit form starts at this value: the code leaves the marker 127 in it. */
  const AS_WRITTEN := 127
  const INTENDED := 0

  // ---------- Exclusive or ----------

  function Bits(n: nat): nat { if n == 0 then 1 else 2 * Bits(n - 1) }

  /** Bitwise exclusive or of the lowest `n` bits. */
  function XorBits(a: nat, b: nat, n: nat): (r: nat)
    ensures r < Bits(n)
  {
    if n == 0 then 0 else 2 * XorBits(a / 2, b / 2, n - 1) + (a % 2 + b % 2) % 2
  }

  lemma Halves(q: nat, r: nat)
    requires r < 2
    ensures (2 * q + r) / 2 == q && (2 * q + r) % 2 == r
  {
  }

  lemma Parity(a: nat, b: nat)
    requires a < 2 && b < 2
    ensures ((a + b) % 2 + b) % 2 == a
  {
  }

  lemma XorStep(a: nat, b: nat, n: nat)
    ensures XorBits(a, b, n + 1) == 2 * XorBits(a / 2, b / 2, n) + (a % 2 + b % 2) % 2
    ensures XorBits(a, b, 0) == 0
  {
  }

  lemma {:induction false} XorTwice(a: nat, b: nat, n: nat)
    requires a < Bits(n)
    ensures XorBits(XorBits(a, b, n), b, n) == a
  {
    hide XorBits;
    XorStep(0, b, 0);
    XorStep(XorBits(a, b, 0), b, 0);
    if n > 0 {
      XorTwice(a / 2, b / 2, n - 1);
      var q, r := XorBits(a / 2, b / 2, n - 1), (a % 2 + b % 2) % 2;
      XorStep(a, b, n - 1);
      Halves(q, r);
      Parity(a % 2, b % 2);
      XorStep(2 * q + r, b, n - 1);
    }
  }

  lemma EightBits()
    ensures Bits(8) == 256
  {
    assert Bits(4) == 16;
  }

  function Xor(a: byte, b: byte): byte {
    EightBits();
    XorBits(a as nat, b as nat, 8) as byte
  }

  lemma XorUndone(a: byte, b: byte)
    ensures Xor(Xor(a, b), b) == a
  {
    EightBits();
    XorTwice(a as nat, b as nat, 8);
  }

  // ---------- Big-endian lengths ----------

  function Pow256(n: nat): (r: nat)
    ensures r > 0
  {
    if n == 0 then 1 else 256 * Pow256(n - 1)
  }

  function BigEndian(bs: seq<byte>): nat {
    if bs == [] then 0 else BigEndian(bs[..|bs| - 1]) * 256 + bs[|bs| - 1] as nat
  }

  /** The lowest `k` bytes of n. */
  function ToBytes(n: nat, k: nat): (r: seq<byte>)
    ensures |r| == k
  {
    if k == 0 then [] else ToBytes(n / 256, k - 1) + [(n % 256) as byte]
  }

  lemma {:induction false} LengthRoundTrip(n: nat, k: nat)
    requires n < Pow256(k)
    ensures BigEndian(ToBytes(n, k)) == n
  {
    if k > 0 {
      LengthRoundTrip(n / 256, k - 1);
      assert ToBytes(n, k)[..k - 1] == ToBytes(n / 256, k - 1);
    }
  }

  lemma {:induction false} BytesRoundTrip(bs: seq<byte>)
    ensures BigEndian(bs) < Pow256(|bs|) && ToBytes(BigEndian(bs), |bs|) == bs
  {
    if bs != [] {
      BytesRoundTrip(bs[..|bs| - 1]);
      assert bs == bs[..|bs| - 1] + [bs[|bs| - 1]];
    }
  }

  // ---------- Frames on the wire ----------

  datatype Form = Short | Medium | Long
  datatype Wire = Wire(first: byte, form: Form, mask: Option<seq<byte>>, payload: seq<byte>)
  datatype Header = Header(first: byte, second: byte, length: nat)
  datatype Frame = Frame(opcode: nat, payload: seq<byte>)

  function Masked(payload: seq<byte>, mask: seq<byte>): (r: seq<byte>)
    requires |mask| == 4
    ensures |r| == |payload|
  {
    seq(|payload|, i requires 0 <= i < |payload| => Xor(payload[i], mask[i % 4]))
  }

  lemma MaskedTwice(payload: seq<byte>, mask: seq<byte>)
    requires |mask| == 4
    ensures Masked(Masked(payload, mask), mask) == payload
  {
    hide Xor;
    forall i | 0 <= i < |payload| ensures Masked(Masked(payload, mask), mask)[i] == payload[i] {
      XorUndone(payload[i], mask[i % 4]);
    }
  }

  function LengthBytes(f: Form): nat { match f case Short => 0 case Medium => 2 case Long => 8 }

  /** The length fits its form, which need not be the shortest, and a mask has four bytes. */
  predicate WellFormed(w: Wire) {
    && (match w.form
        case Short => |w.payload| < 126
        case Medium => |w.payload| < 65536
        case Long => |w.payload| < TWO_64)
    && (w.mask.Some? ==> |w.mask.value| == 4)
  }

  function Second(w: Wire): byte
    requires WellFormed(w)
  {
    (if w.mask.Some? then 128 else 0) + (match w.form case Short => |w.payload| as byte case Medium => 126 case Long => 127)
  }

  function Body(w: Wire): seq<byte>
    requires WellFormed(w)
  {
    if w.mask.Some? then w.mask.value + Masked(w.payload, w.mask.value) else w.payload
  }

  function Bytes(w: Wire): seq<byte>
    requires WellFormed(w)
  {
    [w.first, Second(w)] + ToBytes(|w.payload|, LengthBytes(w.form)) + Body(w)
  }

  /** What the reader takes: payloads up to 4 MiB, and the 64-bit form only if its accumulator starts at zero. */
  predicate Acceptable(w: Wire, seed: nat) {
    WellFormed(w) && |w.payload| <= MAX_PAYLOAD && (w.form == Long ==> seed == INTENDED)
  }

  // What a byte stream says about a frame at its head.

  function FormOf(second: byte): Form {
    if second % 128 == 126 then Medium else if second % 128 == 127 then Long else Short
  }

  function Declared(input: seq<byte>): nat
    requires |input| >= 2 && |input| >= 2 + LengthBytes(FormOf(input[1]))
  {
    match FormOf(input[1])
    case Short => (input[1] % 128) as nat
    case Medium => BigEndian(input[2..4])
    case Long => BigEndian(input[2..10])
  }

  lemma Powers()
    ensures Pow256(2) == 65536 && Pow256(8) == TWO_64
  {
    assert Pow256(4) == 0x1_0000_0000;
  }

  /** The head of a stream determines form, mask bit and length of the frame there. */
  lemma HeaderSays(w: Wire, tail: seq<byte>, input: seq<byte>)
    requires WellFormed(w) && input == Bytes(w) + tail
    ensures |input| >= 2 + LengthBytes(w.form) && input[0] == w.first
    ensures FormOf(input[1]) == w.form && (input[1] >= 128 <==> w.mask.Some?)
    ensures Declared(input) == |w.payload|
    ensures input[2 + LengthBytes(w.form)..] == Body(w) + tail
  {
    Powers();
    hide Pow256, Masked, Body, ToBytes;
    var digits := ToBytes(|w.payload|, LengthBytes(w.form));
    assert input == [w.first, Second(w)] + digits + Body(w) + tail;
    assert input[2..2 + |digits|] == digits;
    if w.form != Short { LengthRoundTrip(|w.payload|, LengthBytes(w.form)); }
  }

  /** Frames are self-delimiting: one stream begins with at most one frame. */
  lemma SelfDelimiting(v: Wire, w: Wire, s: seq<byte>, t: seq<byte>)
    requires WellFormed(v) && WellFormed(w) && Bytes(v) + s == Bytes(w) + t
    ensures v == w && s == t
  {
    hide Bytes, Masked;
    HeaderSays(v, s, Bytes(v) + s);
    HeaderSays(w, t, Bytes(v) + s);
    BodySplits(v, s);
    BodySplits(w, t);
  }

  lemma BodySplits(w: Wire, tail: seq<byte>)
    requires WellFormed(w)
    ensures var m, n := if w.mask.Some? then 4 else 0, |w.payload|;
            && |Body(w) + tail| == m + n + |tail| && (Body(w) + tail)[m + n..] == tail
            && (w.mask.Some? ==> w.mask.value == (Body(w) + tail)[..4])
            && w.payload == (if w.mask.Some? then Masked((Body(w) + tail)[4..4 + n], (Body(w) + tail)[..4]) else (Body(w) + tail)[..n])
  {
    if w.mask.Some? {
      var mask, hidden := w.mask.value, Masked(w.payload, w.mask.value);
      assert (Body(w) + tail)[..4] == mask && (Body(w) + tail)[4..4 + |w.payload|] == hidden;
      MaskedTwice(w.payload, mask);
    }
  }

  // ---------- The reader ----------

  /** A left shift by eight with a low byte put in, on a signed 64-bit integer. */
  function Shifted(length: int, v: byte): int { Signed((length * 256 + v as int) % TWO_64) }

  function Signed(wide: int): int { if wide > MAX_INT64 then wide - TWO_64 else wide }

  lemma NoBytes()
    ensures BigEndian([]) == 0 && Pow256(0) == 1
  {
  }

  class FrameReader {
    var rest: seq<byte>

    constructor (input: seq<byte>)
      ensures rest == input
    {
      rest := input;
    }

    /** All `n` bytes, or an error after using up a shorter input. */
    method ReadFull(n: nat) returns (r: Option<seq<byte>>)
      modifies this
      ensures r == if n <= |old(rest)| then Some(old(rest)[..n]) else None
      ensures rest == if n <= |old(rest)| then old(rest)[n..] else []
    {
      if n <= |rest| {
        r, rest := Some(rest[..n]), rest[n..];
      } else {
        r, rest := None, [];
      }
    }

    /** The 64-bit form. From the marker 127 the guard fires at the eighth byte, whatever the bytes are. */
    method ReadLong(seed: nat) returns (r: Option<int>)
      requires seed == AS_WRITTEN || seed == INTENDED
      modifies this
      ensures seed == AS_WRITTEN ==> r == None
      ensures seed == INTENDED ==> r.Some? == (|old(rest)| >= 8)
      ensures r.Some? ==> rest == old(rest)[8..] && |old(rest)| >= 8
      ensures r.Some? ==> var n := BigEndian(old(rest)[..8]); n < TWO_64 && r.value == Signed(n)
    {
      hide BigEndian, Pow256, Shifted;
      var read := ReadFull(8);
      if read.None? { return None; }
      var b, length := read.value, seed as int;
      Powers();
      NoBytes();
      assert b[..0] == [];
      for i := 0 to 8
        invariant BigEndian(b[..i]) < Pow256(i) && rest == old(rest)[8..]
        invariant i < 8 ==> length == seed * Pow256(i) + BigEndian(b[..i])
        invariant i == 8 ==> seed == INTENDED && length == Signed(BigEndian(b[..i]))
      {
        LongStep(b, i, seed);
        if length > 0xFF_FFFF_FFFF_FFFF { return None; }
        length := Shifted(length, b[i]);
      }
      assert b[..8] == b;
      r := Some(length);
    }

    /** The first bytes, up to the mask. None means that no acceptable frame starts here. */
    method ReadHeader(seed: nat) returns (r: Option<Header>)
      requires seed == AS_WRITTEN || seed == INTENDED
      modifies this
      ensures r.None? ==> Refused(old(rest), seed)
      ensures r.Some? ==> Announces(old(rest), r.value.length, seed)
      ensures r.Some? ==> r.value.first == old(rest)[0] && r.value.second == old(rest)[1]
      ensures r.Some? ==> rest == old(rest)[2 + LengthBytes(FormOf(old(rest)[1]))..]
    {
      hide Refused;
      ghost var input := rest;
      RefusedHeader(input, seed);
      var head := ReadFull(2);
      if head.None? { return None; }
      var length: int := (head.value[1] % 128) as int;
      if length == 126 {
        var b := ReadFull(2);
        if b.None? { return None; }
        length := b.value[0] as int * 256 + b.value[1] as int;
        TwoBytes(b.value);
        assert b.value == input[2..4];
      } else if length == 127 {
        var b := ReadLong(seed);
        if b.None? { return None; }
        length := b.value;
        assert input[2..][..8] == input[2..10];
      }
      // A negative length makes the code's allocation panic; the marker 127 never lets it get here.
      if length > MAX_PAYLOAD || length < 0 { return None; }
      r := Some(Header(head.value[0], head.value[1], length));
    }

    /** The input starts with an acceptable frame exactly when the reader returns one, and then it
        returns that frame's opcode and payload and leaves the bytes behind it. */
    method ReadFrame(seed: nat) returns (r: Result<Frame>, ghost w: Wire)
      requires seed == AS_WRITTEN || seed == INTENDED
      modifies this
      ensures r.Ok? ==> Acceptable(w, seed) && old(rest) == Bytes(w) + rest
      ensures r.Ok? ==> r.value == Frame((w.first % 16) as nat, w.payload)
      ensures r.Err? ==> Refused(old(rest), seed)
    {
      hide Refused, Declared, FormOf, Acceptable, Bytes, Masked;
      ghost var input := rest;
      w := Wire(0, Short, None, []);
      var header := ReadHeader(seed);
      if header.None? { return Err, w; }
      var Header(first, second, length) := header.value;
      RefusedBody(input, length, seed);
      var body := ReadBody(second >= 128, length);
      if body.None? { return Err, w; }
      var (mask, data) := body.value;
      var payload := if second >= 128 then Masked(data, mask) else data;
      w := Wire(first, FormOf(second), if second >= 128 then Some(mask) else None, payload);
      FrameFound(input, w, data, rest, seed);
      r := Ok(Frame((first % 16) as nat, payload));
    }

    /** The mask, if there is one, and the payload bytes as sent. */
    method ReadBody(masked: bool, length: nat) returns (r: Option<(seq<byte>, seq<byte>)>)
      modifies this
      ensures r.Some? == (|old(rest)| >= (if masked then 4 else 0) + length)
      ensures r.Some? ==> |r.value.0| == 4 && |r.value.1| == length
      ensures r.Some? ==> old(rest) == (if masked then r.value.0 else []) + r.value.1 + rest
    {
      var mask: seq<byte> := [0, 0, 0, 0];
      if masked {
        var m := ReadFull(4);
        if m.None? { return None; }
        mask := m.value;
      }
      var read := ReadFull(length);
      if read.None? { return None; }
      r := Some((mask, read.value));
    }
  }

  /** No acceptable frame starts the input. */
  ghost predicate Refused(input: seq<byte>, seed: nat) {
    forall v, tail :: Acceptable(v, seed) ==> input != Bytes(v) + tail
  }

  /** A complete header with an admissible length. */
  ghost predicate Announces(input: seq<byte>, length: nat, seed: nat) {
    && |input| >= 2 && |input| >= 2 + LengthBytes(FormOf(input[1]))
    && length == Declared(input) <= MAX_PAYLOAD && (FormOf(input[1]) == Long ==> seed == INTENDED)
  }

  lemma RefusedHeader(input: seq<byte>, seed: nat)
    ensures |input| < 2 || |input| < 2 + LengthBytes(FormOf(input[1])) || !Announces(input, Declared(input), seed)
            ==> Refused(input, seed)
  {
    hide Bytes, Body, Declared;
    forall v, tail | Acceptable(v, seed) && input == Bytes(v) + tail
      ensures |input| >= 2 && |input| >= 2 + LengthBytes(FormOf(input[1])) && Announces(input, Declared(input), seed)
    {
      HeaderSays(v, tail, input);
    }
  }

  lemma RefusedBody(input: seq<byte>, length: nat, seed: nat)
    requires Announces(input, length, seed)
    ensures |input| < 2 + LengthBytes(FormOf(input[1])) + (if input[1] >= 128 then 4 else 0) + length ==> Refused(input, seed)
  {
    hide Bytes, Body, Declared;
    forall v, tail | Acceptable(v, seed) && input == Bytes(v) + tail
      ensures |input| >= 2 + LengthBytes(FormOf(input[1])) + (if input[1] >= 128 then 4 else 0) + length
    {
      HeaderSays(v, tail, input);
      BodySplits(v, tail);
    }
  }

  lemma TwoBytes(b: seq<byte>)
    requires |b| == 2
    ensures BigEndian(b) == b[0] as nat * 256 + b[1] as nat
  {
    assert b[..1][..0] == [];
    assert BigEndian(b[..1]) == b[0] as nat;
  }

  lemma HeaderFound(input: seq<byte>, length: nat)
    requires |input| >= 2 && |input| >= 2 + LengthBytes(FormOf(input[1])) && length == Declared(input)
    ensures match FormOf(input[1])
            case Short => length < 126 && (input[1] % 128) as nat == length
            case Medium => length < 65536 && input[1] % 128 == 126
            case Long => length < TWO_64 && input[1] % 128 == 127
    ensures ToBytes(length, LengthBytes(FormOf(input[1]))) == input[2..2 + LengthBytes(FormOf(input[1]))]
  {
    Powers();
    BytesRoundTrip(input[2..2 + LengthBytes(FormOf(input[1]))]);
  }

  lemma SecondIs(w: Wire, second: byte)
    requires WellFormed(w) && FormOf(second) == w.form && (second >= 128 <==> w.mask.Some?)
    requires w.form == Short ==> (second % 128) as nat == |w.payload|
    ensures Second(w) == second
  {
  }

  lemma Reassembled(input: seq<byte>, n: nat, body: seq<byte>, tail: seq<byte>)
    requires |input| >= 2 + n && input[2 + n..] == body + tail
    ensures [input[0], input[1]] + input[2..2 + n] + body + tail == input
  {
    assert input == input[..2 + n] + input[2 + n..];
    assert input[..2 + n] == [input[0], input[1]] + input[2..2 + n];
  }

  /** The bytes read are the bytes of the frame found. */
  lemma FrameFound(input: seq<byte>, w: Wire, data: seq<byte>, tail: seq<byte>, seed: nat)
    requires |input| >= 2 && Announces(input, |data|, seed) && w.first == input[0] && w.form == FormOf(input[1])
    requires w.mask.Some? == (input[1] >= 128) && (w.mask.Some? ==> |w.mask.value| == 4)
    requires w.payload == if w.mask.Some? then Masked(data, w.mask.value) else data
    requires input[2 + LengthBytes(w.form)..] == (if w.mask.Some? then w.mask.value else []) + data + tail
    ensures Acceptable(w, seed) && input == Bytes(w) + tail
  {
    hide Masked, Declared, ToBytes;
    var n := LengthBytes(w.form);
    HeaderFound(input, |data|);
    if w.mask.Some? { MaskedTwice(data, w.mask.value); }
    assert Body(w) == (if w.mask.Some? then w.mask.value else []) + data;
    SecondIs(w, input[1]);
    hide FormOf, Second, Body;
    Reassembled(input, n, Body(w), tail);
  }

  /** The powers as numbers, and how far an accumulator of i bytes reaches. */
  lemma Reach(i: nat)
    requires i < 8
    ensures Pow256(i + 1) == 256 * Pow256(i) && (i < 7 ==> 128 * Pow256(i) <= 0x80_0000_0000_0000)
    ensures Pow256(i) <= 0x100_0000_0000_0000 && (i == 7 ==> Pow256(i) == 0x100_0000_0000_0000)
  {
    assert Pow256(3) == 0x100_0000 && Pow256(6) == 0x1_0000_0000_0000;
    assert Pow256(1) == 256 && Pow256(2) == 65536 && Pow256(4) == 0x1_0000_0000 && Pow256(5) == 0x100_0000_0000;
  }

  lemma LongStep(b: seq<byte>, i: nat, seed: nat)
    requires |b| == 8 && i < 8 && BigEndian(b[..i]) < Pow256(i)
    requires seed == AS_WRITTEN || seed == INTENDED
    ensures BigEndian(b[..i + 1]) == BigEndian(b[..i]) * 256 + b[i] as nat < Pow256(i + 1)
    ensures var length := seed * Pow256(i) + BigEndian(b[..i]);
            && (seed == AS_WRITTEN ==> (length > 0xFF_FFFF_FFFF_FFFF <==> i == 7))
            && (seed == INTENDED ==> length <= 0xFF_FFFF_FFFF_FFFF)
            && (seed == INTENDED && i == 7 ==> Shifted(length, b[i]) == Signed(BigEndian(b[..i + 1])))
            && (i < 7 ==> Shifted(length, b[i]) == seed * Pow256(i + 1) + BigEndian(b[..i + 1]))
  {
    assert b[..i + 1][..i] == b[..i];
    Reach(i);
    hide Pow256;
  }

  // ---------- The writer and whole streams ----------

  const TWO_32 := 0x1_0000_0000

  /** The part of a payload that its length field covers: the field keeps four bytes of a length. */
  function Covered(n: nat): (k: nat)
    ensures k <= n && k < TWO_32 && (k == n <==> n < TWO_32)
  {
    n % TWO_32
  }

  /** The form chosen for the whole payload. */
  function FormFor(n: nat): Form {
    if n < 126 then Short else if n <= 65535 then Medium else Long
  }

  /** The frame that a reader finds in what is written: final and unmasked. */
  function Written(opcode: byte, payload: seq<byte>): Wire {
    Wire(128 + opcode % 16, FormFor(|payload|), None, payload[..Covered(|payload|)])
  }

  /** The length field: the marker or length byte, then the length bytes. */
  method WriteLength(n: nat) returns (field: seq<byte>)
    ensures Covered(n) < 126 || FormFor(n) != Short
    ensures field == [match FormFor(n) case Short => n as byte case Medium => 126 case Long => 127]
                     + ToBytes(Covered(n), LengthBytes(FormFor(n)))
  {
    if n < 126 {
      field := [n as byte];
    } else if n <= 65535 {
      field := [126, (n / 256 % 256) as byte, (n % 256) as byte];
      assert ToBytes(n / 256, 1) == ToBytes(n / 256 / 256, 0) + [(n / 256 % 256) as byte];
      assert ToBytes(n, 2) == [(n / 256 % 256) as byte, (n % 256) as byte];
    } else {
      field := [127, 0, 0, 0, 0, (n / 0x100_0000 % 256) as byte, (n / 0x1_0000 % 256) as byte,
                (n / 256 % 256) as byte, (n % 256) as byte];
      LongLength(Covered(n));
      LowBytes(n);
    }
  }

  /** Lengths from 2^32 on lose their upper bytes, so what follows the covered part looks like further input. */
  method WriteFrame(opcode: byte, payload: seq<byte>) returns (frame: seq<byte>)
    ensures WellFormed(Written(opcode, payload)) && frame == Bytes(Written(opcode, payload)) + payload[Covered(|payload|)..]
    // Final, no reserved bits, the opcode in the low half.
    ensures 128 <= frame[0] < 144 && frame[0] % 16 == opcode % 16
  {
    hide ToBytes;
    var field := WriteLength(|payload|);
    frame := [128 + opcode % 16] + field + payload;
    assert payload == payload[..Covered(|payload|)] + payload[Covered(|payload|)..];
  }

  /** The four lowest bytes of a length are those of its remainder. */
  lemma LowBytes(n: nat)
    ensures var k := n % TWO_32;
            k % 256 == n % 256 && k / 256 % 256 == n / 256 % 256 &&
            k / 0x1_0000 % 256 == n / 0x1_0000 % 256 && k / 0x100_0000 % 256 == n / 0x100_0000 % 256
  {
    var k, q := n % TWO_32, n / TWO_32;
    assert n == k + 256 * (0x100_0000 * q) && n == k + 0x1_0000 * (0x1_0000 * q) && n == k + 0x100_0000 * (256 * q);
    ShiftedDigit(k, 0x1_0000 * q, 256);
    ShiftedDigit(k, 256 * q, 0x1_0000);
    ShiftedDigit(k, q, 0x100_0000);
  }

  lemma ShiftedDigit(k: nat, q: nat, base: nat)
    requires base > 0
    ensures (k + base * (256 * q)) / base % 256 == k / base % 256
  {
    QuotientShift(k, 256 * q, base);
    SameLowByte(k / base, q);
  }

  lemma SameLowByte(d: nat, q: nat)
    ensures (d + 256 * q) % 256 == d % 256
  {
  }

  lemma QuotientShift(k: nat, m: nat, base: nat)
    requires base > 0
    ensures (k + base * m) / base == k / base + m
  {
    var d, r := k / base, k % base;
    assert k == base * d + r;
    Spread(base, d, m);
    QuotientIs(k + base * m, base, d + m, r);
  }

  lemma Spread(base: nat, d: nat, m: nat)
    ensures base * (d + m) == base * d + base * m
  {
  }

  lemma QuotientIs(a: nat, base: nat, q: nat, r: nat)
    requires base > 0 && a == base * q + r && r < base
    ensures a / base == q
  {
    var p := a / base;
    assert a == base * p + a % base;
    if p < q { StepUp(base, p, q); }
    if q < p { StepUp(base, q, p); }
  }

  lemma StepUp(base: nat, p: nat, q: nat)
    requires p < q
    ensures base * p + base <= base * q
  {
    assert base * (p + 1) <= base * q;
  }

  /** One, two and four bytes of a length, spelled out. */
  lemma LongLength(n: nat)
    requires n < TWO_32
    ensures ToBytes(n, 8) == [0, 0, 0, 0, (n / 0x100_0000 % 256) as byte, (n / 0x1_0000 % 256) as byte, (n / 256 % 256) as byte, (n % 256) as byte]
  {
    ZeroBytes(4);
    FourBytes(n);
    assert n / 256 / 256 / 256 / 256 == 0;
    var a, b, c := n / 256, n / 256 / 256, n / 256 / 256 / 256;
    assert ToBytes(c, 5) == ToBytes(0, 4) + [(c % 256) as byte];
    assert ToBytes(b, 6) == ToBytes(c, 5) + [(b % 256) as byte];
    assert ToBytes(a, 7) == ToBytes(b, 6) + [(a % 256) as byte];
  }

  lemma FourBytes(n: nat)
    ensures n / 256 / 256 == n / 0x1_0000 && n / 256 / 256 / 256 == n / 0x100_0000
  {
  }

  lemma {:induction false} ZeroBytes(k: nat)
    ensures ToBytes(0, k) == seq(k, i => 0)
  {
    if k > 0 { ZeroBytes(k - 1); }
  }

  ghost predicate AllAcceptable(ws: seq<Wire>, seed: nat) {
    forall i | 0 <= i < |ws| :: Acceptable(ws[i], seed)
  }

  ghost predicate AllWellFormed(ws: seq<Wire>) {
    forall i | 0 <= i < |ws| :: WellFormed(ws[i])
  }

  /** The bytes of several frames, one after another. */
  ghost function Stream(ws: seq<Wire>): seq<byte>
    requires AllWellFormed(ws)
  {
    if ws == [] then [] else Bytes(ws[0]) + Stream(ws[1..])
  }

  /** Reading back any concatenation of acceptable frames, masked or not and in any form, recovers every
      opcode and payload in order and stops at the end of the input. */
  method ReadStream(ghost ws: seq<Wire>, input: seq<byte>, seed: nat) returns (frames: seq<Frame>)
    requires seed == AS_WRITTEN || seed == INTENDED
    requires AllWellFormed(ws) && AllAcceptable(ws, seed) && input == Stream(ws)
    ensures |frames| == |ws|
    ensures forall i | 0 <= i < |ws| :: frames[i] == Frame((ws[i].first % 16) as nat, ws[i].payload)
  {
    hide Bytes;
    var reader := new FrameReader(input);
    frames := [];
    while true
      invariant fresh(reader) && |frames| <= |ws| && reader.rest == Stream(ws[|frames|..])
      invariant forall i | 0 <= i < |frames| :: frames[i] == Frame((ws[i].first % 16) as nat, ws[i].payload)
      decreases |ws| - |frames|
    {
      ghost var before := reader.rest;
      var r, w := reader.ReadFrame(seed);
      assert |frames| < |ws| ==> before == Bytes(ws[|frames|]) + Stream(ws[|frames| + 1..]);
      if r.Err? { return; }
      NoFrameInNothing(w, reader.rest);
      SelfDelimiting(w, ws[|frames|], reader.rest, Stream(ws[|frames| + 1..]));
      frames := frames + [r.value];
    }
  }

  lemma NoFrameInNothing(w: Wire, tail: seq<byte>)
    requires WellFormed(w)
    ensures Bytes(w) + tail != []
  {
    assert (Bytes(w) + tail)[0] == w.first;
  }

  /** What the writer sends for any payload comes back exactly up to 65535 bytes as written, and with the
      intended accumulator whenever the covered part fits 4 MiB; it comes back whole below 2^32 bytes. */
  method RoundTrip(opcode: byte, payload: seq<byte>, rest: seq<byte>, seed: nat) returns (r: Result<Frame>)
    requires seed == AS_WRITTEN || seed == INTENDED
    ensures r.Ok? <==> if seed == AS_WRITTEN then |payload| <= 65535 else Covered(|payload|) <= 4194304
    ensures r.Ok? ==> r.value == Frame((opcode % 16) as nat, payload[..Covered(|payload|)])
    ensures r.Ok? && |payload| < TWO_32 ==> r.value.payload == payload
  {
    hide Bytes;
    var sent := WriteFrame(opcode, payload);
    ghost var tail := payload[Covered(|payload|)..] + rest;
    var reader := new FrameReader(sent + rest);
    assert sent + rest == Bytes(Written(opcode, payload)) + tail;
    ghost var w;
    r, w := reader.ReadFrame(seed);
    if r.Ok? { SelfDelimiting(w, Written(opcode, payload), reader.rest, tail); }
  }

  // ---------- Bits and published examples ----------

  function Bit(n: nat, k: nat): bool {
    if k == 0 then n % 2 == 1 else Bit(n / 2, k - 1)
  }

  /** A bit of the result is set exactly when one of the two is. */
  lemma {:induction false} XorBit(a: nat, b: nat, n: nat, k: nat)
    requires k < n
    ensures Bit(XorBits(a, b, n), k) <==> Bit(a, k) != Bit(b, k)
    decreases k
  {
    var low := (a % 2 + b % 2) % 2;
    assert XorBits(a, b, n) == 2 * XorBits(a / 2, b / 2, n - 1) + low;
    if k > 0 { XorBit(a / 2, b / 2, n - 1, k - 1); }
  }

  /** Masking, RFC 6455, section 5.3: bit by bit, byte i of the payload against byte i mod 4 of the mask. */
  lemma MaskedBit(payload: seq<byte>, mask: seq<byte>, i: nat, k: nat)
    requires |mask| == 4 && i < |payload| && k < 8
    ensures Bit(Masked(payload, mask)[i] as nat, k) <==> Bit(payload[i] as nat, k) != Bit(mask[i % 4] as nat, k)
  {
    EightBits();
    XorBit(payload[i] as nat, mask[i % 4] as nat, 8, k);
  }

  const HELLO: seq<byte> := [0x48, 0x65, 0x6c, 0x6c, 0x6f]

  /** The short examples of RFC 6455, section 5.7, with the masked bytes left to `MaskedBit`. */
  lemma ShortExamples()
    ensures Bytes(Wire(0x81, Short, None, HELLO)) == [0x81, 0x05, 0x48, 0x65, 0x6c, 0x6c, 0x6f]
    ensures var mask: seq<byte> := [0x37, 0xfa, 0x21, 0x3d];
            Bytes(Wire(0x81, Short, Some(mask), HELLO)) == [0x81, 0x85] + mask + Masked(HELLO, mask)
  {
    hide Masked;
  }

  /** The long examples: 256 bytes and 64 KiB in a single unmasked frame. */
  lemma LongExamples(payload: seq<byte>)
    ensures |payload| == 256 ==> Bytes(Wire(0x82, Medium, None, payload)) == [0x82, 0x7e, 0x01, 0x00] + payload
    ensures |payload| == 65536 ==>
              Bytes(Wire(0x82, Long, None, payload)) == [0x82, 0x7f, 0, 0, 0, 0, 0, 1, 0, 0] + payload
  {
    assert ToBytes(256, 2) == [1, 0];
    LongLength(65536);
    hide ToBytes;
  }
}
