/** Cast v2 frames: a four-byte length and a body of protobuf fields. */
module Cast {
  import opened Varints

  const MAX_PAYLOAD_SIZE := 65536
  const PAYLOAD_TYPE_STRING := 0

  /** A signed 64-bit integer. */
  type Int = i: int | -0x8000_0000_0000_0000 <= i < 0x8000_0000_0000_0000

  /** Strings are their bytes; an absent and an empty binary payload are the same. */
  datatype CastMessage = CastMessage(
    protocolVersion: Int, sourceId: seq<Byte>, destinationId: seq<Byte>, namespace_: seq<Byte>,
    payloadType: Int, payloadUtf8: seq<Byte>, payloadBinary: seq<Byte>)

  const NO_MESSAGE := CastMessage(0, [], [], [], 0, [], [])

  datatype Error = PayloadTooLarge | CorruptFrame | TruncatedFrame | EndOfInput | UnexpectedEnd

  datatype Result<+T> = Ok(value: T) | Err(error: Error)

  function AsWord(i: Int): Word {
    if i < 0 then i + 0x1_0000_0000_0000_0000 else i
  }

  function AsInt(w: Word): Int {
    if w >= 0x8000_0000_0000_0000 then w - 0x1_0000_0000_0000_0000 else w
  }

  // ----- fields

  /** A field on the wire: wire types 0, 2, and 1 or 5. */
  datatype Field =
    | Number(num: nat, value: Word)
    | Chunk(num: nat, bytes: seq<Byte>)
    | Fixed(num: nat, bytes: seq<Byte>)

  function Tag(f: Field): nat {
    8 * f.num + match f case Number(_, _) => 0 case Chunk(_, _) => 2 case Fixed(_, bytes) => if |bytes| == 8 then 1 else 5
  }

  function Payload(f: Field): seq<Byte> {
    match f
    case Number(_, v) => Varint(v)
    case Chunk(_, bytes) => Varint(|bytes|) + bytes
    case Fixed(_, bytes) => bytes
  }

  function Written(f: Field): (r: seq<Byte>)
    ensures r != []
  {
    Varint(Tag(f)) + Payload(f)
  }

  /** A field that can be written: its tag and its length are words. */
  predicate Writable(f: Field) {
    && f.num < 0x2000_0000_0000_0000
    && (f.Chunk? ==> |f.bytes| < 0x1_0000_0000_0000_0000)
    && (f.Fixed? ==> |f.bytes| == 4 || |f.bytes| == 8)
  }

  /** The payload of a field with the given tag, at the front of b, and how many bytes it takes. */
  function ReadPayload(b: seq<Byte>, num: nat, wireType: nat): (r: Result<(Field, nat)>)
    ensures r.Ok? ==> r.value.1 <= |b|
  {
    match wireType
    case 0 => (match ReadVarint(b) case Malformed => Err(CorruptFrame) case Read(v, n) => Ok((Number(num, v), n)))
    case 1 => if 8 > |b| then Err(TruncatedFrame) else Ok((Fixed(num, b[..8]), 8))
    case 2 =>
      (match ReadVarint(b)
       case Malformed => Err(CorruptFrame)
       case Read(len, n) =>
         if len > |b| - n then Err(TruncatedFrame) else Ok((Chunk(num, b[n..n + len]), n + len)))
    case 5 => if 4 > |b| then Err(TruncatedFrame) else Ok((Fixed(num, b[..4]), 4))
    case _ => Err(CorruptFrame)
  }

  function ReadField(b: seq<Byte>): (r: Result<(Field, nat)>)
    ensures r.Ok? ==> 0 < r.value.1 <= |b|
  {
    match ReadVarint(b)
    case Malformed => Err(CorruptFrame)
    case Read(tag, n) =>
      match ReadPayload(b[n..], tag / 8, tag % 8)
      case Err(e) => Err(e)
      case Ok((f, k)) => Ok((f, n + k))
  }

  /** The fields the decoder stores; every other field is skipped. */
  predicate Stored(f: Field) {
    match f
    case Number(num, _) => num == 1 || num == 5
    case Chunk(num, _) => num == 2 || num == 3 || num == 4 || num == 6 || num == 7
    case Fixed(_, _) => false
  }

  function Assign(m: CastMessage, f: Field): CastMessage {
    match f
    case Number(num, v) =>
      if num == 1 then m.(protocolVersion := AsInt(v)) else if num == 5 then m.(payloadType := AsInt(v)) else m
    case Chunk(num, bytes) =>
      if num == 2 then m.(sourceId := bytes)
      else if num == 3 then m.(destinationId := bytes)
      else if num == 4 then m.(namespace_ := bytes)
      else if num == 6 then m.(payloadUtf8 := bytes)
      else if num == 7 then m.(payloadBinary := bytes)
      else m
    case Fixed(_, _) => m
  }

  /** The message after all the fields of b have been stored in m. */
  function ReadFields(b: seq<Byte>, m: CastMessage): Result<CastMessage>
    decreases |b|
  {
    if b == [] then Ok(m)
    else
      match ReadField(b)
      case Err(e) => Err(e)
      case Ok((f, n)) => ReadFields(b[n..], Assign(m, f))
  }

  // ----- frames

  function When(wanted: bool, f: Field): seq<Field> {
    if wanted then [f] else []
  }

  function RoutingFields(m: CastMessage): seq<Field> {
    [Number(1, AsWord(m.protocolVersion))]
    + When(m.sourceId != [], Chunk(2, m.sourceId))
    + When(m.destinationId != [], Chunk(3, m.destinationId))
    + When(m.namespace_ != [], Chunk(4, m.namespace_))
  }

  /** The fields of a message, in the order they are written. */
  function FieldsOf(m: CastMessage): seq<Field> {
    RoutingFields(m)
    + [Number(5, AsWord(m.payloadType))]
    + When(m.payloadUtf8 != [] || m.payloadType == PAYLOAD_TYPE_STRING, Chunk(6, m.payloadUtf8))
    + When(m.payloadBinary != [], Chunk(7, m.payloadBinary))
  }

  function WrittenAll(fs: seq<Field>): seq<Byte> {
    if fs == [] then [] else WrittenAll(fs[..|fs| - 1]) + Written(fs[|fs| - 1])
  }

  function Body(m: CastMessage): seq<Byte> {
    WrittenAll(FieldsOf(m))
  }

  function BigEndian(n: nat): (r: seq<Byte>)
    requires n < 0x1_0000_0000
    ensures |r| == 4
  {
    [n / 256 / 256 / 256, n / 256 / 256 % 256, n / 256 % 256, n % 256]
  }

  function FromBigEndian(b: seq<Byte>): (n: nat)
    requires |b| == 4
  {
    (((b[0] as int) * 256 + b[1]) * 256 + b[2]) * 256 + b[3]
  }

  function Frame(body: seq<Byte>): seq<Byte>
    requires |body| <= MAX_PAYLOAD_SIZE
  {
    BigEndian(|body|) + body
  }

  /** What one decoding returns and what it leaves unread. */
  datatype Decoded = Decoded(outcome: Result<CastMessage>, unread: seq<Byte>)

  /** The error of a reader that has too few bytes left: the end of the input only if there are none. */
  function EndError(available: nat): Error {
    if available == 0 then EndOfInput else UnexpectedEnd
  }

  function DecodeFrame(input: seq<Byte>): Decoded {
    if |input| < 4 then Decoded(Err(EndError(|input|)), [])
    else
      var n := FromBigEndian(input[..4]);
      if n > MAX_PAYLOAD_SIZE then Decoded(Err(PayloadTooLarge), input[4..])
      else if |input| - 4 < n then Decoded(Err(EndError(|input| - 4)), [])
      else Decoded(ReadFields(input[4..4 + n], NO_MESSAGE), input[4 + n..])
  }

  // ----- encoding

  method AppendVarintField(dst: seq<Byte>, fieldNum: nat, val: Word, scratch: array<Byte>) returns (r: seq<Byte>)
    requires fieldNum < 0x2000_0000_0000_0000 && scratch.Length == MAX_VARINT_LEN
    modifies scratch
    ensures r == dst + Written(Number(fieldNum, val))
  {
    hide Varint;
    var n := PutUvarint(scratch, fieldNum * 8);
    r := dst + scratch[..n];
    n := PutUvarint(scratch, val);
    r := r + scratch[..n];
  }

  method AppendLengthDelimited(dst: seq<Byte>, fieldNum: nat, data: seq<Byte>, scratch: array<Byte>) returns (r: seq<Byte>)
    requires fieldNum < 0x2000_0000_0000_0000 && |data| < 0x1_0000_0000_0000_0000 && scratch.Length == MAX_VARINT_LEN
    modifies scratch
    ensures r == dst + Written(Chunk(fieldNum, data))
  {
    hide Varint;
    var n := PutUvarint(scratch, fieldNum * 8 + 2);
    r := dst + scratch[..n];
    n := PutUvarint(scratch, |data|);
    r := r + scratch[..n];
    r := r + data;
    Regroup(dst, Varint(fieldNum * 8 + 2), Varint(|data|), data);
  }

  lemma Regroup(a: seq<Byte>, b: seq<Byte>, c: seq<Byte>, d: seq<Byte>)
    ensures a + b + c + d == a + (b + (c + d))
  {}

  /** Go's lengths are non-negative 64-bit integers. */
  predicate InMemory(m: CastMessage) {
    && |m.sourceId| < 0x8000_0000_0000_0000 && |m.destinationId| < 0x8000_0000_0000_0000
    && |m.namespace_| < 0x8000_0000_0000_0000 && |m.payloadUtf8| < 0x8000_0000_0000_0000
    && |m.payloadBinary| < 0x8000_0000_0000_0000
  }

  lemma WrittenAppend(fs: seq<Field>, wanted: bool, f: Field)
    ensures WrittenAll(fs + [f]) == WrittenAll(fs) + Written(f)
    ensures WrittenAll(fs + When(wanted, f)) == WrittenAll(fs) + if wanted then Written(f) else []
  {
    hide Written;
    assert (fs + [f])[..|fs|] == fs;
    assert fs + [] == fs;
  }

  /** Fields 1 to 4 of the body. */
  method EncodeRouting(msg: CastMessage, scratch: array<Byte>) returns (body: seq<Byte>)
    requires InMemory(msg) && scratch.Length == MAX_VARINT_LEN
    modifies scratch
    ensures body == WrittenAll(RoutingFields(msg))
  {
    hide Written, WrittenAll, When;
    body := [];
    assert WrittenAll([]) == [] by { NothingWritten(); }
    body := AppendVarintField(body, 1, AsWord(msg.protocolVersion), scratch);
    WrittenAppend([], true, Number(1, AsWord(msg.protocolVersion)));
    ghost var fs := [Number(1, AsWord(msg.protocolVersion))];
    assert [] + fs == fs;
    if msg.sourceId != [] {
      body := AppendLengthDelimited(body, 2, msg.sourceId, scratch);
    }
    WrittenAppend(fs, msg.sourceId != [], Chunk(2, msg.sourceId));
    fs := fs + When(msg.sourceId != [], Chunk(2, msg.sourceId));
    assert body == WrittenAll(fs);
    if msg.destinationId != [] {
      body := AppendLengthDelimited(body, 3, msg.destinationId, scratch);
    }
    WrittenAppend(fs, msg.destinationId != [], Chunk(3, msg.destinationId));
    fs := fs + When(msg.destinationId != [], Chunk(3, msg.destinationId));
    assert body == WrittenAll(fs);
    if msg.namespace_ != [] {
      body := AppendLengthDelimited(body, 4, msg.namespace_, scratch);
    }
    WrittenAppend(fs, msg.namespace_ != [], Chunk(4, msg.namespace_));
  }

  method EncodeCastMessage(msg: CastMessage) returns (r: Result<seq<Byte>>)
    requires InMemory(msg)
    ensures r == if |Body(msg)| <= 65536 then Ok(Frame(Body(msg))) else Err(PayloadTooLarge)
    ensures r.Ok? ==> |r.value| >= 4 && IsBodyOf(r.value[4..], msg)
  {
    hide IsBodyOf, Written, WrittenAll, BigEndian, When, RoutingFields;
    var scratch := new Byte[10];
    var body := EncodeRouting(msg, scratch);
    ghost var fs := RoutingFields(msg);
    body := AppendVarintField(body, 5, AsWord(msg.payloadType), scratch);
    WrittenAppend(fs, true, Number(5, AsWord(msg.payloadType)));
    fs := fs + [Number(5, AsWord(msg.payloadType))];
    assert body == WrittenAll(fs);
    if msg.payloadUtf8 != [] || msg.payloadType == PAYLOAD_TYPE_STRING {
      body := AppendLengthDelimited(body, 6, msg.payloadUtf8, scratch);
    }
    WrittenAppend(fs, msg.payloadUtf8 != [] || msg.payloadType == PAYLOAD_TYPE_STRING, Chunk(6, msg.payloadUtf8));
    fs := fs + When(msg.payloadUtf8 != [] || msg.payloadType == PAYLOAD_TYPE_STRING, Chunk(6, msg.payloadUtf8));
    assert body == WrittenAll(fs);
    if |msg.payloadBinary| > 0 {
      body := AppendLengthDelimited(body, 7, msg.payloadBinary, scratch);
    }
    WrittenAppend(fs, msg.payloadBinary != [], Chunk(7, msg.payloadBinary));
    assert body == Body(msg);
    if |body| > MAX_PAYLOAD_SIZE {
      return Err(PayloadTooLarge);
    }
    BodyCarriesFields(msg);
    assert Frame(body)[4..] == body;
    return Ok(Frame(body));
  }

  lemma NothingWritten()
    ensures WrittenAll([]) == []
  {}

  // ----- decoding

  /** Reads the payload of one field at the offset and stores it. */
  method DecodeCastField(payloadBuf: seq<Byte>, offset: nat, fieldNum: nat, wireType: nat, msg: CastMessage)
    returns (r: Result<nat>, updated: CastMessage)
    requires offset <= |payloadBuf|
    ensures match ReadPayload(payloadBuf[offset..], fieldNum, wireType)
            case Err(e) => r == Err(e)
            case Ok((f, n)) => r == Ok(offset + n) && updated == Assign(msg, f)
  {
    updated := msg;
    match wireType
    case 0 =>
      var val, vn := Uvarint(payloadBuf[offset..]);
      if vn <= 0 {
        return Err(CorruptFrame), updated;
      }
      match fieldNum {
        case 1 => updated := updated.(protocolVersion := AsInt(val));
        case 5 => updated := updated.(payloadType := AsInt(val));
        case _ =>
      }
      return Ok(offset + vn), updated;
    case 1 =>
      if offset + 8 > |payloadBuf| {
        return Err(TruncatedFrame), updated;
      }
      return Ok(offset + 8), updated;
    case 2 =>
      var fieldLen, ln := Uvarint(payloadBuf[offset..]);
      if ln <= 0 {
        return Err(CorruptFrame), updated;
      }
      var start := offset + ln;
      if fieldLen > |payloadBuf| - start {
        return Err(TruncatedFrame), updated;
      }
      var data := payloadBuf[start..start + fieldLen];
      assert data == payloadBuf[offset..][ln..ln + fieldLen];
      match fieldNum {
        case 2 => updated := updated.(sourceId := data);
        case 3 => updated := updated.(destinationId := data);
        case 4 => updated := updated.(namespace_ := data);
        case 6 => updated := updated.(payloadUtf8 := data);
        case 7 => updated := updated.(payloadBinary := data);
        case _ =>
      }
      return Ok(start + fieldLen), updated;
    case 5 =>
      if offset + 4 > |payloadBuf| {
        return Err(TruncatedFrame), updated;
      }
      return Ok(offset + 4), updated;
    case _ =>
      return Err(CorruptFrame), updated;
  }

  /** The stream a frame is read from. */
  class Reader {
    var unread: seq<Byte>

    constructor (bytes: seq<Byte>)
      ensures unread == bytes
    {
      unread := bytes;
    }

    /** Fills a buffer of n bytes, or takes what there is and reports the end. */
    method ReadFull(n: nat) returns (r: Result<seq<Byte>>)
      modifies this
      ensures |old(unread)| >= n ==> r == Ok(old(unread)[..n]) && unread == old(unread)[n..]
      ensures |old(unread)| < n ==> r == Err(EndError(|old(unread)|)) && unread == []
    {
      if |unread| >= n {
        r := Ok(unread[..n]);
        unread := unread[n..];
      } else {
        r := Err(EndError(|unread|));
        unread := [];
      }
    }
  }

  method DecodeCastMessage(r: Reader) returns (result: Result<CastMessage>)
    modifies r
    ensures Decoded(result, r.unread) == DecodeFrame(old(r.unread))
  {
    hide ReadFields, FromBigEndian, DecodeFrame;
    FrameCases(r.unread);
    var lenBuf := r.ReadFull(4);
    if lenBuf.Err? {
      return Err(lenBuf.error);
    }
    var payloadLen := FromBigEndian(lenBuf.value);
    if payloadLen > MAX_PAYLOAD_SIZE {
      return Err(PayloadTooLarge);
    }
    var payload := r.ReadFull(payloadLen);
    if payload.Err? {
      return Err(payload.error);
    }
    var payloadBuf := payload.value;
    SplitInput(old(r.unread), payloadLen);
    result := DecodeBody(payloadBuf);
  }

  lemma SplitInput(input: seq<Byte>, n: nat)
    requires 4 + n <= |input|
    ensures input[4..][..n] == input[4..4 + n] && input[4..][n..] == input[4 + n..]
  {}

  /** How decoding a frame goes, by what the input holds. */
  lemma FrameCases(input: seq<Byte>)
    ensures |input| < 4 ==> DecodeFrame(input) == Decoded(Err(EndError(|input|)), [])
    ensures |input| >= 4 ==>
              var n := FromBigEndian(input[..4]);
              if n > MAX_PAYLOAD_SIZE then DecodeFrame(input) == Decoded(Err(PayloadTooLarge), input[4..])
              else if |input| - 4 < n then DecodeFrame(input) == Decoded(Err(EndError(|input| - 4)), [])
              else DecodeFrame(input) == Decoded(ReadFields(input[4..4 + n], NO_MESSAGE), input[4 + n..])
  {
    hide ReadFields, FromBigEndian;
  }

  /** The loop over the fields: the offset grows with every field and stays inside the buffer. */
  method DecodeBody(payloadBuf: seq<Byte>) returns (result: Result<CastMessage>)
    ensures result == ReadFields(payloadBuf, NO_MESSAGE)
  {
    hide ReadPayload, ReadVarint, Assign;
    var msg, offset := NO_MESSAGE, 0;
    while offset < |payloadBuf|
      invariant 0 <= offset <= |payloadBuf|
      invariant ReadFields(payloadBuf, NO_MESSAGE) == ReadFields(payloadBuf[offset..], msg)
      decreases |payloadBuf| - offset
    {
      var tag, n := Uvarint(payloadBuf[offset..]);
      if n <= 0 {
        return Err(CorruptFrame);
      }
      var fieldNum, wireType := tag / 8, tag % 8;
      assert payloadBuf[offset..][n..] == payloadBuf[offset + n..];
      var next, updated := DecodeCastField(payloadBuf, offset + n, fieldNum, wireType, msg);
      if next.Err? {
        return Err(next.error);
      }
      assert payloadBuf[offset..][next.value - offset..] == payloadBuf[next.value..];
      offset, msg := next.value, updated;
    }
    return Ok(msg);
  }

  // ----- a field is read back, whatever follows

  lemma PayloadReadsBack(f: Field, rest: seq<Byte>)
    requires Writable(f)
    ensures ReadPayload(Payload(f) + rest, f.num, Tag(f) % 8) == Ok((f, |Payload(f)|))
  {
    hide Varint, ReadVarint;
    match f
    case Number(_, v) =>
      VarintReadsBack(v, rest);
    case Chunk(_, bytes) =>
      VarintReadsBack(|bytes|, bytes + rest);
      assert Payload(f) + rest == Varint(|bytes|) + (bytes + rest);
      var n := |Varint(|bytes|)|;
      assert (Payload(f) + rest)[n..n + |bytes|] == bytes;
    case Fixed(_, bytes) =>
      assert (bytes + rest)[..|bytes|] == bytes;
  }

  lemma FieldReadsBack(f: Field, rest: seq<Byte>)
    requires Writable(f)
    ensures ReadField(Written(f) + rest) == Ok((f, |Written(f)|))
  {
    hide Varint, ReadVarint, ReadPayload, Payload;
    VarintReadsBack(Tag(f), Payload(f) + rest);
    assert Written(f) + rest == Varint(Tag(f)) + (Payload(f) + rest);
    assert (Written(f) + rest)[|Varint(Tag(f))|..] == Payload(f) + rest;
    PayloadReadsBack(f, rest);
  }

  function AssignAll(m: CastMessage, fs: seq<Field>): CastMessage {
    if fs == [] then m else Assign(AssignAll(m, fs[..|fs| - 1]), fs[|fs| - 1])
  }

  lemma {:induction false} FieldsReadBack(fs: seq<Field>, rest: seq<Byte>, m: CastMessage)
    requires forall i :: 0 <= i < |fs| ==> Writable(fs[i])
    ensures ReadFields(WrittenAll(fs) + rest, m) == ReadFields(rest, AssignAll(m, fs))
    decreases |fs|
  {
    hide Written, ReadField, Assign, Writable;
    if fs == [] {
      assert [] + rest == rest;
    } else {
      var before, f := fs[..|fs| - 1], fs[|fs| - 1];
      assert WrittenAll(fs) + rest == WrittenAll(before) + (Written(f) + rest);
      FieldsReadBack(before, Written(f) + rest, m);
      FieldReadsBack(f, rest);
      assert (Written(f) + rest)[|Written(f)|..] == rest;
    }
  }

  lemma AssignAppend(m: CastMessage, fs: seq<Field>, wanted: bool, f: Field)
    ensures AssignAll(m, fs + [f]) == Assign(AssignAll(m, fs), f)
    ensures AssignAll(m, fs + When(wanted, f)) == if wanted then Assign(AssignAll(m, fs), f) else AssignAll(m, fs)
  {
    assert (fs + [f])[..|fs|] == fs;
    assert fs + [] == fs;
  }

  /** The written fields are enough to rebuild the message. */
  lemma FieldsDetermineMessage(m: CastMessage)
    ensures AssignAll(NO_MESSAGE, FieldsOf(m)) == m
  {
    hide AssignAll, When;
    var s0 := NO_MESSAGE;
    NothingAssigned(s0);
    var f1 := [Number(1, AsWord(m.protocolVersion))];
    AssignAppend(s0, [], true, Number(1, AsWord(m.protocolVersion)));
    assert [] + f1 == f1;
    AssignAppend(s0, f1, m.sourceId != [], Chunk(2, m.sourceId));
    var f2 := f1 + When(m.sourceId != [], Chunk(2, m.sourceId));
    AssignAppend(s0, f2, m.destinationId != [], Chunk(3, m.destinationId));
    var f3 := f2 + When(m.destinationId != [], Chunk(3, m.destinationId));
    AssignAppend(s0, f3, m.namespace_ != [], Chunk(4, m.namespace_));
    var f4 := f3 + When(m.namespace_ != [], Chunk(4, m.namespace_));
    AssignAppend(s0, f4, true, Number(5, AsWord(m.payloadType)));
    var f5 := f4 + [Number(5, AsWord(m.payloadType))];
    AssignAppend(s0, f5, m.payloadUtf8 != [] || m.payloadType == PAYLOAD_TYPE_STRING, Chunk(6, m.payloadUtf8));
    var f6 := f5 + When(m.payloadUtf8 != [] || m.payloadType == PAYLOAD_TYPE_STRING, Chunk(6, m.payloadUtf8));
    AssignAppend(s0, f6, m.payloadBinary != [], Chunk(7, m.payloadBinary));
  }

  lemma NothingAssigned(m: CastMessage)
    ensures AssignAll(m, []) == m
  {}

  // ----- whole frames

  lemma BigEndianReadsBack(n: nat)
    requires n < 0x1_0000_0000
    ensures FromBigEndian(BigEndian(n)) == n
  {
    var high := n / 256;
    var top := high / 256;
    assert n == high * 256 + n % 256;
    assert high == top * 256 + high % 256;
    assert top == top / 256 * 256 + top % 256;
  }

  /** A frame followed by anything is decoded to its body's message and leaves exactly what follows. */
  lemma FrameIsDecoded(body: seq<Byte>, rest: seq<Byte>)
    requires |body| <= MAX_PAYLOAD_SIZE
    ensures DecodeFrame(Frame(body) + rest) == Decoded(ReadFields(body, NO_MESSAGE), rest)
  {
    hide BigEndian, FromBigEndian, ReadFields, DecodeFrame;
    BigEndianReadsBack(|body|);
    var input := Frame(body) + rest;
    FrameCases(input);
    assert input[..4] == BigEndian(|body|);
    assert input[4..4 + |body|] == body && input[4 + |body|..] == rest;
  }

  lemma {:induction false} BodySizeBoundsFields(fs: seq<Field>, i: nat)
    requires i < |fs|
    ensures |Payload(fs[i])| <= |WrittenAll(fs)|
  {
    hide Varint, Payload, Tag;
    if i < |fs| - 1 {
      BodySizeBoundsFields(fs[..|fs| - 1], i);
    }
  }

  /** The fields of a message whose body fits a frame can all be written. */
  lemma FieldsAreWritable(m: CastMessage, i: nat)
    requires |Body(m)| <= MAX_PAYLOAD_SIZE && i < |FieldsOf(m)|
    ensures Writable(FieldsOf(m)[i])
  {
    hide WrittenAll, Varint, Payload, FieldsOf;
    BodySizeBoundsFields(FieldsOf(m), i);
    NumbersAreSmall(m, i);
    PayloadHoldsBytes(FieldsOf(m)[i]);
  }

  lemma PayloadHoldsBytes(f: Field)
    ensures f.Chunk? ==> |Payload(f)| >= |f.bytes|
  {}

  lemma NumbersAreSmall(m: CastMessage, i: nat)
    requires i < |FieldsOf(m)|
    ensures FieldsOf(m)[i].num <= 7 && !FieldsOf(m)[i].Fixed?
  {}

  /** Round trip: decoding a message's frame, whatever follows it, gives the message and leaves what follows. */
  lemma RoundTrip(m: CastMessage, rest: seq<Byte>)
    requires |Body(m)| <= MAX_PAYLOAD_SIZE
    ensures DecodeFrame(Frame(Body(m)) + rest) == Decoded(Ok(m), rest)
  {
    hide ReadFields, WrittenAll, FieldsOf, Writable, AssignAll, DecodeFrame, Frame;
    FrameIsDecoded(Body(m), rest);
    forall i | 0 <= i < |FieldsOf(m)| ensures Writable(FieldsOf(m)[i]) {
      FieldsAreWritable(m, i);
    }
    FieldsReadBack(FieldsOf(m), [], NO_MESSAGE);
    assert Body(m) + [] == Body(m);
    FieldsDetermineMessage(m);
    EmptyBody(m);
  }

  lemma EmptyBody(m: CastMessage)
    ensures ReadFields([], m) == Ok(m)
  {}

  // ----- which fields a frame carries

  /** The fields of a body, in order. */
  function FieldList(b: seq<Byte>): Result<seq<Field>>
    decreases |b|
  {
    if b == [] then Ok([])
    else
      match ReadField(b)
      case Err(e) => Err(e)
      case Ok((f, n)) => match FieldList(b[n..]) case Err(e) => Err(e) case Ok(fs) => Ok([f] + fs)
  }

  lemma {:induction false} FieldListReadsBack(fs: seq<Field>, rest: seq<Byte>)
    requires forall i :: 0 <= i < |fs| ==> Writable(fs[i])
    ensures FieldList(WrittenAll(fs) + rest) == match FieldList(rest) case Err(e) => Err(e) case Ok(gs) => Ok(fs + gs)
    decreases |fs|
  {
    hide Written, ReadField, Writable, FieldList, WrittenAll;
    if fs == [] {
      NothingWritten();
      assert [] + rest == rest;
      assert FieldList(rest).Ok? ==> [] + FieldList(rest).value == FieldList(rest).value;
    } else {
      var before, f := fs[..|fs| - 1], fs[|fs| - 1];
      WrittenAppend(before, true, f);
      assert fs == before + [f];
      assert WrittenAll(before) + Written(f) + rest == WrittenAll(before) + (Written(f) + rest);
      FieldListReadsBack(before, Written(f) + rest);
      FieldReadsBack(f, rest);
      FieldListStep(f, rest);
      if FieldList(rest).Ok? {
        assert before + ([f] + FieldList(rest).value) == fs + FieldList(rest).value;
      }
    }
  }

  lemma FieldListStep(f: Field, rest: seq<Byte>)
    requires ReadField(Written(f) + rest) == Ok((f, |Written(f)|))
    ensures FieldList(Written(f) + rest) == match FieldList(rest) case Err(e) => Err(e) case Ok(gs) => Ok([f] + gs)
  {
    hide ReadField, Written;
    assert (Written(f) + rest)[|Written(f)|..] == rest;
  }

  const TWO_TO_64 := 0x1_0000_0000_0000_0000

  /** The version and the payload type are always there, strings only if they are not empty, and the text also if the
      payload is declared to be text. */
  predicate Carries(m: CastMessage, f: Field) {
    || f == Number(1, m.protocolVersion % TWO_TO_64)
    || (f == Chunk(2, m.sourceId) && |m.sourceId| > 0)
    || (f == Chunk(3, m.destinationId) && |m.destinationId| > 0)
    || (f == Chunk(4, m.namespace_) && |m.namespace_| > 0)
    || f == Number(5, m.payloadType % TWO_TO_64)
    || (f == Chunk(6, m.payloadUtf8) && (|m.payloadUtf8| > 0 || m.payloadType == 0))
    || (f == Chunk(7, m.payloadBinary) && |m.payloadBinary| > 0)
  }

  /** The body holds the fields the message calls for, no others, by increasing number. */
  ghost predicate IsBodyOf(b: seq<Byte>, m: CastMessage) {
    && FieldList(b).Ok?
    && (forall f :: f in FieldList(b).value <==> Carries(m, f))
    && (forall i, j :: 0 <= i < j < |FieldList(b).value| ==> FieldList(b).value[i].num < FieldList(b).value[j].num)
  }

  lemma BodyCarriesFields(m: CastMessage)
    requires |Body(m)| <= MAX_PAYLOAD_SIZE
    ensures IsBodyOf(Body(m), m)
  {
    hide WrittenAll, Writable, FieldsOf;
    forall i | 0 <= i < |FieldsOf(m)| ensures Writable(FieldsOf(m)[i]) {
      FieldsAreWritable(m, i);
    }
    FieldListReadsBack(FieldsOf(m), []);
    assert Body(m) + [] == Body(m) && FieldsOf(m) + [] == FieldsOf(m);
    NoFields();
    forall f ensures f in FieldsOf(m) <==> Carries(m, f) {
      FieldIsCarried(m, f);
    }
    FieldsIncrease(m);
  }

  lemma NoFields()
    ensures FieldList([]) == Ok([])
  {}

  lemma FieldIsCarried(m: CastMessage, f: Field)
    ensures f in FieldsOf(m) <==> Carries(m, f)
  {
    WordOf(m.protocolVersion);
    WordOf(m.payloadType);
  }

  lemma WordOf(i: Int)
    ensures AsWord(i) == i % TWO_TO_64
  {}

  lemma FieldsIncrease(m: CastMessage)
    ensures forall i, j :: 0 <= i < j < |FieldsOf(m)| ==> FieldsOf(m)[i].num < FieldsOf(m)[j].num
  {
    var a, b := RoutingFields(m), [Number(5, AsWord(m.payloadType))];
    RoutingIncreases(m);
    var c := When(m.payloadUtf8 != [] || m.payloadType == PAYLOAD_TYPE_STRING, Chunk(6, m.payloadUtf8));
    var d := When(m.payloadBinary != [], Chunk(7, m.payloadBinary));
    assert FieldsOf(m) == a + b + c + d;
  }

  lemma RoutingIncreases(m: CastMessage)
    ensures forall i, j :: 0 <= i < j < |RoutingFields(m)| ==> RoutingFields(m)[i].num < RoutingFields(m)[j].num
    ensures forall i :: 0 <= i < |RoutingFields(m)| ==> RoutingFields(m)[i].num < 5
  {}

  /** A message on the wire, byte by byte. */
  const SAMPLE := CastMessage(300, [115], [100], [], 0, [], [])
  const SAMPLE_FRAME: seq<Byte> := [0, 0, 0, 13, 0x08, 0xAC, 0x02, 0x12, 1, 115, 0x1A, 1, 100, 0x28, 0, 0x32, 0]

  lemma SampleFields()
    ensures FieldsOf(SAMPLE) == [Number(1, 300), Chunk(2, [115]), Chunk(3, [100]), Number(5, 0), Chunk(6, [])]
  {}

  lemma SampleBytes()
    ensures Written(Number(1, 300)) == [0x08, 0xAC, 0x02] && Written(Chunk(2, [115])) == [0x12, 1, 115]
    ensures Written(Chunk(3, [100])) == [0x1A, 1, 100] && Written(Number(5, 0)) == [0x28, 0] && Written(Chunk(6, [])) == [0x32, 0]
  {
    assert Varint(300) == [0xAC, 0x02] && Varint(0) == [0] && Varint(1) == [1];
    assert Varint(8) == [8] && Varint(0x12) == [0x12] && Varint(0x1A) == [0x1A] && Varint(0x28) == [0x28] && Varint(0x32) == [0x32];
  }

  lemma SampleBody()
    ensures Body(SAMPLE) == SAMPLE_FRAME[4..]
  {
    hide Written, WrittenAll;
    SampleFields();
    SampleBytes();
    var f1, f2, f3, f4, f5 := Number(1, 300), Chunk(2, [115]), Chunk(3, [100]), Number(5, 0), Chunk(6, []);
    NothingWritten();
    WrittenAppend([], true, f1);
    WrittenAppend([f1], true, f2);
    WrittenAppend([f1, f2], true, f3);
    WrittenAppend([f1, f2, f3], true, f4);
    WrittenAppend([f1, f2, f3, f4], true, f5);
    assert [] + [f1] == [f1] && [f1] + [f2] == [f1, f2] && [f1, f2] + [f3] == [f1, f2, f3];
    assert [f1, f2, f3] + [f4] == [f1, f2, f3, f4] && [f1, f2, f3, f4] + [f5] == [f1, f2, f3, f4, f5];
  }

  method SampleIsEncoded() returns (r: Result<seq<Byte>>)
    ensures r == Ok(SAMPLE_FRAME)
  {
    hide Body, IsBodyOf, Frame;
    SampleBody();
    SampleIsFramed();
    r := EncodeCastMessage(SAMPLE);
  }

  lemma SampleIsFramed()
    ensures Frame(SAMPLE_FRAME[4..]) == SAMPLE_FRAME
  {}

  /** The frames of several messages, back to back. */
  function Stream(ms: seq<CastMessage>): seq<Byte>
    requires forall i :: 0 <= i < |ms| ==> |Body(ms[i])| <= MAX_PAYLOAD_SIZE
  {
    if ms == [] then [] else Frame(Body(ms[0])) + Stream(ms[1..])
  }

  /** Decodes messages until one fails; the result holds the messages and the failure. */
  function DecodeStream(input: seq<Byte>): (seq<CastMessage>, Error)
    decreases |input|
  {
    var d := DecodeFrame(input);
    match d.outcome
    case Err(e) => ([], e)
    case Ok(m) =>
      var (ms, e) := DecodeStream(d.unread);
      ([m] + ms, e)
  }

  /** A stream of frames is decoded to the same messages, and then the end of the input is reported. */
  lemma {:induction false} StreamRoundTrip(ms: seq<CastMessage>)
    requires forall i :: 0 <= i < |ms| ==> |Body(ms[i])| <= MAX_PAYLOAD_SIZE
    ensures DecodeStream(Stream(ms)) == (ms, EndOfInput)
    decreases |ms|
  {
    hide DecodeFrame, Frame, Body;
    if ms == [] {
      NothingToDecode();
    } else {
      RoundTrip(ms[0], Stream(ms[1..]));
      StreamRoundTrip(ms[1..]);
      assert [ms[0]] + ms[1..] == ms;
    }
  }

  lemma NothingToDecode()
    ensures DecodeFrame([]) == Decoded(Err(EndOfInput), [])
  {}

  /** A frame cut short is never taken for a message. */
  lemma CutFrameIsRefused(m: CastMessage, k: nat)
    requires |Body(m)| <= MAX_PAYLOAD_SIZE && k < |Frame(Body(m))|
    ensures DecodeFrame(Frame(Body(m))[..k]) ==
              Decoded(Err(if k == 0 || k == 4 then EndOfInput else UnexpectedEnd), [])
  {
    hide BigEndian, FromBigEndian, Body, ReadFields;
    BigEndianReadsBack(|Body(m)|);
    if k >= 4 {
      assert Frame(Body(m))[..k][..4] == BigEndian(|Body(m)|);
    }
  }

  // ----- fields in sequence

  lemma PayloadIsPrefix(a: seq<Byte>, b: seq<Byte>, num: nat, wireType: nat)
    requires ReadPayload(a, num, wireType).Ok?
    ensures ReadPayload(a + b, num, wireType) == ReadPayload(a, num, wireType)
  {
    hide ReadVarint;
    match wireType
    case 0 => ReadsPrefix(a, b);
    case 1 => assert (a + b)[..8] == a[..8];
    case 2 =>
      ReadsPrefix(a, b);
      var n, len := ReadVarint(a).length, ReadVarint(a).value;
      assert (a + b)[n..n + len] == a[n..n + len];
    case 5 => assert (a + b)[..4] == a[..4];
    case _ =>
  }

  lemma FieldIsPrefix(a: seq<Byte>, b: seq<Byte>)
    requires ReadField(a).Ok?
    ensures ReadField(a + b) == ReadField(a)
  {
    hide ReadVarint, ReadPayload;
    ReadsPrefix(a, b);
    var r := ReadVarint(a);
    assert (a + b)[r.length..] == a[r.length..] + b;
    PayloadIsPrefix(a[r.length..], b, r.value / 8, r.value % 8);
  }

  /** Decoding goes field by field: a decodable part can be decoded first, and the rest after it. */
  lemma {:induction false} DecodingComposes(a: seq<Byte>, b: seq<Byte>, m: CastMessage)
    requires ReadFields(a, m).Ok?
    ensures ReadFields(a + b, m) == ReadFields(b, ReadFields(a, m).value)
    decreases |a|
  {
    hide ReadField, Assign;
    if a == [] {
      assert [] + b == b;
    } else {
      var (f, n) := ReadField(a).value;
      FieldIsPrefix(a, b);
      assert (a + b)[n..] == a[n..] + b;
      DecodingComposes(a[n..], b, Assign(m, f));
    }
  }

  /** Whether a body can be decoded does not depend on what was stored before. */
  lemma {:induction false} DecodabilityIsShared(a: seq<Byte>, m: CastMessage, m': CastMessage)
    ensures ReadFields(a, m).Ok? == ReadFields(a, m').Ok?
    ensures ReadFields(a, m).Err? ==> ReadFields(a, m) == ReadFields(a, m')
    decreases |a|
  {
    hide ReadField, Assign;
    if a != [] && ReadField(a).Ok? {
      var (f, n) := ReadField(a).value;
      DecodabilityIsShared(a[n..], Assign(m, f), Assign(m', f));
    }
  }

  /** Where a field is cut decides the error: in a number it is corrupt, in the bytes of a chunk or of a fixed-size
      field it is truncated. */
  lemma CutFieldIsReported(f: Field, k: nat)
    requires Writable(f) && k < |Written(f)|
    ensures ReadField(Written(f)[..k]) ==
              Err(if k < |Varint(Tag(f))| || f.Number? || (f.Chunk? && k < |Varint(Tag(f))| + |Varint(|f.bytes|)|) then CorruptFrame
                  else TruncatedFrame)
  {
    hide Varint, ReadVarint, Payload;
    var n := |Varint(Tag(f))|;
    if k < n {
      assert Written(f)[..k] == Varint(Tag(f))[..k];
      CutVarint(Tag(f), k);
    } else {
      var part := Payload(f)[..k - n];
      assert Written(f)[..k] == Varint(Tag(f)) + part;
      VarintReadsBack(Tag(f), part);
      assert (Varint(Tag(f)) + part)[n..] == part;
      CutPayload(f, k - n);
    }
  }

  lemma CutPayload(f: Field, k: nat)
    requires Writable(f) && k < |Payload(f)|
    ensures ReadPayload(Payload(f)[..k], f.num, Tag(f) % 8) ==
              Err(if f.Number? || (f.Chunk? && k < |Varint(|f.bytes|)|) then CorruptFrame else TruncatedFrame)
  {
    hide Varint, ReadVarint;
    match f
    case Number(_, v) => CutVarint(v, k);
    case Chunk(_, bytes) =>
      var n := |Varint(|bytes|)|;
      if k < n {
        assert Payload(f)[..k] == Varint(|bytes|)[..k];
        CutVarint(|bytes|, k);
      } else {
        assert Payload(f)[..k] == Varint(|bytes|) + bytes[..k - n];
        VarintReadsBack(|bytes|, bytes[..k - n]);
      }
    case Fixed(_, bytes) =>
  }

  /** Groups and wire types that do not exist are corrupt. */
  lemma OddWireTypeIsCorrupt(num: nat, wireType: nat, rest: seq<Byte>)
    requires num < 0x2000_0000_0000_0000 && (wireType == 3 || wireType == 4 || wireType == 6 || wireType == 7)
    ensures ReadField(Varint(8 * num + wireType) + rest) == Err(CorruptFrame)
  {
    hide Varint, ReadVarint;
    VarintReadsBack(8 * num + wireType, rest);
  }

  /** Well-formed fields, none of which the decoder stores. */
  predicate Skippable(u: seq<Byte>)
    decreases |u|
  {
    u == [] || match ReadField(u) case Err(_) => false case Ok((f, n)) => !Stored(f) && Skippable(u[n..])
  }

  lemma {:induction false} SkippableChangesNothing(u: seq<Byte>, m: CastMessage)
    requires Skippable(u)
    ensures ReadFields(u, m) == Ok(m)
    decreases |u|
  {
    hide ReadField;
    if u != [] {
      var (f, n) := ReadField(u).value;
      assert Assign(m, f) == m;
      SkippableChangesNothing(u[n..], m);
    }
  }

  /** Every field with a number outside 1 to 7, and every fixed-size field, is skippable. */
  lemma UnknownFieldIsSkippable(f: Field, u: seq<Byte>)
    requires Writable(f) && !Stored(f) && Skippable(u)
    ensures Skippable(Written(f) + u)
    ensures f.num < 1 || f.num > 7 ==> !Stored(f)
  {
    hide ReadField, Written;
    FieldReadsBack(f, u);
    assert (Written(f) + u)[|Written(f)|..] == u;
  }

  /** Fields the decoder does not know may stand between any two fields without being noticed. */
  lemma UnknownFieldsAreIgnored(a: seq<Byte>, u: seq<Byte>, b: seq<Byte>, rest: seq<Byte>)
    requires ReadFields(a, NO_MESSAGE).Ok? && Skippable(u)
    requires |a + u + b| <= MAX_PAYLOAD_SIZE
    ensures DecodeFrame(Frame(a + u + b) + rest) == DecodeFrame(Frame(a + b) + rest)
  {
    hide ReadFields, Skippable, DecodeFrame, Frame;
    FrameIsDecoded(a + u + b, rest);
    FrameIsDecoded(a + b, rest);
    var m := ReadFields(a, NO_MESSAGE).value;
    SkippableChangesNothing(u, m);
    assert a + u + b == a + (u + b);
    DecodingComposes(a, u + b, NO_MESSAGE);
    DecodingComposes(u, b, m);
    DecodingComposes(a, b, NO_MESSAGE);
  }
}
