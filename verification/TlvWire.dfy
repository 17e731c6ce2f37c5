/** The type-length-value wire format of src/protocol/TlvMessage.cpp: what a message is,
    how it is laid out in bytes, and what a parser may recover. */
module TlvWire {
  import opened Outcomes

  type Byte = b: int | 0 <= b < 0x100
  type Word16 = w: int | 0 <= w < 0x1_0000
  type Word32 = w: int | 0 <= w < 0x1_0000_0000

  // ---------- network byte order ----------

  function Put16(w: Word16): (s: seq<Byte>)
    ensures |s| == 2
  {
    var high: int, low: int := w / 0x100, w % 0x100;
    [high, low]
  }

  function Put32(w: Word32): (s: seq<Byte>)
    ensures |s| == 4
  {
    var high: int, low: int := w / 0x1_0000, w % 0x1_0000;
    Put16(high) + Put16(low)
  }

  function Get16(s: seq<Byte>, at: nat): Word16
    requires at + 2 <= |s|
  {
    var high: int, low: int := s[at], s[at + 1];
    high * 0x100 + low
  }

  function Get32(s: seq<Byte>, at: nat): Word32
    requires at + 4 <= |s|
  {
    var high: int, low: int := Get16(s, at), Get16(s, at + 2);
    high * 0x1_0000 + low
  }

  lemma GetPut16(s: seq<Byte>, at: nat, w: Word16)
    requires at + 2 <= |s|
    ensures s[at..at + 2] == Put16(w) <==> Get16(s, at) == w
  {
    assert s[at..at + 2] == [s[at], s[at + 1]];
  }

  lemma GetPut32(s: seq<Byte>, at: nat, w: Word32)
    requires at + 4 <= |s|
    ensures s[at..at + 4] == Put32(w) <==> Get32(s, at) == w
  {
    var high: int, low: int := w / 0x1_0000, w % 0x1_0000;
    GetPut16(s, at, high);
    GetPut16(s, at + 2, low);
    assert s[at..at + 4] == s[at..at + 2] + s[at + 2..at + 2 + 2];
    assert Put32(w)[..2] == Put16(high) && Put32(w)[2..] == Put16(low);
  }

  // ---------- layout ----------

  datatype Tlv = Tlv(kind: Word16, value: seq<Byte>)

  datatype Message = Message(kind: Word16, tlvs: seq<Tlv>, payload: seq<Byte>)

  predicate TlvsFit(ts: seq<Tlv>) {
    forall i :: 0 <= i < |ts| ==> |ts[i].value| < 0x1_0000
  }

  /** Every count and length fits the field that carries it. */
  predicate Fits(m: Message) {
    TlvsFit(m.tlvs) && |m.tlvs| < 0x1_0000 && |m.payload| < 0x1_0000_0000
  }

  function EncodeTlv(t: Tlv): (s: seq<Byte>)
    requires |t.value| < 0x1_0000
    ensures |s| == 4 + |t.value|
  {
    Put16(t.kind) + Put16(|t.value|) + t.value
  }

  function EncodeTlvs(ts: seq<Tlv>): seq<Byte>
    requires TlvsFit(ts)
  {
    if ts == [] then [] else EncodeTlv(ts[0]) + EncodeTlvs(ts[1..])
  }

  function Header(kind: Word16, count: Word16, payloadLen: Word32): (s: seq<Byte>)
    ensures |s| == 8
  {
    Put16(kind) + Put16(count) + Put32(payloadLen)
  }

  function Encode(m: Message): seq<Byte>
    requires Fits(m)
  {
    Header(m.kind, |m.tlvs|, |m.payload|) + EncodeTlvs(m.tlvs) + m.payload
  }

  // ---------- reading ----------

  /** The position behind k fields starting at the cursor, if they fit the buffer. */
  function SkipTlvs(data: seq<Byte>, cursor: nat, k: nat): Option<nat>
    decreases k
  {
    if k == 0 then Some(cursor)
    else if cursor + 4 > |data| then None
    else
      var next := cursor + 4 + Get16(data, cursor + 2);
      if next > |data| then None else SkipTlvs(data, next, k - 1)
  }

  function ReadTlvs(data: seq<Byte>, cursor: nat, k: nat): (ts: seq<Tlv>)
    requires SkipTlvs(data, cursor, k).Some?
    ensures |ts| == k && TlvsFit(ts)
    decreases k
  {
    if k == 0 then [] else
      var next := cursor + 4 + Get16(data, cursor + 2);
      [Tlv(Get16(data, cursor), data[cursor + 4..next])] + ReadTlvs(data, next, k - 1)
  }

  function Parse(data: seq<Byte>): Option<Message> {
    if |data| < 8 then None else
      var end := SkipTlvs(data, 8, Get16(data, 2));
      if end.None? || end.value + Get32(data, 4) > |data| then None
      else Some(Message(Get16(data, 0), ReadTlvs(data, 8, Get16(data, 2)), data[end.value..end.value + Get32(data, 4)]))
  }

  /** The value of the first field of a type. */
  function FirstTlv(ts: seq<Tlv>, kind: Word16): Option<seq<Byte>> {
    if ts == [] then None
    else if ts[0].kind == kind then Some(ts[0].value)
    else FirstTlv(ts[1..], kind)
  }

  /** FirstTlv picks a field of the type with none of the type before it. */
  lemma {:induction false} FirstTlvIsFirst(ts: seq<Tlv>, kind: Word16)
    ensures FirstTlv(ts, kind).Some? <==> exists i :: 0 <= i < |ts| && ts[i].kind == kind
    ensures FirstTlv(ts, kind).Some? ==>
              exists i :: 0 <= i < |ts| && ts[i].kind == kind && FirstTlv(ts, kind).value == ts[i].value
                          && forall j :: 0 <= j < i ==> ts[j].kind != kind
  {
    if ts != [] && ts[0].kind != kind {
      var rest := ts[1..];
      FirstTlvIsFirst(rest, kind);
      if FirstTlv(ts, kind).Some? {
        var i :| 0 <= i < |rest| && rest[i].kind == kind && FirstTlv(ts, kind).value == rest[i].value
                 && forall j :: 0 <= j < i ==> rest[j].kind != kind;
        assert ts[i + 1] == rest[i];
        assert forall j :: 1 <= j < i + 1 ==> ts[j] == rest[j - 1];
      }
      if i :| 0 <= i < |ts| && ts[i].kind == kind {
        assert rest[i - 1] == ts[i];
      }
    }
  }

  // ---------- what the parser accepts ----------

  /** One field laid out at the cursor. */
  lemma ReadHead(data: seq<Byte>, cursor: nat, t: Tlv)
    requires cursor <= |data|
    requires |t.value| < 0x1_0000 && EncodeTlv(t) <= data[cursor..]
    ensures cursor + 4 + |t.value| <= |data|
    ensures Get16(data, cursor) == t.kind && Get16(data, cursor + 2) == |t.value|
    ensures data[cursor + 4..cursor + 4 + |t.value|] == t.value
  {
    var s := EncodeTlv(t);
    assert forall i :: 0 <= i < |s| ==> data[cursor + i] == s[i] by {
      assert forall i :: 0 <= i < |s| ==> data[cursor..][i] == s[i];
    }
    assert s[0..2] == Put16(t.kind) && s[2..4] == Put16(|t.value|) && s[4..] == t.value;
    assert data[cursor..cursor + 2] == s[0..2];
    assert data[cursor + 2..cursor + 2 + 2] == s[2..4];
    assert data[cursor + 4..cursor + 4 + |t.value|] == s[4..];
    GetPut16(data, cursor, t.kind);
    GetPut16(data, cursor + 2, |t.value|);
  }

  lemma PrefixSplit(s: seq<Byte>, a: seq<Byte>, b: seq<Byte>)
    requires a + b <= s
    ensures a <= s && b <= s[|a|..]
  {
    assert s[..|a|] == (a + b)[..|a|];
    assert s[|a|..][..|b|] == (a + b)[|a|..];
  }

  lemma PrefixSlice(s: seq<Byte>, from: nat, p: seq<Byte>)
    requires from <= |s| && p <= s[from..]
    ensures from + |p| <= |s| && s[from..from + |p|] == p
  {
    assert s[from..from + |p|] == s[from..][..|p|];
  }

  /** The parts of a buffer that begins with an encoding. */
  lemma EncodedParts(data: seq<Byte>, m: Message)
    requires Fits(m) && Encode(m) <= data
    ensures var e := EncodeTlvs(m.tlvs);
            && |data| >= 8 + |e| + |m.payload|
            && data[..8] == Header(m.kind, |m.tlvs|, |m.payload|)
            && e <= data[8..]
            && data[8 + |e|..8 + |e| + |m.payload|] == m.payload
  {
    var h, e := Header(m.kind, |m.tlvs|, |m.payload|), EncodeTlvs(m.tlvs);
    PrefixSplit(data, h + e, m.payload);
    PrefixSplit(data, h, e);
    PrefixSlice(data, |h + e|, m.payload);
  }

  /** Fields laid out at the cursor are read back, in order. */
  lemma {:induction false} ReadEncoded(data: seq<Byte>, cursor: nat, ts: seq<Tlv>)
    requires TlvsFit(ts) && cursor <= |data|
    requires EncodeTlvs(ts) <= data[cursor..]
    ensures SkipTlvs(data, cursor, |ts|) == Some(cursor + |EncodeTlvs(ts)|)
    ensures ReadTlvs(data, cursor, |ts|) == ts
    decreases |ts|
  {
    if ts != [] {
      var next := cursor + |EncodeTlv(ts[0])|;
      PrefixSplit(data[cursor..], EncodeTlv(ts[0]), EncodeTlvs(ts[1..]));
      ReadHead(data, cursor, ts[0]);
      assert data[cursor..][|EncodeTlv(ts[0])|..] == data[next..];
      hide EncodeTlv, Get16;
      ReadEncoded(data, next, ts[1..]);
    }
  }

  /** One step of a walk over encoded fields. */
  lemma WalkStep(data: seq<Byte>, cursor: nat, ts: seq<Tlv>, i: nat)
    requires TlvsFit(ts) && cursor < |data| && i <= |ts|
    requires data[cursor..] == EncodeTlvs(ts[i..])
    ensures i < |ts| && cursor + 4 <= |data|
    ensures var next := cursor + 4 + Get16(data, cursor + 2);
            next <= |data| && data[next..] == EncodeTlvs(ts[i + 1..])
  {
    var here := ts[i..];
    ReadHead(data, cursor, here[0]);
    assert here[1..] == ts[i + 1..];
    var next := cursor + 4 + |here[0].value|;
    assert data[next..] == data[cursor..][|EncodeTlv(here[0])|..];
  }

  lemma HeaderParts(kind: Word16, count: Word16, payloadLen: Word32)
    ensures var h := Header(kind, count, payloadLen);
            h[..2] == Put16(kind) && h[2..4] == Put16(count) && h[4..] == Put32(payloadLen)
  {
    hide Put16, Put32;
  }

  lemma SameParts(a: seq<Byte>, b: seq<Byte>)
    requires |a| == |b| == 8
    ensures a == b <==> a[..2] == b[..2] && a[2..4] == b[2..4] && a[4..] == b[4..]
  {
    if a[..2] == b[..2] && a[2..4] == b[2..4] && a[4..] == b[4..] {
      forall i | 0 <= i < 8 ensures a[i] == b[i] {
        assert i < 2 ==> a[i] == a[..2][i] == b[..2][i];
        assert 2 <= i < 4 ==> a[i] == a[2..4][i - 2] == b[2..4][i - 2];
        assert i >= 4 ==> a[i] == a[4..][i - 4] == b[4..][i - 4];
      }
    }
  }

  lemma HeaderRead(data: seq<Byte>, kind: Word16, count: Word16, payloadLen: Word32)
    requires |data| >= 8
    ensures data[..8] == Header(kind, count, payloadLen)
            <==> Get16(data, 0) == kind && Get16(data, 2) == count && Get32(data, 4) == payloadLen
  {
    GetPut16(data, 0, kind);
    GetPut16(data, 2, count);
    GetPut32(data, 4, payloadLen);
    HeaderParts(kind, count, payloadLen);
    hide Put16, Put32, Get16, Get32, Header;
    var s := data[..8];
    assert s[..2] == data[0..2] && s[2..4] == data[2..4] && s[4..] == data[4..8];
    SameParts(s, Header(kind, count, payloadLen));
  }

  /** A buffer that begins with an encoding parses to the encoded message. */
  lemma ParseEncoded(data: seq<Byte>, m: Message)
    requires Fits(m) && Encode(m) <= data
    ensures Parse(data) == Some(m)
  {
    EncodedParts(data, m);
    HeaderRead(data, m.kind, |m.tlvs|, |m.payload|);
    ReadEncoded(data, 8, m.tlvs);
  }

  /** A buffer that parses begins with the encoding of what it parses to. */
  lemma EncodeParsed(data: seq<Byte>)
    requires Parse(data).Some?
    ensures Fits(Parse(data).value) && Encode(Parse(data).value) <= data
  {
    var m := Parse(data).value;
    EncodeRead(data, 8, Get16(data, 2));
    HeaderRead(data, m.kind, |m.tlvs|, |m.payload|);
    hide Header, EncodeTlvs, Get16, Get32, SkipTlvs, ReadTlvs;
    var end := 8 + |EncodeTlvs(m.tlvs)|;
    assert data[..end] == data[..8] + data[8..end];
    assert data[..end + |m.payload|] == data[..end] + data[end..end + |m.payload|];
  }

  /** The accepted buffers are those that begin with an encoding, and that encoding is unique. */
  lemma AcceptsExactlyEncodings(data: seq<Byte>)
    ensures Parse(data).Some? <==> exists m :: Fits(m) && Encode(m) <= data
    ensures forall m, m' :: Fits(m) && Encode(m) <= data && Fits(m') && Encode(m') <= data ==> m == m'
  {
    if Parse(data).Some? { EncodeParsed(data); }
    forall m | Fits(m) && Encode(m) <= data ensures Parse(data) == Some(m) { ParseEncoded(data, m); }
  }

  // ---------- the layout, byte by byte ----------

  /** The number two bytes stand for in network byte order: the first weighs 256. */
  function Value16(s: seq<Byte>, at: nat): (v: Word16)
    requires at + 2 <= |s|
  {
    var b0: int, b1: int := s[at], s[at + 1];
    b0 * 256 + b1
  }

  /** And four bytes: the first weighs most. */
  function Value32(s: seq<Byte>, at: nat): (v: Word32)
    requires at + 4 <= |s|
  {
    var b0: int, b1: int, b2: int, b3: int := s[at], s[at + 1], s[at + 2], s[at + 3];
    ((b0 * 256 + b1) * 256 + b2) * 256 + b3
  }

  lemma GetsAreValues(s: seq<Byte>, at: nat)
    ensures at + 2 <= |s| ==> Get16(s, at) == Value16(s, at)
    ensures at + 4 <= |s| ==> Get32(s, at) == Value32(s, at)
  {
  }

  /** Type, length and value of a field stand at a position. */
  predicate FieldAt(data: seq<Byte>, at: nat, t: Tlv) {
    && at + 4 + |t.value| <= |data|
    && Value16(data, at) == t.kind && Value16(data, at + 2) == |t.value|
    && data[at + 4..at + 4 + |t.value|] == t.value
  }

  /** Where some fields end that stand behind each other from a position on. */
  function FieldsEnd(from: nat, ts: seq<Tlv>): nat
    decreases |ts|
  {
    if ts == [] then from else FieldsEnd(from + 4 + |ts[0].value|, ts[1..])
  }

  /** Some fields stand behind each other from a position on. */
  predicate FieldsAt(data: seq<Byte>, from: nat, ts: seq<Tlv>)
    decreases |ts|
  {
    ts != [] ==> FieldAt(data, from, ts[0]) && FieldsAt(data, from + 4 + |ts[0].value|, ts[1..])
  }

  /** The eight bytes of the header, the fields behind each other, and the payload behind them. */
  predicate LaidOut(data: seq<Byte>, m: Message, count: int, payloadLen: int) {
    var end := FieldsEnd(8, m.tlvs);
    && |data| >= end + |m.payload| && |data| >= 8
    && Value16(data, 0) == m.kind && Value16(data, 2) == count && Value32(data, 4) == payloadLen
    && FieldsAt(data, 8, m.tlvs) && data[end..end + |m.payload|] == m.payload
  }

  /** Reading one field. */
  lemma OneField(data: seq<Byte>, cursor: nat, k: nat)
    requires k > 0 && SkipTlvs(data, cursor, k).Some?
    ensures var ts := ReadTlvs(data, cursor, k);
            var next := cursor + 4 + |ts[0].value|;
            && FieldAt(data, cursor, ts[0]) && next <= |data|
            && SkipTlvs(data, next, k - 1) == SkipTlvs(data, cursor, k) && ts[1..] == ReadTlvs(data, next, k - 1)
  {
    GetsAreValues(data, cursor);
    GetsAreValues(data, cursor + 2);
    hide Get16, Value16;
  }

  lemma {:induction false} ReadIsLaidOut(data: seq<Byte>, cursor: nat, k: nat)
    requires cursor <= |data| && SkipTlvs(data, cursor, k).Some?
    ensures var ts := ReadTlvs(data, cursor, k);
            FieldsAt(data, cursor, ts) && FieldsEnd(cursor, ts) == SkipTlvs(data, cursor, k).value <= |data|
    decreases k
  {
    hide FieldAt, SkipTlvs, ReadTlvs;
    if k == 0 {
      NoFields(data, cursor);
    } else {
      OneField(data, cursor, k);
      var ts := ReadTlvs(data, cursor, k);
      var next, rest := cursor + 4 + |ts[0].value|, ts[1..];
      ReadIsLaidOut(data, next, k - 1);
      assert FieldsAt(data, next, rest) && FieldsEnd(next, rest) == FieldsEnd(cursor, ts);
    }
  }

  lemma NoFields(data: seq<Byte>, cursor: nat)
    ensures SkipTlvs(data, cursor, 0) == Some(cursor) && ReadTlvs(data, cursor, 0) == []
  {
  }

  lemma EncodedField(data: seq<Byte>, at: nat, t: Tlv)
    requires FieldAt(data, at, t)
    ensures EncodeTlv(t) == data[at..at + 4 + |t.value|]
  {
    GetsAreValues(data, at);
    GetsAreValues(data, at + 2);
    GetPut16(data, at, t.kind);
    GetPut16(data, at + 2, |t.value|);
    hide Get16, Value16, Put16;
    assert data[at..at + 4 + |t.value|]
           == data[at..at + 2] + data[at + 2..at + 2 + 2] + data[at + 4..at + 4 + |t.value|];
  }

  /** What is read is what the bytes between the cursors encode. */
  lemma {:induction false} EncodeRead(data: seq<Byte>, cursor: nat, k: nat)
    requires cursor <= |data| && SkipTlvs(data, cursor, k).Some?
    ensures cursor <= SkipTlvs(data, cursor, k).value <= |data|
    ensures EncodeTlvs(ReadTlvs(data, cursor, k)) == data[cursor..SkipTlvs(data, cursor, k).value]
    decreases k
  {
    hide FieldAt, SkipTlvs, ReadTlvs, EncodeTlv;
    if k == 0 {
      NoFields(data, cursor);
    } else {
      OneField(data, cursor, k);
      var ts, end := ReadTlvs(data, cursor, k), SkipTlvs(data, cursor, k).value;
      var next := cursor + 4 + |ts[0].value|;
      EncodeRead(data, next, k - 1);
      EncodedField(data, cursor, ts[0]);
      assert data[cursor..end] == data[cursor..next] + data[next..end];
    }
  }

  /** A field that stands at the cursor is the one read there. */
  lemma FieldIsRead(data: seq<Byte>, cursor: nat, t: Tlv, k: nat)
    requires FieldAt(data, cursor, t)
    ensures var next := cursor + 4 + |t.value|;
            && SkipTlvs(data, cursor, k + 1) == SkipTlvs(data, next, k)
            && (SkipTlvs(data, next, k).Some? ==> ReadTlvs(data, cursor, k + 1) == [t] + ReadTlvs(data, next, k))
  {
    GetsAreValues(data, cursor);
    GetsAreValues(data, cursor + 2);
    hide Get16, Value16;
  }

  lemma {:induction false} LaidOutIsRead(data: seq<Byte>, cursor: nat, ts: seq<Tlv>)
    requires FieldsAt(data, cursor, ts)
    ensures SkipTlvs(data, cursor, |ts|) == Some(FieldsEnd(cursor, ts))
    ensures ReadTlvs(data, cursor, |ts|) == ts
    decreases |ts|
  {
    hide FieldAt, SkipTlvs, ReadTlvs;
    if ts == [] {
      NoFields(data, cursor);
    } else {
      var next, rest := cursor + 4 + |ts[0].value|, ts[1..];
      LaidOutIsRead(data, next, rest);
      FieldIsRead(data, cursor, ts[0], |rest|);
      assert ts == [ts[0]] + rest && FieldsEnd(next, rest) == FieldsEnd(cursor, ts);
    }
  }

  /** The parser accepts exactly the buffers with a message laid out in them, and reads that one. */
  lemma ParsesExactlyLayout(data: seq<Byte>, m: Message)
    ensures Parse(data) == Some(m) <==> LaidOut(data, m, |m.tlvs|, |m.payload|)
  {
    GetsAreValues(data, 0);
    GetsAreValues(data, 2);
    GetsAreValues(data, 4);
    hide Get16, Get32, FieldsAt, Value16, Value32;
    if Parse(data) == Some(m) { ReadIsLaidOut(data, 8, |m.tlvs|); }
    if LaidOut(data, m, |m.tlvs|, |m.payload|) { LaidOutIsRead(data, 8, m.tlvs); }
  }

  // ---------- what build produces ----------

  /** The bytes of build(): count and payload length wrap to the width of their fields. */
  function BuildBytes(m: Message): seq<Byte>
    requires TlvsFit(m.tlvs)
  {
    Header(m.kind, |m.tlvs| % 0x1_0000, |m.payload| % 0x1_0000_0000) + EncodeTlvs(m.tlvs) + m.payload
  }

  /** Byte by byte: what build produces is the message laid out, with the wrapped numbers in its
      header, and nothing behind it. */
  lemma BuildIsLaidOut(m: Message)
    requires TlvsFit(m.tlvs)
    ensures var data := BuildBytes(m);
            && LaidOut(data, m, |m.tlvs| % 0x1_0000, |m.payload| % 0x1_0000_0000)
            && |data| == FieldsEnd(8, m.tlvs) + |m.payload|
  {
    var data, fields := BuildBytes(m), EncodeTlvs(m.tlvs);
    var count: Word16, payloadLen: Word32 := |m.tlvs| % 0x1_0000, |m.payload| % 0x1_0000_0000;
    var h := Header(m.kind, count, payloadLen);
    assert data == h + fields + m.payload;
    assert data[..8] == h && fields <= data[8..] && data[8 + |fields|..8 + |fields| + |m.payload|] == m.payload by {
      assert data[8..][..|fields|] == fields;
    }
    hide BuildBytes, EncodeTlvs, Header, FieldsAt, Get16, Get32, Value16, Value32;
    HeaderRead(data, m.kind, count, payloadLen);
    ReadEncoded(data, 8, m.tlvs);
    ReadIsLaidOut(data, 8, |m.tlvs|);
    GetsAreValues(data, 0);
    GetsAreValues(data, 2);
    GetsAreValues(data, 4);
  }

  lemma BuildIsEncode(m: Message)
    requires Fits(m)
    ensures BuildBytes(m) == Encode(m)
  {
    hide EncodeTlvs, Header;
  }

  /** Nothing wraps: what was built is the encoding, and parses to the message. */
  lemma FittingParses(m: Message)
    requires Fits(m)
    ensures Parse(BuildBytes(m)) == Some(m)
  {
    hide Parse, Encode, BuildBytes;
    BuildIsEncode(m);
    assert Encode(m) <= BuildBytes(m);
    ParseEncoded(BuildBytes(m), m);
  }

  /** What wraps is not what is parsed: every parsed message fits its fields. */
  lemma ParsedFits(data: seq<Byte>, m: Message)
    requires Parse(data) == Some(m)
    ensures |m.tlvs| < 0x1_0000 && |m.payload| < 0x1_0000_0000
  {
    hide Parse, Encode;
    EncodeParsed(data);
  }

  /** Parsing what was built gives the message back exactly when nothing wrapped. */
  lemma BuildParseRoundTrip(m: Message)
    requires TlvsFit(m.tlvs)
    ensures Parse(BuildBytes(m)) == Some(m) <==> |m.tlvs| < 0x1_0000 && |m.payload| < 0x1_0000_0000
  {
    hide Parse, BuildBytes;
    if Fits(m) { FittingParses(m); }
    if Parse(BuildBytes(m)) == Some(m) { ParsedFits(BuildBytes(m), m); }
  }

  // ---------- the typed fields ----------

  const COORDINATES: Word16 := 0x0001
  const FLAGS: Word16 := 0x0002
  const SERVICE_NAME: Word16 := 0x0003
  const REGION: Word16 := 0x0005

  /** A 32-bit float as its bit pattern. */
  type FloatBits = Word32

  function GetWords(s: seq<Byte>, at: nat, count: nat): (ws: seq<Word32>)
    requires at + 4 * count <= |s|
    ensures |ws| == count
    decreases count
  {
    if count == 0 then [] else [Get32(s, at)] + GetWords(s, at + 4, count - 1)
  }

  /** The leading 32-bit words of a field's value, if it is long enough. */
  function Words(value: Option<seq<Byte>>, count: nat): Option<seq<Word32>> {
    if value.None? || |value.value| < 4 * count then None else Some(GetWords(value.value, 0, count))
  }

  function PutWords(ws: seq<Word32>): (s: seq<Byte>)
    ensures |s| == 4 * |ws|
  {
    if ws == [] then [] else Put32(ws[0]) + PutWords(ws[1..])
  }

  /** Coordinates, flags and regions come back bit for bit. */
  lemma {:induction false} WordsRoundTrip(s: seq<Byte>, at: nat, ws: seq<Word32>)
    requires at <= |s| && s[at..] == PutWords(ws)
    ensures GetWords(s, at, |ws|) == ws
    decreases |ws|
  {
    if ws != [] {
      assert s[at..at + 4] == s[at..][..4] == Put32(ws[0]);
      GetPut32(s, at, ws[0]);
      assert s[at + 4..] == s[at..][4..] == PutWords(ws[1..]);
      WordsRoundTrip(s, at + 4, ws[1..]);
    }
  }

  /** Word i of a value stands at its bytes 4i to 4i + 3, in network byte order. */
  lemma {:induction false} WordsArePositional(s: seq<Byte>, at: nat, count: nat)
    requires at + 4 * count <= |s|
    ensures forall i :: 0 <= i < count ==> GetWords(s, at, count)[i] == Value32(s, at + 4 * i)
    decreases count
  {
    if count != 0 {
      GetsAreValues(s, at);
      WordsArePositional(s, at + 4, count - 1);
    }
    hide Get32, Value32;
  }

  lemma WordsWritten(ws: seq<Word32>)
    ensures forall i :: 0 <= i < |ws| ==> Value32(PutWords(ws), 4 * i) == ws[i]
  {
    WordsRoundTrip(PutWords(ws), 0, ws);
    WordsArePositional(PutWords(ws), 0, |ws|);
  }

  /** A message whose first field of a type carries these words yields them after a round trip. */
  lemma FieldRoundTrip(m: Message, before: seq<Tlv>, kind: Word16, ws: seq<Word32>, after: seq<Tlv>)
    requires Fits(m) && |ws| < 0x4000
    requires m.tlvs == before + [Tlv(kind, PutWords(ws))] + after
    requires forall i :: 0 <= i < |before| ==> before[i].kind != kind
    ensures Parse(Encode(m)).Some?
    ensures Words(FirstTlv(Parse(Encode(m)).value.tlvs, kind), |ws|) == Some(ws)
  {
    ParseEncoded(Encode(m), m);
    FirstTlvBehind(before, Tlv(kind, PutWords(ws)), after);
    WordsRoundTrip(PutWords(ws), 0, ws);
  }

  lemma {:induction false} FirstTlvBehind(before: seq<Tlv>, t: Tlv, after: seq<Tlv>)
    requires forall i :: 0 <= i < |before| ==> before[i].kind != t.kind
    ensures FirstTlv(before + [t] + after, t.kind) == Some(t.value)
  {
    if before != [] {
      FirstTlvBehind(before[1..], t, after);
      assert (before + [t] + after)[1..] == before[1..] + [t] + after;
    }
  }
}
