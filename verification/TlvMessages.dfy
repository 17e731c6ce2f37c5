/** The parser and the builder objects of src/protocol/TlvMessage.cpp: cursor loops over
    bytes, proved against the wire format. Every buffer access is in bounds. */
module TlvMessages {
  import opened Outcomes
  import opened TlvWire

  class TlvMessage {
    const data: seq<Byte>
    var valid: bool
    var msgType: Word16
    var numTlvs: Word16
    var payloadLen: Word32
    var payloadOffset: nat

    /** The fields agree with the bytes. */
    ghost predicate Consistent()
      reads this
    {
      && valid == Parse(data).Some?
      && (valid ==>
            && |data| >= 8
            && msgType == Get16(data, 0)
            && numTlvs == Get16(data, 2)
            && payloadLen == Get32(data, 4)
            && SkipTlvs(data, 8, numTlvs) == Some(payloadOffset)
            && payloadOffset + payloadLen <= |data|)
    }

    /** The message the object stands for. */
    ghost function Meaning(): Message
      requires Consistent() && valid
      reads this
    {
      Parse(data).value
    }

    constructor (data: seq<Byte>)
      ensures this.data == data && Consistent()
      ensures valid <==> exists m: Message :: LaidOut(data, m, |m.tlvs|, |m.payload|)
      ensures valid ==>
                && LaidOut(data, Meaning(), numTlvs, payloadLen)
                && msgType == Value16(data, 0) && numTlvs == Value16(data, 2) && payloadLen == Value32(data, 4)
    {
      LayoutAccepted(data);
      this.data := data;
      valid, msgType, numTlvs, payloadLen, payloadOffset := false, 1, 0, 0, 0;
      new;
      if |data| < 8 { return; }
      msgType := Get16(data, 0);
      numTlvs := Get16(data, 2);
      payloadLen := Get32(data, 4);
      var cursor := 8;
      var i := 0;
      while i < numTlvs
        invariant 0 <= i <= numTlvs && !valid && 8 <= cursor <= |data|
        invariant msgType == Get16(data, 0) && numTlvs == Get16(data, 2) && payloadLen == Get32(data, 4)
        invariant SkipTlvs(data, 8, numTlvs) == SkipTlvs(data, cursor, numTlvs - i)
      {
        if cursor + 4 > |data| { return; }
        var tlvLen := Get16(data, cursor + 2);
        cursor := cursor + 4 + tlvLen;
        if cursor > |data| { return; }
        i := i + 1;
      }
      payloadOffset := cursor;
      if payloadOffset + payloadLen > |data| { return; }
      valid := true;
    }

    /** The value of the first field of the type: the source's pointer and length. */
    method FindTlv(kind: Word16) returns (value: Option<seq<Byte>>)
      requires Consistent()
      ensures value == if valid then FirstTlv(Meaning().tlvs, kind) else None
    {
      if !valid { return None; }
      value := FindField(data, 8, numTlvs, kind);
    }

    /** The leading words of the first field of the type, if it is long enough. */
    method GetWordsOf(kind: Word16, count: nat) returns (ws: Option<seq<Word32>>)
      requires Consistent()
      ensures var v := if valid then FirstTlv(Meaning().tlvs, kind) else None;
              if v.Some? && |v.value| >= 4 * count
              then && ws.Some? && |ws.value| == count
                   && forall i :: 0 <= i < count ==> ws.value[i] == Value32(v.value, 4 * i)
              else ws == None
    {
      var v := FindTlv(kind);
      if v.None? || |v.value| < 4 * count { return None; }
      ws := Some(GetWords(v.value, 0, count));
      WordsArePositional(v.value, 0, count);
    }

    /** The bytes of the first field of a type, if the message is valid and has one. */
    ghost function FieldBytes(kind: Word16): Option<seq<Byte>>
      requires Consistent()
      reads this
    {
      if valid then FirstTlv(Meaning().tlvs, kind) else None
    }

    method GetCoordinates() returns (c: Option<(FloatBits, FloatBits)>)
      requires Consistent()
      ensures var v := FieldBytes(0x0001);
              c == if v.Some? && |v.value| >= 8 then Some((Value32(v.value, 0), Value32(v.value, 4))) else None
    {
      var ws := GetWordsOf(COORDINATES, 2);
      c := if ws.None? then None else Some((ws.value[0], ws.value[1]));
    }

    method GetFlags() returns (f: Option<Word32>)
      requires Consistent()
      ensures var v := FieldBytes(0x0002);
              f == if v.Some? && |v.value| >= 4 then Some(Value32(v.value, 0)) else None
    {
      var ws := GetWordsOf(FLAGS, 1);
      f := if ws.None? then None else Some(ws.value[0]);
    }

    method GetRegion() returns (r: Option<(FloatBits, FloatBits, FloatBits, FloatBits)>)
      requires Consistent()
      ensures var v := FieldBytes(0x0005);
              r == if v.Some? && |v.value| >= 16
                   then Some((Value32(v.value, 0), Value32(v.value, 4), Value32(v.value, 8), Value32(v.value, 12)))
                   else None
    {
      var ws := GetWordsOf(REGION, 4);
      r := if ws.None? then None else Some((ws.value[0], ws.value[1], ws.value[2], ws.value[3]));
    }

    /** Service names and blinded values are the bytes of the first field of their type. */
    method GetServiceName() returns (name: Option<seq<Byte>>)
      requires Consistent()
      ensures name == FieldBytes(0x0003)
    {
      name := FindTlv(SERVICE_NAME);
    }

    /** The payload; None is the null pointer. */
    method GetPayload() returns (payload: Option<seq<Byte>>)
      requires Consistent()
      ensures payload == if valid && Meaning().payload != [] then Some(Meaning().payload) else None
    {
      if !valid || payloadLen == 0 { return None; }
      payload := Some(data[payloadOffset..payloadOffset + payloadLen]);
    }
  }

  class TlvMessageBuilder {
    const msgType: Word16
    var tlvBytes: seq<Byte>
    var payload: seq<Byte>
    ghost var fields: seq<Tlv>

    ghost predicate Valid()
      reads this
    {
      TlvsFit(fields) && tlvBytes == EncodeTlvs(fields)
    }

    constructor (msgType: Word16)
      ensures Valid() && this.msgType == msgType && fields == [] && payload == []
    {
      this.msgType := msgType;
      tlvBytes, payload, fields := [], [], [];
    }

    method AddTlv(kind: Word16, value: seq<Byte>)
      requires Valid() && |value| < 0x1_0000
      modifies this`tlvBytes, this`fields
      ensures Valid() && fields == old(fields) + [Tlv(kind, value)]
    {
      EncodeTlvsAppend(fields, Tlv(kind, value));
      tlvBytes := tlvBytes + Put16(kind);
      tlvBytes := tlvBytes + Put16(|value|);
      tlvBytes := tlvBytes + value;
      fields := fields + [Tlv(kind, value)];
    }

    /** One more field of a type, made of 32-bit words, each in network byte order. */
    ghost predicate HasGrown(before: seq<Tlv>, kind: Word16, ws: seq<Word32>)
      reads this
    {
      && |fields| == |before| + 1 && fields[..|before|] == before
      && var last := fields[|before|];
         && last.kind == kind && |last.value| == 4 * |ws|
         && forall i :: 0 <= i < |ws| ==> Value32(last.value, 4 * i) == ws[i]
    }

    method AddCoordinates(lat: FloatBits, lon: FloatBits)
      requires Valid()
      modifies this`tlvBytes, this`fields
      ensures Valid() && HasGrown(old(fields), 0x0001, [lat, lon])
    {
      WordsWritten([lat, lon]);
      AddTlv(COORDINATES, PutWords([lat, lon]));
    }

    method AddFlags(flags: Word32)
      requires Valid()
      modifies this`tlvBytes, this`fields
      ensures Valid() && HasGrown(old(fields), 0x0002, [flags])
    {
      WordsWritten([flags]);
      AddTlv(FLAGS, PutWords([flags]));
    }

    method AddRegion(minLat: FloatBits, maxLat: FloatBits, minLon: FloatBits, maxLon: FloatBits)
      requires Valid()
      modifies this`tlvBytes, this`fields
      ensures Valid() && HasGrown(old(fields), 0x0005, [minLat, maxLat, minLon, maxLon])
    {
      WordsWritten([minLat, maxLat, minLon, maxLon]);
      AddTlv(REGION, PutWords([minLat, maxLat, minLon, maxLon]));
    }

    /** Names and blinded values: the length is cast to 16 bits, so only a name's first
        |name| mod 65536 bytes are written. */
    method AddBytes(kind: Word16, name: seq<Byte>)
      requires Valid()
      modifies this`tlvBytes, this`fields
      ensures Valid() && fields == old(fields) + [Tlv(kind, name[..|name| % 0x1_0000])]
    {
      AddTlv(kind, name[..|name| % 0x1_0000]);
    }

    method SetPayload(data: seq<Byte>)
      modifies this`payload
      ensures payload == data
    {
      payload := data;
    }

    /** Counting the fields walks the bytes just written. */
    method Build() returns (buf: seq<Byte>)
      requires Valid()
      ensures buf == BuildBytes(Message(msgType, fields, payload))
      ensures LaidOut(buf, Message(msgType, fields, payload), |fields| % 0x1_0000, |payload| % 0x1_0000_0000)
      ensures |buf| == FieldsEnd(8, fields) + |payload|
    {
      BuildIsLaidOut(Message(msgType, fields, payload));
      var count := CountFields(tlvBytes, fields);
      buf := Header(msgType, count, |payload| % 0x1_0000_0000) + tlvBytes + payload;
    }
  }

  lemma LayoutAccepted(data: seq<Byte>)
    ensures Parse(data).Some? <==> exists m: Message :: LaidOut(data, m, |m.tlvs|, |m.payload|)
    ensures Parse(data).Some? ==> var m := Parse(data).value; LaidOut(data, m, |m.tlvs|, |m.payload|)
  {
    hide Parse, LaidOut;
    if Parse(data).Some? { ParsesExactlyLayout(data, Parse(data).value); }
    if m: Message :| LaidOut(data, m, |m.tlvs|, |m.payload|) { ParsesExactlyLayout(data, m); }
  }

  /** The counting loop of build(): it walks the bytes; the 16-bit count wraps. */
  method CountFields(bytes: seq<Byte>, ghost ts: seq<Tlv>) returns (count: Word16)
    requires TlvsFit(ts) && bytes == EncodeTlvs(ts)
    ensures count == |ts| % 0x1_0000
  {
    count := 0;
    var cursor := 0;
    ghost var i := 0;
    assert ts[0..] == ts && bytes[0..] == bytes;
    while cursor < |bytes|
      invariant 0 <= i <= |ts| && cursor <= |bytes|
      invariant bytes[cursor..] == EncodeTlvs(ts[i..])
      invariant count == i % 0x1_0000
      decreases |bytes| - cursor
    {
      WalkStep(bytes, cursor, ts, i);
      WrappedNext(i);
      cursor := cursor + 4 + Get16(bytes, cursor + 2);
      count := WrappedSuccessor(count);
      i := i + 1;
    }
    assert ts[i..] == [];
  }

  function WrappedSuccessor(count: Word16): Word16 {
    if count == 0xFFFF then 0 else count + 1
  }

  lemma WrappedNext(i: nat)
    ensures WrappedSuccessor(i % 0x1_0000) == (i + 1) % 0x1_0000
  {
  }

  /** The loop of findTlv over count fields from a position. */
  method FindField(data: seq<Byte>, start: nat, count: nat, kind: Word16) returns (value: Option<seq<Byte>>)
    requires start <= |data| && SkipTlvs(data, start, count).Some?
    ensures value == FirstTlv(ReadTlvs(data, start, count), kind)
  {
    var cursor: nat := start;
    var left: nat := count;
    while left > 0
      invariant cursor <= |data| && SkipTlvs(data, cursor, left).Some?
      invariant FirstTlv(ReadTlvs(data, start, count), kind) == FirstTlv(ReadTlvs(data, cursor, left), kind)
    {
      FindStep(data, cursor, left, kind);
      var next := cursor + 4 + Get16(data, cursor + 2);
      if Get16(data, cursor) == kind {
        return Some(data[cursor + 4..next]);
      }
      cursor := next;
      left := left - 1;
    }
    return None;
  }

  /** One step of findTlv. */
  lemma FindStep(data: seq<Byte>, cursor: nat, k: nat, kind: Word16)
    requires cursor <= |data| && k > 0 && SkipTlvs(data, cursor, k).Some?
    ensures cursor + 4 + Get16(data, cursor + 2) <= |data|
    ensures var next := cursor + 4 + Get16(data, cursor + 2);
            && SkipTlvs(data, next, k - 1).Some?
            && FirstTlv(ReadTlvs(data, cursor, k), kind)
               == if Get16(data, cursor) == kind then Some(data[cursor + 4..next])
                  else FirstTlv(ReadTlvs(data, next, k - 1), kind)
  {
    var next := cursor + 4 + Get16(data, cursor + 2);
    assert ReadTlvs(data, cursor, k)[1..] == ReadTlvs(data, next, k - 1);
  }

  lemma {:induction false} EncodeTlvsAppend(ts: seq<Tlv>, t: Tlv)
    requires TlvsFit(ts) && |t.value| < 0x1_0000
    ensures EncodeTlvs(ts + [t]) == EncodeTlvs(ts) + EncodeTlv(t)
  {
    hide EncodeTlv;
    if ts == [] {
      var none: seq<Tlv> := [];
      assert [t][1..] == none && none + [t] == [t];
    } else {
      EncodeTlvsAppend(ts[1..], t);
      assert (ts + [t])[1..] == ts[1..] + [t] && (ts + [t])[0] == ts[0];
    }
  }

  lemma BuiltParses(m: Message, trailing: seq<Byte>)
    requires Fits(m)
    ensures Parse(BuildBytes(m) + trailing) == Some(m)
  {
    BuildIsEncode(m);
    hide BuildBytes, Encode, Parse;
    assert BuildBytes(m) <= BuildBytes(m) + trailing;
    ParseEncoded(BuildBytes(m) + trailing, m);
  }

  /** A builder's output, parsed: the same fields and payload come back in order, and any
      trailing bytes of the datagram are ignored. */
  method RoundTrip(kind: Word16, fields: seq<Tlv>, payload: seq<Byte>, trailing: seq<Byte>) returns (msg: TlvMessage)
    requires Fits(Message(kind, fields, payload))
    ensures msg.Consistent() && msg.valid && msg.Meaning() == Message(kind, fields, payload)
  {
    var b := new TlvMessageBuilder(kind);
    for i := 0 to |fields|
      invariant b.Valid() && b.fields == fields[..i] && b.payload == []
    {
      b.AddTlv(fields[i].kind, fields[i].value);
    }
    b.SetPayload(payload);
    var bytes := b.Build();
    assert fields[..|fields|] == fields;
    BuiltParses(Message(kind, fields, payload), trailing);
    msg := new TlvMessage(bytes + trailing);
  }
}
