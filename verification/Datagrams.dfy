/** Between the broker's messages and the bytes on the wire: how a message is written with the
    builder and read with the parser's getters. Floating-point patterns and the text of blinded
    values are written and read by functions left uninterpreted. */
module Datagrams {
  import opened Outcomes
  import opened Geo
  import opened BrokerModel
  import opened TlvWire
  import opened Forwarding
  import TlvMessages

  /** How numbers are written and read: coordinates as 32-bit patterns, blinded values as text. */
  datatype Codec = Codec(toBits: real -> FloatBits, ofBits: FloatBits -> real,
                         toText: nat -> seq<Byte>, ofText: seq<Byte> -> nat)

  /** The coordinate, or the number, is read back as it was written. */
  predicate Exact(k: Codec, x: real) {
    k.ofBits(k.toBits(x)) == x
  }

  predicate Carried(k: Codec, v: nat) {
    0 < |k.toText(v)| < 0x1_0000 && k.ofText(k.toText(v)) == v
  }

  /** What was read from a field can be written into one and read again; so can zero. */
  ghost predicate Faithful(k: Codec) {
    && (forall w: FloatBits :: Exact(k, k.ofBits(w))) && Exact(k, 0.0)
    && (forall b: seq<Byte> :: 0 < |b| < 0x1_0000 ==> Carried(k, k.ofText(b)))
  }

  // ---------- the parts of a message ----------

  function CodeOf(kind: Kind): Word16 {
    match kind
    case SUBSCRIBE => 0x0001
    case PUBLISH => 0x0002
    case HEARTBEAT => 0x0003
    case HELLO => 0x0004
    case HELLO_ACK => 0x0005
    case REGION_UPDATE => 0x0006
    case OTHER => 0x0009
  }

  function KindOf(code: Word16): Kind {
    match code
    case 0x0001 => SUBSCRIBE
    case 0x0002 => PUBLISH
    case 0x0003 => HEARTBEAT
    case 0x0004 => HELLO
    case 0x0005 => HELLO_ACK
    case 0x0006 => REGION_UPDATE
    case _ => OTHER
  }

  /** Service names are strings of bytes that fit a field. */
  predicate IsText(s: string) {
    |s| < 0x1_0000 && forall i :: 0 <= i < |s| ==> s[i] as int < 256
  }

  function BytesOf(s: string): (b: seq<Byte>)
    requires IsText(s)
    ensures |b| == |s|
  {
    seq(|s|, i requires 0 <= i < |s| => s[i] as int)
  }

  function TextOf(b: seq<Byte>): (s: string)
    ensures |s| == |b|
  {
    seq(|b|, i requires 0 <= i < |b| => b[i] as char)
  }

  lemma TextReadBack(s: string, b: seq<Byte>)
    ensures IsText(s) ==> TextOf(BytesOf(s)) == s
    ensures |b| < 0x1_0000 ==> IsText(TextOf(b))
  {
  }

  /** The three flag bits. */
  function WordOf(f: Flags): Word32 {
    (if f.queryMode then 1 else 0) + (if f.fromChild then 2 else 0) + (if f.fromParent then 4 else 0)
  }

  function FlagsOf(w: Word32): Flags {
    var bits: int := w;
    Flags(bits % 2 == 1, (bits / 2) % 2 == 1, (bits / 4) % 2 == 1)
  }

  function BlindedBytes(k: Codec, b: Blinded): seq<Byte> {
    if b.Some? then k.toText(b.value) else []
  }

  function BlindedOf(k: Codec, bytes: seq<Byte>): Blinded {
    if bytes == [] then None else Some(k.ofText(bytes))
  }

  // ---------- writing and reading ----------

  /** Everything in the message can be written without loss. */
  ghost predicate Writable(k: Codec, m: Msg) {
    && (m.name.Some? ==> IsText(m.name.value))
    && (m.coords.Some? ==> Exact(k, m.coords.value.lat) && Exact(k, m.coords.value.lon))
    && (m.region.Some? ==> var r := m.region.value;
                           Exact(k, r.minLat) && Exact(k, r.maxLat) && Exact(k, r.minLon) && Exact(k, r.maxLon))
    && (m.blind.Some? && m.blind.value.Some? ==> Carried(k, m.blind.value.value))
    && (m.blindHi.Some? && m.blindHi.value.Some? ==> Carried(k, m.blindHi.value.value))
    && |m.payload| < 0x1_0000_0000 && forall i :: 0 <= i < |m.payload| ==> 0 <= m.payload[i] < 256
  }

  /** At most one field of a type. */
  function Part(kind: Word16, value: Option<seq<Byte>>): seq<Tlv> {
    if value.Some? then [Tlv(kind, value.value)] else []
  }

  function NameBytes(m: Msg): Option<seq<Byte>>
    requires m.name.Some? ==> IsText(m.name.value)
  {
    if m.name.Some? then Some(BytesOf(m.name.value)) else None
  }

  function PointBytes(k: Codec, m: Msg): Option<seq<Byte>> {
    if m.coords.Some? then Some(PutWords([k.toBits(m.coords.value.lat), k.toBits(m.coords.value.lon)])) else None
  }

  function FlagBytes(m: Msg): Option<seq<Byte>> {
    if m.flags == Flags(false, false, false) then None else Some(PutWords([WordOf(m.flags)]))
  }

  function RegionBytes(k: Codec, m: Msg): Option<seq<Byte>> {
    if m.region.None? then None else
      var r := m.region.value;
      Some(PutWords([k.toBits(r.minLat), k.toBits(r.maxLat), k.toBits(r.minLon), k.toBits(r.maxLon)]))
  }

  function ValueBytes(k: Codec, b: Option<Blinded>): Option<seq<Byte>> {
    if b.Some? then Some(BlindedBytes(k, b.value)) else None
  }

  /** The fields the source's builders add. */
  function FieldsOf(k: Codec, m: Msg): seq<Tlv>
    requires m.name.Some? ==> IsText(m.name.value)
  {
    Part(0x0003, NameBytes(m)) + (Part(0x0001, PointBytes(k, m)) + (Part(0x0010, ValueBytes(k, m.blind))
    + (Part(0x0011, ValueBytes(k, m.blindHi)) + (Part(0x0002, FlagBytes(m)) + Part(0x0005, RegionBytes(k, m))))))
  }

  function Written(k: Codec, m: Msg): Message
    requires m.name.Some? ==> IsText(m.name.value)
    requires forall i :: 0 <= i < |m.payload| ==> 0 <= m.payload[i] < 256
  {
    Message(CodeOf(m.kind), FieldsOf(k, m), seq(|m.payload|, i requires 0 <= i < |m.payload| => m.payload[i]))
  }

  /** What the handlers read from a parsed message. */
  function Read(k: Codec, w: Message): Msg {
    Msg(KindOf(w.kind), ReadName(FirstTlv(w.tlvs, 0x0003)), ReadPoint(k, FirstTlv(w.tlvs, 0x0001)),
        ReadFlags(FirstTlv(w.tlvs, 0x0002)), ReadRegion(k, FirstTlv(w.tlvs, 0x0005)),
        ReadBlinded(k, FirstTlv(w.tlvs, 0x0010)), ReadBlinded(k, FirstTlv(w.tlvs, 0x0011)), w.payload)
  }

  function ReadName(v: Option<seq<Byte>>): Option<string> {
    if v.Some? then Some(TextOf(v.value)) else None
  }

  function ReadPoint(k: Codec, v: Option<seq<Byte>>): Option<Point> {
    var ws := Words(v, 2);
    if ws.Some? then Some(Point(k.ofBits(ws.value[0]), k.ofBits(ws.value[1]))) else None
  }

  function ReadFlags(v: Option<seq<Byte>>): Flags {
    var ws := Words(v, 1);
    if ws.Some? then FlagsOf(ws.value[0]) else Flags(false, false, false)
  }

  function ReadRegion(k: Codec, v: Option<seq<Byte>>): Option<Region> {
    var ws := Words(v, 4);
    if ws.Some? then Some(Region(k.ofBits(ws.value[0]), k.ofBits(ws.value[1]),
                                 k.ofBits(ws.value[2]), k.ofBits(ws.value[3]))) else None
  }

  function ReadBlinded(k: Codec, v: Option<seq<Byte>>): Option<Blinded> {
    if v.Some? then Some(BlindedOf(k, v.value)) else None
  }

  // ---------- the round trip ----------

  lemma {:induction false} FirstOfTwo(a: seq<Tlv>, b: seq<Tlv>, kind: Word16)
    ensures FirstTlv(a + b, kind) == if FirstTlv(a, kind).Some? then FirstTlv(a, kind) else FirstTlv(b, kind)
  {
    if a == [] {
      assert a + b == b;
    } else {
      FirstOfTwo(a[1..], b, kind);
      assert (a + b)[1..] == a[1..] + b && (a + b)[0] == a[0];
    }
  }

  lemma FirstOfPart(part: Word16, value: Option<seq<Byte>>, kind: Word16)
    ensures FirstTlv(Part(part, value), kind) == if part == kind then value else None
  {
  }

  /** The first field of each type is the one written for it. */
  lemma FirstOfFields(k: Codec, m: Msg, kind: Word16)
    requires m.name.Some? ==> IsText(m.name.value)
    ensures FirstTlv(FieldsOf(k, m), kind)
            == match kind
               case 0x0001 => PointBytes(k, m)
               case 0x0002 => FlagBytes(m)
               case 0x0003 => NameBytes(m)
               case 0x0005 => RegionBytes(k, m)
               case 0x0010 => ValueBytes(k, m.blind)
               case 0x0011 => ValueBytes(k, m.blindHi)
               case _ => None
  {
    var name, at := Part(0x0003, NameBytes(m)), Part(0x0001, PointBytes(k, m));
    var lo, hi := Part(0x0010, ValueBytes(k, m.blind)), Part(0x0011, ValueBytes(k, m.blindHi));
    var flags, region := Part(0x0002, FlagBytes(m)), Part(0x0005, RegionBytes(k, m));
    FirstOfPart(0x0003, NameBytes(m), kind);
    FirstOfPart(0x0001, PointBytes(k, m), kind);
    FirstOfPart(0x0010, ValueBytes(k, m.blind), kind);
    FirstOfPart(0x0011, ValueBytes(k, m.blindHi), kind);
    FirstOfPart(0x0002, FlagBytes(m), kind);
    FirstOfPart(0x0005, RegionBytes(k, m), kind);
    hide FirstTlv, Part, NameBytes, PointBytes, ValueBytes, FlagBytes, RegionBytes;
    FirstOfTwo(name, at + (lo + (hi + (flags + region))), kind);
    FirstOfTwo(at, lo + (hi + (flags + region)), kind);
    FirstOfTwo(lo, hi + (flags + region), kind);
    FirstOfTwo(hi, flags + region, kind);
    FirstOfTwo(flags, region, kind);
  }

  lemma WordsBack(ws: seq<Word32>)
    ensures Words(Some(PutWords(ws)), |ws|) == Some(ws)
  {
    WordsRoundTrip(PutWords(ws), 0, ws);
  }

  lemma PartFits(kind: Word16, value: Option<seq<Byte>>)
    requires value.Some? ==> |value.value| < 0x1_0000
    ensures TlvsFit(Part(kind, value)) && |Part(kind, value)| <= 1
  {
  }

  lemma FitsTogether(a: seq<Tlv>, b: seq<Tlv>)
    requires TlvsFit(a) && TlvsFit(b)
    ensures TlvsFit(a + b)
  {
  }

  lemma WrittenFits(k: Codec, m: Msg)
    requires Writable(k, m)
    ensures Fits(Written(k, m))
  {
    hide PutWords, BytesOf, TlvsFit;
    PartFits(0x0003, NameBytes(m));
    PartFits(0x0001, PointBytes(k, m));
    PartFits(0x0010, ValueBytes(k, m.blind));
    PartFits(0x0011, ValueBytes(k, m.blindHi));
    PartFits(0x0002, FlagBytes(m));
    PartFits(0x0005, RegionBytes(k, m));
    hide Part, NameBytes, PointBytes, ValueBytes, FlagBytes, RegionBytes;
    var name, at := Part(0x0003, NameBytes(m)), Part(0x0001, PointBytes(k, m));
    var lo, hi := Part(0x0010, ValueBytes(k, m.blind)), Part(0x0011, ValueBytes(k, m.blindHi));
    var flags, region := Part(0x0002, FlagBytes(m)), Part(0x0005, RegionBytes(k, m));
    FitsTogether(flags, region);
    FitsTogether(hi, flags + region);
    FitsTogether(lo, hi + (flags + region));
    FitsTogether(at, lo + (hi + (flags + region)));
    FitsTogether(name, at + (lo + (hi + (flags + region))));
  }

  lemma FlagsBack(f: Flags)
    ensures FlagsOf(WordOf(f)) == f && FlagsOf(1) == Flags(true, false, false)
  {
  }

  /** Whatever can be written without loss is read back as it was. */
  lemma WrittenIsRead(k: Codec, m: Msg)
    requires Writable(k, m)
    ensures Read(k, Written(k, m)) == m
  {
    FirstOfFields(k, m, 0x0001);
    FirstOfFields(k, m, 0x0002);
    FirstOfFields(k, m, 0x0003);
    FirstOfFields(k, m, 0x0005);
    FirstOfFields(k, m, 0x0010);
    FirstOfFields(k, m, 0x0011);
    BlindedBack(k, m.blind);
    BlindedBack(k, m.blindHi);
    NameBack(m);
    PointBack(k, m);
    FlagWordBack(m);
    RegionBack(k, m);
    hide FirstTlv, FieldsOf, ReadName, ReadPoint, ReadFlags, ReadRegion, NameBytes, PointBytes, FlagBytes, RegionBytes,
         ReadBlinded, ValueBytes, Carried, Exact, IsText;
  }

  lemma BlindedBack(k: Codec, b: Option<Blinded>)
    requires b.Some? && b.value.Some? ==> Carried(k, b.value.value)
    ensures ReadBlinded(k, ValueBytes(k, b)) == b
  {
  }

  lemma NameBack(m: Msg)
    requires m.name.Some? ==> IsText(m.name.value)
    ensures ReadName(NameBytes(m)) == m.name
  {
    if m.name.Some? { TextReadBack(m.name.value, []); }
  }

  lemma PointBack(k: Codec, m: Msg)
    requires m.coords.Some? ==> Exact(k, m.coords.value.lat) && Exact(k, m.coords.value.lon)
    ensures ReadPoint(k, PointBytes(k, m)) == m.coords
  {
    hide PutWords, Words;
    if m.coords.Some? { WordsBack([k.toBits(m.coords.value.lat), k.toBits(m.coords.value.lon)]); }
    NoWords();
  }

  lemma NoWords()
    ensures forall count :: Words(None, count) == None
  {
  }

  lemma FlagWordBack(m: Msg)
    ensures ReadFlags(FlagBytes(m)) == m.flags
  {
    hide PutWords, Words;
    WordsBack([WordOf(m.flags)]);
    FlagsBack(m.flags);
    NoWords();
  }

  lemma RegionBack(k: Codec, m: Msg)
    requires m.region.Some? ==> var r := m.region.value;
                                Exact(k, r.minLat) && Exact(k, r.maxLat) && Exact(k, r.minLon) && Exact(k, r.maxLon)
    ensures ReadRegion(k, RegionBytes(k, m)) == m.region
  {
    hide PutWords, Words;
    if m.region.Some? {
      var r := m.region.value;
      WordsBack([k.toBits(r.minLat), k.toBits(r.maxLat), k.toBits(r.minLon), k.toBits(r.maxLon)]);
    }
    NoWords();
  }

  /** The parser accepts what the builder makes of a message, whatever trails it in the datagram,
      and the getters read that message. */
  ghost predicate Arrives(k: Codec, m: Msg, trailing: seq<Byte>) {
    && Writable(k, m) && Fits(Written(k, m))
    && var received := Parse(BuildBytes(Written(k, m)) + trailing);
       received.Some? && Read(k, received.value) == m
  }

  /** A message sent arrives. */
  lemma SentIsReceived(k: Codec, m: Msg, trailing: seq<Byte>)
    requires Writable(k, m)
    ensures Arrives(k, m, trailing)
  {
    WrittenFits(k, m);
    WrittenIsRead(k, m);
    hide Written, Read, Parse, BuildBytes;
    TlvMessages.BuiltParses(Written(k, m), trailing);
  }

  lemma FirstFits(ts: seq<Tlv>, kind: Word16)
    requires TlvsFit(ts)
    ensures FirstTlv(ts, kind).Some? ==> |FirstTlv(ts, kind).value| < 0x1_0000
  {
    FirstTlvIsFirst(ts, kind);
  }

  lemma BlindedCarried(k: Codec, v: Option<seq<Byte>>)
    requires Faithful(k) && (v.Some? ==> |v.value| < 0x1_0000)
    ensures var b := ReadBlinded(k, v); b.Some? && b.value.Some? ==> Carried(k, b.value.value)
  {
    hide Carried, Exact;
  }

  lemma ReadFits(k: Codec, w: Message)
    requires Faithful(k) && Fits(w)
    ensures Writable(k, Read(k, w))
  {
    FirstFits(w.tlvs, 0x0003);
    FirstFits(w.tlvs, 0x0010);
    FirstFits(w.tlvs, 0x0011);
    BlindedCarried(k, FirstTlv(w.tlvs, 0x0010));
    BlindedCarried(k, FirstTlv(w.tlvs, 0x0011));
    if FirstTlv(w.tlvs, 0x0003).Some? { TextReadBack("", FirstTlv(w.tlvs, 0x0003).value); }
    hide FirstTlv, TextOf, IsText, ReadFlags, ReadBlinded, KindOf, Words, Carried, Exact, TlvsFit;
  }

  /** What was read from an accepted datagram can be written without loss. */
  lemma ReadIsWritable(k: Codec, data: seq<Byte>)
    requires Faithful(k) && Parse(data).Some?
    ensures Writable(k, Read(k, Parse(data).value))
  {
    hide Parse, Encode, Writable, Read, Faithful;
    EncodeParsed(data);
    ReadFits(k, Parse(data).value);
  }

  /** From broker to broker: a publication read from a datagram and passed on arrives at the next
      broker with its service, place, blinded value and payload. */
  lemma PassedOnArrives(k: Codec, c: Config, data: seq<Byte>, key: string, place: Point, fromChild: bool,
                        trailing: seq<Byte>)
    requires Faithful(k) && Parse(data).Some? && IsText(key)
    requires var m := Read(k, Parse(data).value); IsAbout(c, m, key) && IsAt(m, place)
    ensures Arrives(k, PassedOn(Read(k, Parse(data).value), key, place, fromChild), trailing)
  {
    ReadIsWritable(k, data);
    var sent := PassedOn(Read(k, Parse(data).value), key, place, fromChild);
    hide Read, Parse, Arrives, IsText, Carried, Exact;
    SentIsReceived(k, sent, trailing);
  }

  lemma BuiltKind(w: Message)
    requires Fits(w) && w.kind < 256
    ensures var data := BuildBytes(w); |data| >= 8 && data[0] == 0 && data[1] == w.kind
  {
    BuildIsLaidOut(w);
    hide BuildBytes, FieldsAt, FieldsEnd, Value32, TlvsFit;
  }

  /** The first two bytes of a message stand for its type. */
  lemma TypeBytes(k: Codec, m: Msg)
    requires Writable(k, m)
    ensures Fits(Written(k, m))
    ensures var data := BuildBytes(Written(k, m));
            && |data| >= 8 && data[0] == 0
            && (m.kind == SUBSCRIBE ==> data[1] == 1) && (m.kind == PUBLISH ==> data[1] == 2)
            && (m.kind == HEARTBEAT ==> data[1] == 3) && (m.kind == HELLO ==> data[1] == 4)
            && (m.kind == HELLO_ACK ==> data[1] == 5) && (m.kind == REGION_UPDATE ==> data[1] == 6)
  {
    WrittenFits(k, m);
    BuiltKind(Written(k, m));
    hide BuildBytes, FieldsOf, Fits;
  }

  /** What the fields of a publication passed on say: the service, the place as two patterns, the
      flag word 2 towards the parent and 4 towards a child, and the blinded value's text. */
  lemma PassedOnFields(k: Codec, m: Msg, key: string, place: Point, fromChild: bool)
    requires IsText(key)
    ensures var fields := FieldsOf(k, PassedOn(m, key, place, fromChild));
            && FirstTlv(fields, 0x0003) == Some(BytesOf(key))
            && (var at := FirstTlv(fields, 0x0001);
                at.Some? && |at.value| == 8
                && Value32(at.value, 0) == k.toBits(place.lat) && Value32(at.value, 4) == k.toBits(place.lon))
            && (var flags := FirstTlv(fields, 0x0002);
                flags.Some? && |flags.value| == 4 && Value32(flags.value, 0) == if fromChild then 2 else 4)
            && FirstTlv(fields, 0x0010)
               == (if m.blind.None? then None
                   else Some(if m.blind.value.Some? then k.toText(m.blind.value.value) else []))
            && FirstTlv(fields, 0x0011) == None && FirstTlv(fields, 0x0005) == None
  {
    var sent := PassedOn(m, key, place, fromChild);
    FirstOfFields(k, sent, 0x0001);
    FirstOfFields(k, sent, 0x0002);
    FirstOfFields(k, sent, 0x0003);
    FirstOfFields(k, sent, 0x0005);
    FirstOfFields(k, sent, 0x0010);
    FirstOfFields(k, sent, 0x0011);
    PointWritten(k, sent);
    FlagsWritten(sent);
    hide FirstTlv, FieldsOf, PointBytes, FlagBytes, Value32, BytesOf;
  }

  lemma PointWritten(k: Codec, m: Msg)
    requires m.coords.Some?
    ensures var at := PointBytes(k, m);
            at.Some? && |at.value| == 8
            && Value32(at.value, 0) == k.toBits(m.coords.value.lat)
            && Value32(at.value, 4) == k.toBits(m.coords.value.lon)
  {
    var at := [k.toBits(m.coords.value.lat), k.toBits(m.coords.value.lon)];
    WordsWritten(at);
    hide PutWords, Value32;
    assert Value32(PutWords(at), 4 * 0) == at[0] && Value32(PutWords(at), 4 * 1) == at[1];
  }

  lemma FlagsWritten(m: Msg)
    requires m.flags != Flags(false, false, false)
    ensures var flags := FlagBytes(m);
            flags.Some? && |flags.value| == 4 && Value32(flags.value, 0) == WordOf(m.flags)
  {
    WordsWritten([WordOf(m.flags)]);
    hide PutWords, Value32;
    assert Value32(PutWords([WordOf(m.flags)]), 4 * 0) == WordOf(m.flags);
  }
}
