/** The SDO frame codec: bit layout of the command byte, multiplexer, sizes and
    abort code (inc/canopen/sdo.h, src/sdo_common.c).

    A frame is modelled as its data length code and its eight data bytes, the
    command byte data[0] apart from the seven of `body`, so that body[i] is
    data[i + 1]; the identifier is fixed per channel and is not part of the model. The getters and
    setters follow the header bit by bit. Beside them stand the frames that
    section 7.2.4.3 of CiA 301 lays out, written as byte strings; the lemmas say
    that what the setters build is that layout and that the getters read back
    every field. */
module SdoFrame {

  datatype Frame = Frame(dlc: nat, cmd: bv8, body: seq<bv8>)

  type CanFrame = f: Frame | f.dlc <= 8 && |f.body| == 7
    witness Frame(0, 0, [0, 0, 0, 0, 0, 0, 0])

  // Command specifiers, inc/canopen/sdo.h:36-50.
  const CcsDlSegReq: nat := 0
  const CcsDlInitReq: nat := 1
  const CcsUlInitReq: nat := 2
  const CcsUlSegReq: nat := 3
  const CsAbort: nat := 4
  const ScsUlSegRes: nat := 0
  const ScsDlSegRes: nat := 1
  const ScsUlInitRes: nat := 2
  const ScsDlInitRes: nat := 3

  // The abort codes the two machines produce themselves, inc/canopen/sdo.h:52-74.
  const AbortToggle: bv32 := 0x05030000
  const AbortTimeout: bv32 := 0x05040000
  const AbortInvalidCs: bv32 := 0x05040001
  const AbortGeneral: bv32 := 0x08000000

  const MaxDlc: nat := 8
  const SegmentMax: nat := 7
  const ExpeditedMax: nat := 4

  // ---------------------------------------------------------------- getters

  function Cs(f: CanFrame): nat { Low3(f.cmd >> 5) }

  function SegmentSize(f: CanFrame): nat { 7 - Low3((f.cmd >> 1) & 7) }

  function ExpeditedSize(f: CanFrame): nat { 4 - Low3((f.cmd >> 2) & 3) }

  predicate IsToggled(f: CanFrame) { f.cmd & 0x10 != 0 }

  predicate IsEndSegment(f: CanFrame) { f.cmd & 1 != 0 }

  predicate IsExpedited(f: CanFrame) { f.cmd & 2 != 0 }

  function Index(f: CanFrame): bv16 { (f.body[0] as bv16) | ((f.body[1] as bv16) << 8) }

  function Subindex(f: CanFrame): bv8 { f.body[2] }

  function Word(f: CanFrame): bv32 {
    (f.body[3] as bv32) | ((f.body[4] as bv32) << 8)
    | ((f.body[5] as bv32) << 16) | ((f.body[6] as bv32) << 24)
  }

  function AbortCode(f: CanFrame): bv32 { Word(f) }

  /** The integer value of a three-bit field. */
  function Low3(b: bv8): (n: nat)
    ensures n <= 7
    ensures b <= 3 ==> n <= 3
  {
    if b == 0 then 0 else if b == 1 then 1 else if b == 2 then 2 else if b == 3 then 3
    else if b == 4 then 4 else if b == 5 then 5 else if b == 6 then 6 else 7
  }

  /** An integer up to seven as a byte. */
  function Bits(n: nat): (b: bv8)
    requires n <= 7
    ensures b <= 7
    ensures Low3(b) == n
  {
    if n == 0 then 0 else if n == 1 then 1 else if n == 2 then 2 else if n == 3 then 3
    else if n == 4 then 4 else if n == 5 then 5 else if n == 6 then 6 else 7
  }

  // ---------------------------------------------------------------- setters

  // The bytes of a 16- and a 32-bit field in the order of the bus, lowest first.
  function Lo(x: bv16): bv8 { (x & 0xff) as bv8 }
  function Hi(x: bv16): bv8 { (x >> 8) as bv8 }
  function Byte0(w: bv32): bv8 { (w & 0xff) as bv8 }
  function Byte1(w: bv32): bv8 { ((w >> 8) & 0xff) as bv8 }
  function Byte2(w: bv32): bv8 { ((w >> 16) & 0xff) as bv8 }
  function Byte3(w: bv32): bv8 { (w >> 24) as bv8 }

  const Cleared: CanFrame := Frame(0, 0, [0, 0, 0, 0, 0, 0, 0])

  function SetByte0(f: CanFrame, b: bv8): CanFrame { f.(cmd := b) }

  function SetCs(f: CanFrame, cs: nat): CanFrame
    requires cs <= 7
  {
    SetByte0(f, (f.cmd & 0x1f) | (Bits(cs) << 5))
  }

  function SetSegmentSize(f: CanFrame, size: nat): CanFrame
    requires size <= 7
  {
    SetByte0(f, (f.cmd & 0xf1) | (Bits(7 - size) << 1))
  }

  /** Size 0 gives n = 4, which spills out of the two-bit field into bit 4. */
  function SetExpeditedSize(f: CanFrame, size: nat): CanFrame
    requires size <= 4
  {
    SetByte0(f, (f.cmd & 0xf3) | (Bits(4 - size) << 2))
  }

  function Toggle(f: CanFrame): CanFrame { SetByte0(f, f.cmd ^ 0x10) }

  function EndSegment(f: CanFrame): CanFrame { SetByte0(f, f.cmd | 1) }

  function Expedite(f: CanFrame): CanFrame { SetByte0(f, f.cmd | 2) }

  function IndicateSize(f: CanFrame): CanFrame { SetByte0(f, f.cmd | 1) }

  function SetIndex(f: CanFrame, index: bv16): CanFrame {
    f.(body := f.body[0 := Lo(index)][1 := Hi(index)])
  }

  function SetSubindex(f: CanFrame, subindex: bv8): CanFrame { f.(body := f.body[2 := subindex]) }

  function SetWord(f: CanFrame, w: bv32): CanFrame {
    f.(body := f.body[3 := Byte0(w)][4 := Byte1(w)]
                     [5 := Byte2(w)][6 := Byte3(w)])
  }

  /** memcpy of `bytes` to data[at]. */
  function Store(f: CanFrame, at: nat, bytes: seq<bv8>): CanFrame
    requires 1 <= at && at + |bytes| <= 8
  {
    f.(body := f.body[..at - 1] + bytes + f.body[at - 1 + |bytes|..])
  }

  function SetDlc(f: CanFrame, dlc: nat): CanFrame
    requires dlc <= 8
  {
    f.(dlc := dlc)
  }

  /** sdo_abort, src/sdo_common.c:22-32. */
  function SetAbort(f: CanFrame, code: bv32, index: bv16, subindex: bv8): CanFrame {
    SetDlc(SetSubindex(SetIndex(SetWord(SetCs(f, CsAbort), code), index), subindex), MaxDlc)
  }

  // ------------------------------------------- what a machine reads of a frame

  datatype Mux = Mux(index: bv16, subindex: bv8)

  /** Every field either machine looks at. `low` is bit 0: the end of a segment
      in a segment frame, "size indicated" in an initiate frame. */
  datatype Fields = Fields(
    dlc: nat, cs: nat, mux: Mux, toggled: bool, low: bool, expedited: bool,
    expeditedSize: nat, segmentSize: nat, code: bv32, body: seq<bv8>)

  function Read(f: CanFrame): (r: Fields)
    ensures r.dlc <= 8 && |r.body| == 7 && r.segmentSize <= 7 && 1 <= r.expeditedSize <= 4
  {
    Fields(f.dlc, Cs(f), Mux(Index(f), Subindex(f)), IsToggled(f), IsEndSegment(f), IsExpedited(f),
           ExpeditedSize(f), SegmentSize(f), AbortCode(f), f.body)
  }

  // ------------------------------------------------- the protocol's messages

  /** What a client says. A download of at most four bytes is expedited. */
  datatype Request =
    | ReqAbort(mux: Mux, code: bv32)
    | ReqDownload(mux: Mux, data: seq<bv8>)
    | ReqDownloadSegment(toggled: bool, bytes: seq<bv8>, last: bool)
    | ReqUpload(mux: Mux)
    | ReqUploadSegment(toggled: bool)

  /** What a server says. */
  datatype Reply =
    | RepAbort(mux: Mux, code: bv32)
    | RepDownload(mux: Mux)
    | RepDownloadSegment(toggled: bool)
    | RepUpload(mux: Mux, data: seq<bv8>)
    | RepUploadSegment(toggled: bool, bytes: seq<bv8>, last: bool)

  function Zeros(n: nat): seq<bv8> { seq(n, _ => 0 as bv8) }

  /** A frame holding a command byte, then `body`, then zero padding. */
  function Layout(dlc: nat, head: bv8, body: seq<bv8>): CanFrame
    requires dlc <= 8 && |body| <= 7
  {
    Frame(dlc, head, body + Zeros(7 - |body|))
  }

  function MuxBytes(m: Mux): (s: seq<bv8>)
    ensures |s| == 3
  {
    [Lo(m.index), Hi(m.index), m.subindex]
  }

  function WordBytes(w: bv32): (s: seq<bv8>)
    ensures |s| == 4
  {
    [Byte0(w), Byte1(w), Byte2(w), Byte3(w)]
  }

  function Flag(on: bool, bit: bv8): bv8 { if on then bit else 0 }

  /** The number in a byte, and the low byte of a number, three bits at a time. */
  function ByteValue(b: bv8): nat { Low3(b & 7) + 8 * Low3((b >> 3) & 7) + 64 * Low3(b >> 6) }

  function ByteOf(n: nat): bv8 { Bits(n % 8) | (Bits(n / 8 % 8) << 3) | (Bits(n / 64 % 4) << 6) }

  /** A length as the 32-bit size field holds it. */
  function SizeWord(size: nat): bv32 {
    (ByteOf(size) as bv32) | ((ByteOf(size / 0x100) as bv32) << 8)
    | ((ByteOf(size / 0x1_0000) as bv32) << 16) | ((ByteOf(size / 0x100_0000) as bv32) << 24)
  }

  function AbortLayout(m: Mux, code: bv32): CanFrame {
    Layout(8, 0x80, MuxBytes(m) + WordBytes(code))
  }

  /** Initiate: expedited with e = s = 1 and n unused bytes, or segmented with
      e = 0, s = 1 and the size. `cs` is the specifier in place. */
  function InitLayout(cs: bv8, m: Mux, data: seq<bv8>): CanFrame {
    if |data| <= 4 then
      Layout(4 + |data|, cs | (Bits(4 - |data|) << 2) | 3, MuxBytes(m) + data)
    else
      Layout(8, cs | 1, MuxBytes(m) + WordBytes(SizeWord(|data|)))
  }

  /** A segment carrying data; `last` is the c bit. */
  function SegmentLayout(toggled: bool, bytes: seq<bv8>, last: bool): CanFrame
    requires |bytes| <= 7
  {
    Layout(1 + |bytes|, Flag(toggled, 0x10) | (Bits(7 - |bytes|) << 1) | Flag(last, 1), bytes)
  }

  predicate Sendable(q: Request) { q.ReqDownloadSegment? ==> |q.bytes| <= 7 }

  predicate Replyable(p: Reply) { p.RepUploadSegment? ==> |p.bytes| <= 7 }

  function EncodeRequest(q: Request): CanFrame
    requires Sendable(q)
  {
    match q
    case ReqAbort(m, code) => AbortLayout(m, code)
    case ReqDownload(m, data) => InitLayout(0x20, m, data)
    case ReqDownloadSegment(t, bytes, last) => SegmentLayout(t, bytes, last)
    case ReqUpload(m) => Layout(4, 0x40, MuxBytes(m))
    case ReqUploadSegment(t) => Layout(1, 0x60 | Flag(t, 0x10), [])
  }

  function EncodeReply(p: Reply): CanFrame
    requires Replyable(p)
  {
    match p
    case RepAbort(m, code) => AbortLayout(m, code)
    case RepDownload(m) => Layout(4, 0x60, MuxBytes(m))
    case RepDownloadSegment(t) => Layout(1, 0x20 | Flag(t, 0x10), [])
    case RepUpload(m, data) => InitLayout(0x40, m, data)
    case RepUploadSegment(t, bytes, last) => SegmentLayout(t, bytes, last)
  }

  // ------------------------------------------- every field can be read back

  lemma {:induction false} AbortReadBack(m: Mux, code: bv32)
    ensures var r := Read(AbortLayout(m, code)); r.cs == CsAbort && r.mux == m && r.code == code && r.dlc == 8
  {
    var f := AbortLayout(m, code);
    assert f.body[..3] == MuxBytes(m);
    assert f.body[3..] == WordBytes(code);
  }

  /** n = 4 does not fit its two bits: an empty payload reads as four bytes. */
  lemma {:induction false} InitReadBack(cs: bv8, m: Mux, data: seq<bv8>)
    requires cs == 0x20 || cs == 0x40
    ensures var r := Read(InitLayout(cs, m, data));
      r.cs == (if cs == 0x20 then 1 else 2) && r.mux == m && r.low && r.expedited == (|data| <= 4)
    ensures |data| <= 4 ==> var r := Read(InitLayout(cs, m, data));
      r.dlc == 4 + |data| && r.expeditedSize == (if data == [] then 4 else |data|)
      && r.body[3..] == data + Zeros(4 - |data|)
    ensures |data| > 4 ==> Read(InitLayout(cs, m, data)).dlc == 8
  {
    hide SizeWord;
    var f := InitLayout(cs, m, data);
    if |data| <= 4 {
      assert f.body[..3] == MuxBytes(m);
    } else {
      assert f.body[..3] == MuxBytes(m);
    }
  }

  /** A segmented transfer announces its length, lowest byte first, if four bytes can
      hold it. */
  lemma {:induction false} SizeAnnounced(cs: bv8, m: Mux, data: seq<bv8>)
    requires 4 < |data| < 0x1_0000_0000
    ensures var b := Read(InitLayout(cs, m, data)).body;
      ByteValue(b[3]) + 0x100 * ByteValue(b[4]) + 0x1_0000 * ByteValue(b[5]) + 0x100_0000 * ByteValue(b[6]) == |data|
  {
    hide SizeWord, ByteOf, ByteValue;
    var f, n := InitLayout(cs, m, data), |data|;
    var w := WordBytes(SizeWord(n));
    assert f.body[3..] == w;
    assert f.body[3] == w[0] && f.body[4] == w[1] && f.body[5] == w[2] && f.body[6] == w[3];
    SizeWordBytes(n);
    SizeOfBytes(n);
  }

  lemma {:induction false} SizeOfBytes(n: nat)
    requires n < 0x1_0000_0000
    ensures ByteValue(ByteOf(n)) + 0x100 * ByteValue(ByteOf(n / 0x100)) + 0x1_0000 * ByteValue(ByteOf(n / 0x1_0000))
      + 0x100_0000 * ByteValue(ByteOf(n / 0x100_0000)) == n
  {
    hide ByteOf, ByteValue;
    ByteBack(n);
    ByteBack(n / 0x100);
    ByteBack(n / 0x1_0000);
    ByteBack(n / 0x100_0000);
    FourDigits(n);
  }

  lemma {:induction false} FourDigits(n: nat)
    requires n < 0x1_0000_0000
    ensures n % 0x100 + 0x100 * (n / 0x100 % 0x100) + 0x1_0000 * (n / 0x1_0000 % 0x100)
      + 0x100_0000 * (n / 0x100_0000 % 0x100) == n
  {
  }

  lemma {:induction false} SizeWordBytes(n: nat)
    ensures WordBytes(SizeWord(n))
      == [ByteOf(n), ByteOf(n / 0x100), ByteOf(n / 0x1_0000), ByteOf(n / 0x100_0000)]
  {
    hide ByteOf;
    BytesOfWord(ByteOf(n), ByteOf(n / 0x100), ByteOf(n / 0x1_0000), ByteOf(n / 0x100_0000));
  }

  lemma {:induction false} BytesOfWord(a: bv8, b: bv8, c: bv8, d: bv8)
    ensures var w := (a as bv32) | ((b as bv32) << 8) | ((c as bv32) << 16) | ((d as bv32) << 24);
      Byte0(w) == a && Byte1(w) == b && Byte2(w) == c && Byte3(w) == d
  {
  }

  lemma {:induction false} ByteBack(n: nat)
    ensures ByteValue(ByteOf(n)) == n % 0x100
  {
    hide Low3, Bits;
    TwoBits(n / 64 % 4);
    ByteParts(Bits(n % 8), Bits(n / 8 % 8), Bits(n / 64 % 4));
    ThreeDigits(n);
  }

  lemma {:induction false} ThreeDigits(n: nat)
    ensures n % 8 + 8 * (n / 8 % 8) + 64 * (n / 64 % 4) == n % 0x100
  {
    assert n / 64 == n / 8 / 8 && n / 0x100 == n / 64 / 4;
  }

  lemma {:induction false} TwoBits(n: nat)
    requires n < 4
    ensures Bits(n) <= 3
  {
  }

  lemma {:induction false} ByteParts(x: bv8, y: bv8, z: bv8)
    requires x <= 7 && y <= 7 && z <= 3
    ensures var b := x | (y << 3) | (z << 6); b & 7 == x && (b >> 3) & 7 == y && b >> 6 == z
  {
  }

  lemma {:induction false} SegmentReadBack(toggled: bool, bytes: seq<bv8>, last: bool)
    requires |bytes| <= 7
    ensures var r := Read(SegmentLayout(toggled, bytes, last));
      r.cs == 0 && r.dlc == 1 + |bytes| && r.toggled == toggled && r.low == last
      && r.segmentSize == |bytes| && r.body[..|bytes|] == bytes
  {
  }

  /** What the server reads of each request. */
  lemma {:induction false} RequestReadBack(q: Request)
    requires Sendable(q)
    ensures var r := Read(EncodeRequest(q));
      match q
      case ReqAbort(m, code) => r.cs == CsAbort && r.code == code
      case ReqDownload(m, data) => r.cs == CcsDlInitReq && r.mux == m && r.expedited == (|data| <= 4) && r.low
        && (if |data| <= 4 then
              r.dlc == 4 + |data| && r.expeditedSize == (if data == [] then 4 else |data|)
              && r.body[3..] == data + Zeros(4 - |data|)
            else r.dlc == 8)
      case ReqDownloadSegment(t, bytes, last) =>
        r.cs == CcsDlSegReq && r.dlc == 1 + |bytes| && r.toggled == t && r.low == last
        && r.segmentSize == |bytes| && r.body[..|bytes|] == bytes
      case ReqUpload(m) => r.cs == CcsUlInitReq && r.mux == m && r.dlc == 4
      case ReqUploadSegment(t) => r.cs == CcsUlSegReq && r.toggled == t && r.dlc == 1
  {
    match q
    case ReqAbort(m, code) => AbortReadBack(m, code);
    case ReqDownload(m, data) => InitReadBack(0x20, m, data);
    case ReqDownloadSegment(t, bytes, last) => SegmentReadBack(t, bytes, last);
    case ReqUpload(m) => assert EncodeRequest(q).body[..3] == MuxBytes(m);
    case ReqUploadSegment(t) =>
  }

  /** What the client reads of each reply. */
  lemma {:induction false} ReplyReadBack(p: Reply)
    requires Replyable(p)
    ensures var r := Read(EncodeReply(p));
      match p
      case RepAbort(m, code) => r.cs == CsAbort && r.code == code
      case RepDownload(m) => r.cs == ScsDlInitRes && r.mux == m && r.dlc == 4
      case RepDownloadSegment(t) => r.cs == ScsDlSegRes && r.toggled == t && r.dlc == 1
      case RepUpload(m, data) => r.cs == ScsUlInitRes && r.mux == m && r.expedited == (|data| <= 4) && r.low
        && r.dlc >= 4
        && (|data| <= 4 ==>
              r.expeditedSize == (if data == [] then 4 else |data|)
              && r.body[3..] == data + Zeros(4 - |data|))
      case RepUploadSegment(t, bytes, last) =>
        r.cs == ScsUlSegRes && r.dlc == 1 + |bytes| && r.toggled == t && r.low == last
        && r.segmentSize == |bytes| && r.body[..|bytes|] == bytes
  {
    match p
    case RepAbort(m, code) => AbortReadBack(m, code);
    case RepDownload(m) => assert EncodeReply(p).body[..3] == MuxBytes(m);
    case RepDownloadSegment(t) =>
    case RepUpload(m, data) => InitReadBack(0x40, m, data);
    case RepUploadSegment(t, bytes, last) => SegmentReadBack(t, bytes, last);
  }

  /** Padding a frame changes its length code and nothing else a machine reads. */
  lemma {:induction false} PaddedReadBack(f: CanFrame)
    ensures Read(SetDlc(f, 8)) == Read(f).(dlc := 8)
  {
    hide Low3;
    var g := SetDlc(f, 8);
    assert g.cmd == f.cmd && g.body == f.body;
    assert Word(g) == Word(f) && Index(g) == Index(f);
  }

  /** The bytes on the bus, spelled out: one message of each kind as section 7.2.4.3 of
      CiA 301 has it. */
  lemma {:induction false} KnownRequests()
    ensures var m := Mux(0x1018, 1);
      && EncodeRequest(ReqUpload(m)) == Frame(4, 0x40, [0x18, 0x10, 1, 0, 0, 0, 0])
      && EncodeRequest(ReqUploadSegment(true)) == Frame(1, 0x70, [0, 0, 0, 0, 0, 0, 0])
      && EncodeRequest(ReqDownload(m, [0xaa, 0xbb])) == Frame(6, 0x2b, [0x18, 0x10, 1, 0xaa, 0xbb, 0, 0])
      && EncodeRequest(ReqDownloadSegment(true, [1, 2, 3], true)) == Frame(4, 0x19, [1, 2, 3, 0, 0, 0, 0])
      && EncodeRequest(ReqAbort(m, AbortTimeout)) == Frame(8, 0x80, [0x18, 0x10, 1, 0, 0, 4, 5])
  {
    var m := Mux(0x1018, 1);
    assert MuxBytes(m) == [0x18, 0x10, 1];
    assert WordBytes(AbortTimeout) == [0, 0, 4, 5];
  }

  lemma {:induction false} KnownReplies()
    ensures var m := Mux(0x1018, 1);
      && EncodeReply(RepUpload(m, [7])) == Frame(5, 0x4f, [0x18, 0x10, 1, 7, 0, 0, 0])
      && EncodeReply(RepDownload(m)) == Frame(4, 0x60, [0x18, 0x10, 1, 0, 0, 0, 0])
      && EncodeReply(RepDownloadSegment(true)) == Frame(1, 0x30, [0, 0, 0, 0, 0, 0, 0])
      && EncodeReply(RepUploadSegment(false, [9, 8], false)) == Frame(3, 0x0a, [9, 8, 0, 0, 0, 0, 0])
  {
    assert MuxBytes(Mux(0x1018, 1)) == [0x18, 0x10, 1];
  }

  // ------------------------------------------- the setters build the layouts

  lemma {:induction false} InitHead(cs: bv8, n: bv8)
    requires cs <= 7 && n <= 7
    ensures (((((((0 & 0x1f) | (cs << 5)) | 1) | 2) & 0xf3) | (n << 2))) == (cs << 5) | (n << 2) | 3
  {
  }

  lemma {:induction false} SegmentHead(toggled: bool, n: bv8, last: bool)
    requires n <= 7
    ensures ((Flag(toggled, 0x10) & 0xf1) | (n << 1)) | Flag(last, 1)
      == Flag(toggled, 0x10) | (n << 1) | Flag(last, 1)
  {
  }

  method BuildAbort(m: Mux, code: bv32) returns (cf: CanFrame)
    ensures cf == AbortLayout(m, code)
  {
    hide Lo, Hi, Byte0, Byte1, Byte2, Byte3;
    cf := SetAbort(Cleared, code, m.index, m.subindex);
    assert cf.body == MuxBytes(m) + WordBytes(code) + Zeros(0);
  }

  /** The steps both machines take to initiate a transfer that sends data. */
  method BuildInit(cs: nat, m: Mux, data: seq<bv8>) returns (cf: CanFrame)
    requires cs == 1 || cs == 2
    ensures cf == InitLayout(Bits(cs) << 5, m, data)
  {
    hide Lo, Hi, Byte0, Byte1, Byte2, Byte3;
    cf := SetCs(Cleared, cs);
    cf := SetIndex(cf, m.index);
    cf := SetSubindex(cf, m.subindex);
    cf := IndicateSize(cf);
    assert cf.body == MuxBytes(m) + Zeros(4);
    if |data| <= ExpeditedMax {
      cf := BuildExpedited(cf, cs, m, data);
    } else {
      cf := SetWord(cf, SizeWord(|data|));
      cf := SetDlc(cf, MaxDlc);
      assert cf.body == (MuxBytes(m) + WordBytes(SizeWord(|data|))) + Zeros(0);
    }
  }

  method BuildExpedited(f: CanFrame, ghost cs: nat, ghost m: Mux, data: seq<bv8>) returns (cf: CanFrame)
    requires cs <= 7 && |data| <= ExpeditedMax
    requires f.cmd == ((0 & 0x1f) | (Bits(cs) << 5)) | 1 && f.body == MuxBytes(m) + Zeros(4)
    ensures cf == InitLayout(Bits(cs) << 5, m, data)
  {
    hide MuxBytes, Bits;
    cf := Expedite(f);
    cf := SetExpeditedSize(cf, |data|);
    cf := SetDlc(cf, 4 + |data|);
    cf := Store(cf, 4, data);
    assert cf.body == (MuxBytes(m) + data) + Zeros(4 - |data|);
    InitHead(Bits(cs), Bits(4 - |data|));
  }

  method BuildMux(cs: nat, m: Mux) returns (cf: CanFrame)
    requires cs <= 7
    ensures cf == Layout(4, Bits(cs) << 5, MuxBytes(m))
  {
    hide Lo, Hi, Byte0, Byte1, Byte2, Byte3;
    cf := SetCs(Cleared, cs);
    cf := SetIndex(cf, m.index);
    cf := SetSubindex(cf, m.subindex);
    cf := SetDlc(cf, 4);
    assert cf.body == MuxBytes(m) + Zeros(4);
  }

  method BuildToggle(cs: nat, toggled: bool) returns (cf: CanFrame)
    requires cs <= 7
    ensures cf == Layout(1, (Bits(cs) << 5) | Flag(toggled, 0x10), [])
  {
    cf := SetCs(Cleared, cs);
    if toggled { cf := Toggle(cf); }
    cf := SetDlc(cf, 1);
  }

  method BuildSegment(toggled: bool, bytes: seq<bv8>, last: bool) returns (cf: CanFrame)
    requires |bytes| <= 7
    ensures cf == SegmentLayout(toggled, bytes, last)
  {
    cf := SetCs(Cleared, 0);
    if toggled { cf := Toggle(cf); }
    cf := SetSegmentSize(cf, |bytes|);
    cf := Store(cf, 1, bytes);
    cf := SetDlc(cf, 1 + |bytes|);
    if last { cf := EndSegment(cf); }
    assert cf.body == bytes + Zeros(7 - |bytes|);
    SegmentHead(toggled, Bits(7 - |bytes|), last);
  }
}
