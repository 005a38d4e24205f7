/** The SDO server (src/sdo_srv.c, inc/canopen/sdo_srv.h).

    The user's two callbacks are a parameter of every call: what `on_init` would
    answer and what `on_done` would answer if that call came to consult them. A
    callback that refuses has called `sdo_srv_abort` once with the code given;
    `on_init` of an upload provides the bytes to serve. Nothing ties one call's
    answers to the next, so the theorems hold for callbacks with any memory. */
module SdoServer {
  import opened Common
  import opened SdoFrame
  import opened SdoClient

  datatype SrvPhase = InitReq | DlSegReq | UlSegReq

  datatype InitAnswer = Serve(data: seq<bv8>) | Refuse(code: bv32)
  datatype Callbacks = Callbacks(onInit: InitAnswer, onDone: Option<bv32>)

  datatype Server = Server(
    phase: SrvPhase, kind: Kind, mux: Mux, buffer: seq<bv8>, pos: nat, toggled: bool,
    status: Status, code: bv32)

  /** A call of `on_done`, with what the callback can see. */
  datatype Notice = Notice(mux: Mux, kind: Kind, status: Status, data: seq<bv8>)

  /** A call's effect: the machine afterwards, the frames sent, the calls of `on_done`. */
  datatype SrvStep = SrvStep(next: Server, replies: seq<CanFrame>, notices: seq<Notice>)

  /** A server between upload segments has more than an expedited transfer's worth
      of bytes and is not at their end. */
  ghost predicate SrvValid(s: Server) {
    s.phase == UlSegReq ==> |s.buffer| > ExpeditedMax && s.pos < |s.buffer|
  }

  // ------------------------------------------------------- what a call does

  function Answer(s: Server, p: Reply): SrvStep
    requires Replyable(p)
  {
    SrvStep(s, [EncodeReply(p)], [])
  }

  function AbortWith(s: Server, code: bv32): SrvStep {
    Answer(s.(status := LocalAbort, code := code, phase := InitReq), RepAbort(s.mux, code))
  }

  function NoticeOf(s: Server): Notice { Notice(s.mux, s.kind, s.status, s.buffer) }

  /** `on_done` sees the transfer; its refusal takes the place of `otherwise`. */
  function Conclude(s: Server, cb: Callbacks, otherwise: SrvStep): SrvStep {
    var rest := if cb.onDone.Some? then AbortWith(s, cb.onDone.value) else otherwise;
    SrvStep(rest.next.(phase := InitReq), rest.replies, [NoticeOf(s)])
  }

  function RemoteAborted(s: Server, code: bv32, cb: Callbacks): SrvStep {
    var d := s.(status := RemoteAbort, phase := InitReq, code := code);
    Conclude(d, cb, SrvStep(d, [], []))
  }

  /** How many bytes the server takes from an expedited download. */
  function ExpeditedTaken(f: Fields): (n: nat)
    requires 4 <= f.dlc <= 8 && f.expeditedSize <= 4
    ensures n <= 4
  {
    if f.low then Min(f.expeditedSize, f.dlc - 4) else f.dlc - 4
  }

  /** How many bytes the server takes from a segment: the size field is believed
      in the last segment only, since "size indicated" and "last" are one bit. */
  function SegmentTaken(f: Fields): (n: nat)
    requires 1 <= f.dlc <= 8 && f.segmentSize <= 7
    ensures n <= 7
  {
    if f.low then Min(f.segmentSize, f.dlc - 1) else f.dlc - 1
  }

  function InitDownload(s: Server, f: Fields, cb: Callbacks): SrvStep
    requires f.dlc <= 8 && f.expeditedSize <= 4 && |f.body| == 7
  {
    var d := s.(toggled := false, buffer := []);
    if f.dlc < 4 then AbortWith(d, AbortGeneral)
    else
      var e := d.(mux := f.mux, kind := Download);
      if cb.onInit.Refuse? then AbortWith(e, cb.onInit.code)
      else if f.expedited then
        var g := e.(buffer := f.body[3..3 + ExpeditedTaken(f)], status := Ok);
        Conclude(g, cb, Answer(g, RepDownload(f.mux)))
      else Answer(e.(status := Pending, phase := DlSegReq), RepDownload(f.mux))
  }

  function InitUpload(s: Server, f: Fields, cb: Callbacks): SrvStep {
    var d := s.(toggled := false, buffer := []);
    if f.dlc < 4 then AbortWith(d, AbortGeneral)
    else
      var e := d.(mux := f.mux, kind := Upload);
      if cb.onInit.Refuse? then AbortWith(e, cb.onInit.code)
      else
        var g := e.(buffer := cb.onInit.data);
        if |g.buffer| <= ExpeditedMax then Conclude(g, cb, Answer(g, RepUpload(f.mux, g.buffer)))
        else Answer(g.(status := Pending, phase := UlSegReq, pos := 0), RepUpload(f.mux, g.buffer))
  }

  /** The server's judgement of a segment request. */
  function SegmentFault(s: Server, f: Fields, expected: SrvPhase): Option<bv32> {
    if s.phase != expected then Some(AbortGeneral)
    else if f.dlc < 1 then Some(AbortGeneral)
    else if s.toggled != f.toggled then Some(AbortToggle)
    else None
  }

  function Acknowledge(s: Server): SrvStep {
    Answer(s.(toggled := !s.toggled), RepDownloadSegment(s.toggled))
  }

  function TakeSegment(s: Server, f: Fields, cb: Callbacks): SrvStep
    requires 1 <= f.dlc <= 8 && f.segmentSize <= 7 && |f.body| == 7
  {
    var d := s.(buffer := s.buffer + f.body[..SegmentTaken(f)]);
    if f.low then Conclude(d.(status := Ok), cb, Acknowledge(d.(status := Ok))) else Acknowledge(d)
  }

  function GiveSegment(s: Server, cb: Callbacks): SrvStep
    requires s.pos < |s.buffer|
  {
    var end := SegmentEnd(s.buffer, s.pos);
    var d := s.(pos := end, toggled := !s.toggled);
    var reply := RepUploadSegment(s.toggled, s.buffer[s.pos..end], end == |s.buffer|);
    if end == |s.buffer| then
      var e := d.(status := Ok);
      Conclude(e, cb, Answer(e, reply))
    else Answer(d, reply)
  }

  function Serves(s: Server, cf: CanFrame, cb: Callbacks): SrvStep
    requires SrvValid(s)
  {
    var f := Read(cf);
    if f.cs == CsAbort then RemoteAborted(s, f.code, cb)
    else if f.cs == CcsDlInitReq then InitDownload(s, f, cb)
    else if f.cs == CcsUlInitReq then InitUpload(s, f, cb)
    else if f.cs == CcsDlSegReq then
      var fault := SegmentFault(s, f, DlSegReq);
      if fault.Some? then AbortWith(s, fault.value) else TakeSegment(s, f, cb)
    else if f.cs == CcsUlSegReq then
      var fault := SegmentFault(s, f, UlSegReq);
      if fault.Some? then AbortWith(s, fault.value) else GiveSegment(s, cb)
    else AbortWith(s, AbortInvalidCs)
  }

  // ------------------------------------------------------------ the machine

  class SdoSrv {
    var phase: SrvPhase
    var kind: Kind
    var mux: Mux
    var buffer: seq<bv8>
    var pos: nat
    var toggled: bool
    var status: Status
    var abortCode: bv32

    ghost function View(): Server
      reads this
    {
      Server(phase, kind, mux, buffer, pos, toggled, status, abortCode)
    }

    constructor ()
      ensures SrvValid(View()) && phase == InitReq && buffer == []
    {
      phase, kind, mux, buffer := InitReq, Upload, Mux(0, 0), [];
      pos, toggled, status, abortCode := 0, false, Pending, 0;
    }

    method Abort(code: bv32) returns (replies: seq<CanFrame>, notices: seq<Notice>)
      modifies this`status, this`abortCode, this`phase
      ensures SrvStep(View(), replies, notices) == AbortWith(old(View()), code)
    {
      status, abortCode, phase := LocalAbort, code, InitReq;
      var cf := BuildAbort(mux, code);
      replies, notices := [cf], [];
    }

    /** Consults `on_done`; a refusal is one abort and `ok` is false. */
    method OnDone(cb: Callbacks) returns (ok: bool, replies: seq<CanFrame>, notices: seq<Notice>)
      modifies this`status, this`abortCode, this`phase
      ensures ok == cb.onDone.None?
      ensures ok ==> View() == old(View()).(phase := InitReq) && replies == []
      ensures ok ==> notices == [NoticeOf(old(View()))]
      ensures !ok ==> SrvStep(View(), replies, notices) == Conclude(old(View()), cb, SrvStep(old(View()), [], []))
    {
      hide EncodeReply;
      replies, notices := [], [Notice(mux, kind, status, buffer)];
      ok := cb.onDone.None?;
      if !ok {
        var none;
        replies, none := Abort(cb.onDone.value);
      }
      phase := InitReq;
    }

    method FeedRemoteAbort(f: Fields, cb: Callbacks) returns (replies: seq<CanFrame>, notices: seq<Notice>)
      modifies this
      ensures SrvStep(View(), replies, notices) == RemoteAborted(old(View()), f.code, cb)
    {
      hide EncodeReply;
      status, phase, abortCode := RemoteAbort, InitReq, f.code;
      var ok;
      ok, replies, notices := OnDone(cb);
    }

    method SendDownloadInit() returns (replies: seq<CanFrame>)
      ensures replies == [EncodeReply(RepDownload(mux))]
    {
      var cf := BuildMux(ScsDlInitRes, mux);
      replies := [cf];
    }

    method FeedInitDownload(f: Fields, cb: Callbacks) returns (replies: seq<CanFrame>, notices: seq<Notice>)
      requires f.dlc <= 8 && f.expeditedSize <= 4 && |f.body| == 7
      modifies this
      ensures SrvStep(View(), replies, notices) == InitDownload(old(View()), f, cb)
    {
      hide EncodeReply, ExpeditedTaken;
      toggled, buffer := false, [];
      if f.dlc < 4 { replies, notices := Abort(AbortGeneral); return; }
      mux, kind := f.mux, Download;
      if cb.onInit.Refuse? { replies, notices := Abort(cb.onInit.code); return; }
      if f.expedited {
        buffer := f.body[3..3 + ExpeditedTaken(f)];
        status := Ok;
        var ok;
        ok, replies, notices := OnDone(cb);
        if !ok { return; }
        replies := SendDownloadInit();
      } else {
        status, phase, notices := Pending, DlSegReq, [];
        replies := SendDownloadInit();
      }
    }

    method SendUploadInit() returns (replies: seq<CanFrame>)
      ensures replies == [EncodeReply(RepUpload(mux, buffer))]
    {
      hide InitLayout;
      var cf := BuildInit(ScsUlInitRes, mux, buffer);
      replies := [cf];
    }

    method FeedInitUpload(f: Fields, cb: Callbacks) returns (replies: seq<CanFrame>, notices: seq<Notice>)
      modifies this
      ensures SrvStep(View(), replies, notices) == InitUpload(old(View()), f, cb)
    {
      hide EncodeReply;
      toggled, buffer := false, [];
      if f.dlc < 4 { replies, notices := Abort(AbortGeneral); return; }
      mux, kind := f.mux, Upload;
      if cb.onInit.Refuse? { replies, notices := Abort(cb.onInit.code); return; }
      buffer := cb.onInit.data;
      if |buffer| <= ExpeditedMax {
        var sent := SendUploadInit();
        var ok;
        ok, replies, notices := OnDone(cb);
        if !ok { return; }
        replies := sent;
      } else {
        status, phase, pos, notices := Pending, UlSegReq, 0, [];
        replies := SendUploadInit();
      }
    }

    method SendDownloadSegment() returns (replies: seq<CanFrame>)
      modifies this`toggled
      ensures toggled == !old(toggled) && replies == [EncodeReply(RepDownloadSegment(old(toggled)))]
    {
      var cf := BuildToggle(ScsDlSegRes, toggled);
      toggled := !toggled;
      replies := [cf];
    }

    method FeedDownloadSegment(f: Fields, cb: Callbacks) returns (replies: seq<CanFrame>, notices: seq<Notice>)
      requires f.dlc <= 8 && f.segmentSize <= 7 && |f.body| == 7
      modifies this
      ensures var s, fault := old(View()), SegmentFault(old(View()), f, DlSegReq);
        SrvStep(View(), replies, notices) == if fault.Some? then AbortWith(s, fault.value) else TakeSegment(s, f, cb)
    {
      hide EncodeReply, SegmentTaken;
      if phase != DlSegReq { replies, notices := Abort(AbortGeneral); return; }
      if f.dlc < 1 { replies, notices := Abort(AbortGeneral); return; }
      if toggled != f.toggled { replies, notices := Abort(AbortToggle); return; }
      buffer := buffer + f.body[..SegmentTaken(f)];
      notices := [];
      if f.low {
        status := Ok;
        var ok;
        ok, replies, notices := OnDone(cb);
        if !ok { return; }
      }
      replies := SendDownloadSegment();
    }

    method FeedUploadSegment(f: Fields, cb: Callbacks) returns (replies: seq<CanFrame>, notices: seq<Notice>)
      requires SrvValid(View())
      modifies this
      ensures var s, fault := old(View()), SegmentFault(old(View()), f, UlSegReq);
        SrvStep(View(), replies, notices) == if fault.Some? then AbortWith(s, fault.value) else GiveSegment(s, cb)
    {
      hide Layout, SegmentLayout;
      if phase != UlSegReq { replies, notices := Abort(AbortGeneral); return; }
      if f.dlc < 1 { replies, notices := Abort(AbortGeneral); return; }
      if toggled != f.toggled { replies, notices := Abort(AbortToggle); return; }
      var size := Min(SegmentMax, |buffer| - pos);
      assert size > 0;
      var cf := BuildSegment(toggled, buffer[pos..pos + size], pos + size >= |buffer|);
      pos := pos + size;
      toggled := !toggled;
      notices := [];
      if pos >= |buffer| {
        status := Ok;
        var ok;
        ok, replies, notices := OnDone(cb);
        if !ok { return; }
      }
      replies := [cf];
    }

    method FeedFrame(cf: CanFrame, cb: Callbacks) returns (replies: seq<CanFrame>, notices: seq<Notice>)
      requires SrvValid(View())
      modifies this
      ensures SrvStep(View(), replies, notices) == Serves(old(View()), cf, cb)
      ensures SrvValid(View())
    {
      hide EncodeReply, Read, SegmentFault;
      var f := Read(cf);
      if f.cs == CsAbort { replies, notices := FeedRemoteAbort(f, cb); }
      else if f.cs == CcsDlInitReq { replies, notices := FeedInitDownload(f, cb); }
      else if f.cs == CcsDlSegReq { replies, notices := FeedDownloadSegment(f, cb); }
      else if f.cs == CcsUlInitReq { replies, notices := FeedInitUpload(f, cb); }
      else if f.cs == CcsUlSegReq { replies, notices := FeedUploadSegment(f, cb); }
      else { replies, notices := Abort(AbortInvalidCs); }
      ServesKeepsValid(old(View()), cf, cb);
    }
  }

  // ------------------------------------------------------ against any client

  /** No frame and no callback takes the server out of its invariant. */
  lemma {:induction false} ServesKeepsValid(s: Server, cf: CanFrame, cb: Callbacks)
    requires SrvValid(s)
    ensures SrvValid(Serves(s, cf, cb).next)
  {
    hide EncodeReply, Read;
  }
}
