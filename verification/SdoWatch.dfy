/** The server against any client: an observer of the frames on the bus and of the
    calls of `on_done`, for every sequence of frames and callback answers. */
module SdoWatch {
  import opened Common
  import opened SdoFrame
  import opened SdoClient
  import opened SdoServer
  import SdoReport

  /** `served` is what `on_init` last provided, `given` what has gone out of it in
      segments since, `complete` whether a segment marked last has gone out; `taken`
      is what has come in by segments since a download was last initiated; `turn` is the
      toggle the next segment should bear, which starts at 0 and alternates. */
  datatype Watch = Watch(server: Server, served: seq<bv8>, given: seq<bv8>, complete: bool, taken: seq<bv8>,
                         turn: bool)

  datatype Input = Input(frame: CanFrame, cb: Callbacks)

  /** A segment has been accepted if its answer is no abort or the user was told. */
  ghost predicate Accepted(t: SrvStep) {
    t.notices != [] || (|t.replies| == 1 && Read(t.replies[0]).cs != CsAbort)
  }

  function SegmentBytes(f: Fields): seq<bv8>
    requires f.segmentSize <= |f.body|
  {
    f.body[..f.segmentSize]
  }

  ghost function Observe(w: Watch, i: Input): (r: Watch)
    requires SrvValid(w.server)
    ensures SrvValid(r.server)
  {
    var f, t := Read(i.frame), Serves(w.server, i.frame, i.cb);
    ServesKeepsValid(w.server, i.frame, i.cb);
    var v := w.(server := t.next);
    if f.cs == CcsUlInitReq then
      v.(served := if i.cb.onInit.Serve? then i.cb.onInit.data else w.served, given := [], complete := false,
         turn := false)
    else if f.cs == CcsUlSegReq && |t.replies| == 1 && Read(t.replies[0]).cs == ScsUlSegRes then
      var reply := Read(t.replies[0]);
      v.(given := w.given + SegmentBytes(reply), complete := reply.low, turn := !w.turn)
    else if f.cs == CcsDlInitReq then v.(taken := [], turn := false)
    else if f.cs == CcsDlSegReq && Accepted(t) && f.dlc >= 1 then
      v.(taken := w.taken + SdoReport.Gains(f), turn := !w.turn)
    else v
  }

  /** What the bus has seen of an upload is a prefix of what is served, all of it once
      a segment is marked last; a download in progress holds what has come in. */
  ghost predicate Faithful(w: Watch) {
    && SrvValid(w.server)
    && w.given <= w.served && (w.complete ==> w.given == w.served)
    && (w.server.phase == UlSegReq ==>
          w.server.buffer == w.served && !w.complete && w.given == w.served[..w.server.pos])
    && (w.server.phase == DlSegReq ==> w.server.kind == Download && w.server.buffer == w.taken)
    && (w.server.phase != InitReq ==> w.server.toggled == w.turn)
  }

  /** A successful segmented download shows `on_done` exactly what came in. */
  ghost predicate Reported(w: Watch, i: Input, notices: seq<Notice>, taken: seq<bv8>) {
    Read(i.frame).cs == CcsDlSegReq ==> forall n <- notices :: n == Notice(w.server.mux, Download, Ok, taken)
  }

  /** Segments are accepted only in turn, and answered with the toggle they bear. */
  ghost predicate InTurn(w: Watch, i: Input, t: SrvStep) {
    var f := Read(i.frame);
    (f.cs == CcsDlSegReq || f.cs == CcsUlSegReq) && Accepted(t) ==>
      && f.dlc >= 1 && f.toggled == w.turn
      && (|t.replies| == 1 && Read(t.replies[0]).cs != CsAbort ==> Read(t.replies[0]).toggled == w.turn)
  }

  lemma {:induction false} WatchUploadSegment(w: Watch, i: Input)
    requires Faithful(w) && Read(i.frame).cs == CcsUlSegReq
    ensures Faithful(Observe(w, i)) && InTurn(w, i, Serves(w.server, i.frame, i.cb))
  {
    hide Read, EncodeReply, Serves;
    var s, f := w.server, Read(i.frame);
    SdoReport.UploadSegmentTold(s, i.frame, i.cb);
    ReplyReadBack(RepAbort(s.mux, 0x0800_0000));
    ReplyReadBack(RepAbort(s.mux, 0x0503_0000));
    if s.phase == UlSegReq {
      var end := SegmentEnd(s.buffer, s.pos);
      ReplyReadBack(RepUploadSegment(s.toggled, s.buffer[s.pos..end], end == |s.buffer|));
      if i.cb.onDone.Some? { ReplyReadBack(RepAbort(s.mux, i.cb.onDone.value)); }
      assert s.buffer[..s.pos] + s.buffer[s.pos..end] == s.buffer[..end];
      assert s.buffer[..|s.buffer|] == s.buffer && s.buffer[s.pos..|s.buffer|] == s.buffer[s.pos..];
    }
  }

  lemma {:induction false} WatchDownloadSegment(w: Watch, i: Input)
    requires Faithful(w) && Read(i.frame).cs == CcsDlSegReq
    ensures Faithful(Observe(w, i)) && InTurn(w, i, Serves(w.server, i.frame, i.cb))
    ensures Reported(w, i, Serves(w.server, i.frame, i.cb).notices, Observe(w, i).taken)
  {
    hide Read, EncodeReply, Serves, SdoReport.Gains;
    var s := w.server;
    SdoReport.DownloadSegmentTold(s, i.frame, i.cb);
    ReplyReadBack(RepAbort(s.mux, 0x0800_0000));
    ReplyReadBack(RepAbort(s.mux, 0x0503_0000));
    ReplyReadBack(RepDownloadSegment(s.toggled));
    if i.cb.onDone.Some? { ReplyReadBack(RepAbort(s.mux, i.cb.onDone.value)); }
  }

  lemma {:induction false} WatchOther(w: Watch, i: Input)
    requires Faithful(w) && Read(i.frame).cs != CcsDlSegReq && Read(i.frame).cs != CcsUlSegReq
    ensures Faithful(Observe(w, i))
  {
    hide Read, EncodeReply, Serves;
    match Read(i.frame).cs
    case 1 => SdoReport.DownloadTold(w.server, i.frame, i.cb);
    case 2 => SdoReport.UploadTold(w.server, i.frame, i.cb);
    case 4 => SdoReport.RemoteAbortTold(w.server, i.frame, i.cb);
    case _ => SdoReport.UnknownTold(w.server, i.frame, i.cb);
  }

  lemma {:induction false} WatchStep(w: Watch, i: Input)
    requires Faithful(w)
    ensures Faithful(Observe(w, i)) && InTurn(w, i, Serves(w.server, i.frame, i.cb))
    ensures Reported(w, i, Serves(w.server, i.frame, i.cb).notices, Observe(w, i).taken)
  {
    hide Read, Observe, Faithful, Serves, Accepted;
    assert SrvValid(w.server) by { FaithfulIsValid(w); }
    if Read(i.frame).cs == CcsUlSegReq {
      WatchUploadSegment(w, i);
    } else if Read(i.frame).cs == CcsDlSegReq {
      WatchDownloadSegment(w, i);
    } else {
      WatchOther(w, i);
    }
  }

  lemma {:induction false} FaithfulIsValid(w: Watch)
    requires Faithful(w)
    ensures SrvValid(w.server)
  {
  }

  ghost function ObserveAll(w: Watch, ins: seq<Input>): (r: Watch)
    requires SrvValid(w.server)
    ensures SrvValid(r.server)
    decreases |ins|
  {
    if ins == [] then w else ObserveAll(Observe(w, ins[0]), ins[1..])
  }

  /** Over every sequence of frames, from whatever clients and with whatever
      answers from the callbacks. */
  lemma {:induction false} ServerAgainstAnyClient(w: Watch, ins: seq<Input>)
    requires Faithful(w)
    ensures Faithful(ObserveAll(w, ins))
    decreases |ins|
  {
    hide Observe;
    if ins != [] {
      WatchStep(w, ins[0]);
      ServerAgainstAnyClient(Observe(w, ins[0]), ins[1..]);
    }
  }

  /** The server takes what the size field of a segment says exactly when, in the last
      segment, the frame carries that much, and, in any other, no more and no less. */
  lemma {:induction false} SizeFieldBelieved(f: Fields)
    requires 1 <= f.dlc <= 8 && f.segmentSize <= 7
    ensures SegmentTaken(f) == f.segmentSize
      <==> if f.low then f.segmentSize <= f.dlc - 1 else f.segmentSize == f.dlc - 1
  {
  }
}
