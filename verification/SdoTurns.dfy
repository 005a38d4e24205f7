/** One exchange between the two SDO machines.

    `Ready` relates a waiting client to a server that has not yet seen the client's
    current request, `Answered` to one that has seen it and agreed. The two turn
    lemmas move between them and are all that the theorems on whole runs need of
    the bytes and of the machines. */
module SdoTurns {
  import opened Common
  import opened SdoFrame
  import opened SdoClient
  import opened SdoServer
  import SdoReport

  /** What arrives at the server of a download, the padding of an empty one included. */
  function Downloaded(q: Quirks, data: seq<bv8>): seq<bv8> {
    if data == [] && q.fullFrame then Zeros(4) else data
  }

  /** What arrives at the client of an upload. */
  function Uploaded(data: seq<bv8>): seq<bv8> {
    if data == [] then Zeros(4) else data
  }

  /** The request a running client waits on. For a download in segments, `p` is
      where the segment last sent begins. */
  ghost function Current(c: Client, p: nat): (q: Request)
    requires c.phase == SegResponse && c.job.kind == Download ==> p < |c.buffer|
    ensures Sendable(q)
  {
    match (c.phase == SegResponse, c.job.kind)
    case (false, Download) => ReqDownload(c.job.mux, c.buffer)
    case (false, Upload) => ReqUpload(c.job.mux)
    case (true, Download) => DlSegment(c.buffer, p, c.toggled)
    case (true, Upload) => ReqUploadSegment(c.toggled)
  }

  ghost predicate Receiving(s: Server, m: Mux, data: seq<bv8>, toggled: bool) {
    s.phase == DlSegReq && s.kind == Download && s.mux == m && s.buffer == data && s.toggled == toggled
  }

  ghost predicate Sending(s: Server, m: Mux, data: seq<bv8>, pos: nat, toggled: bool) {
    s.phase == UlSegReq && s.kind == Upload && s.mux == m && s.buffer == data && s.pos == pos && s.toggled == toggled
  }

  /** The server can take the client's current request: any state will do for the
      first, and both sides agree on the bytes and the toggle for the others. */
  ghost predicate Ready(c: Client, s: Server, served: seq<bv8>, p: nat) {
    && Valid(c) && c.running && SrvValid(s)
    && (c.phase == InitResponse ==> !c.toggled && (c.job.kind == Upload ==> c.buffer == []))
    && (c.phase == SegResponse && c.job.kind == Download ==>
          && p < |c.buffer| && SegmentEnd(c.buffer, p) == c.pos
          && Receiving(s, c.job.mux, c.buffer[..p], c.toggled))
    && (c.phase == SegResponse && c.job.kind == Upload ==>
          && |c.buffer| < |served| && c.buffer == served[..|c.buffer|]
          && Sending(s, c.job.mux, served, |c.buffer|, c.toggled))
  }

  ghost function ReceiptOf(c: Client): Notice {
    Notice(c.job.mux, Download, Ok, Downloaded(c.quirks, c.buffer))
  }

  /** The reply the protocol calls for. */
  ghost function Expected(c: Client, served: seq<bv8>): (r: Reply)
    ensures Replyable(r)
  {
    match (c.phase == SegResponse, c.job.kind)
    case (false, Download) => RepDownload(c.job.mux)
    case (false, Upload) => RepUpload(c.job.mux, served)
    case (true, Download) => RepDownloadSegment(c.toggled)
    case (true, Upload) =>
      var from := Min(|c.buffer|, |served|);
      var end := SegmentEnd(served, from);
      RepUploadSegment(c.toggled, served[from..end], end == |served|)
  }

  /** The last request of the transfer. */
  ghost predicate Final(c: Client, served: seq<bv8>) {
    match (c.phase == SegResponse, c.job.kind)
    case (false, Download) => |c.buffer| <= ExpeditedMax
    case (false, Upload) => |served| <= ExpeditedMax
    case (true, Download) => c.pos == |c.buffer|
    case (true, Upload) => |c.buffer| + SegmentMax >= |served|
  }

  /** The server has agreed to the client's current request. */
  ghost predicate Answered(c: Client, s: Server, served: seq<bv8>) {
    && Valid(c) && c.running && SrvValid(s)
    && (c.phase == InitResponse ==> !c.toggled && (c.job.kind == Upload ==> c.buffer == []))
    && (c.phase == SegResponse && c.job.kind == Upload ==>
          |c.buffer| < |served| && c.buffer == served[..|c.buffer|])
    && (!Final(c, served) && c.job.kind == Download ==>
          Receiving(s, c.job.mux, c.buffer[..c.pos], if c.phase == InitResponse then false else !c.toggled))
    && (!Final(c, served) && c.job.kind == Upload ==>
          if c.phase == InitResponse then Sending(s, c.job.mux, served, 0, false)
          else Sending(s, c.job.mux, served, |c.buffer| + SegmentMax, !c.toggled))
  }

  /** The abort code with which the callbacks refuse this turn, if they do. */
  ghost function Refusal(c: Client, served: seq<bv8>, cb: Callbacks): Option<bv32> {
    if c.phase == InitResponse && cb.onInit.Refuse? then Some(cb.onInit.code)
    else if Final(c, served) then cb.onDone
    else None
  }

  /** The bytes an upload serves from this turn on. */
  ghost function ServedBy(c: Client, served: seq<bv8>, cb: Callbacks): seq<bv8> {
    if c.phase == InitResponse && c.job.kind == Upload && cb.onInit.Serve? then cb.onInit.data else served
  }

  lemma {:induction false} WireFields(q: Quirks, r: Request) returns (f: Fields)
    requires Sendable(r)
    ensures f == Read(Wire(q, r))
    ensures f == Read(EncodeRequest(r)).(dlc := f.dlc)
    ensures f.dlc == if q.fullFrame then 8 else Read(EncodeRequest(r)).dlc
  {
    hide EncodeRequest, Read;
    PaddedReadBack(EncodeRequest(r));
    f := Read(Wire(q, r));
  }

  /** What the server's turn promises: exactly one reply, the protocol's unless a
      callback refuses, under the client's multiplexer; a finished download has been
      handed over whole, and `on_done` is never shown anything less. */
  ghost predicate ServerTurnDone(c: Client, t: SrvStep, served: seq<bv8>, refusal: Option<bv32>) {
    && t.next.mux == c.job.mux
    && (forall x <- t.notices ::
          x == if c.job.kind == Download then ReceiptOf(c) else Notice(c.job.mux, Upload, x.status, served))
    && if refusal.Some? then
         && t.next.phase == InitReq
         && t.replies == [EncodeReply(RepAbort(c.job.mux, refusal.value))]
       else
         && t.replies == [EncodeReply(Expected(c, served))]
         && Answered(c, t.next, served)
         && (Final(c, served) ==> t.next.phase == InitReq)
         && (Final(c, served) && c.job.kind == Download ==> t.notices == [ReceiptOf(c)])
         && (!Final(c, served) ==> t.notices == [])
  }

  lemma {:induction false} DownloadInitTurn(c: Client, s: Server, served: seq<bv8>, cb: Callbacks)
    requires Ready(c, s, served, 0) && c.phase == InitResponse && c.job.kind == Download
    ensures var t := Serves(s, Wire(c.quirks, Current(c, 0)), cb);
      ServerTurnDone(c, t, served, Refusal(c, served, cb)) && SrvValid(t.next)
  {
    hide Wire, Read, EncodeReply, EncodeRequest, Serves;
    var q := Current(c, 0);
    RequestReadBack(q);
    var f := WireFields(c.quirks, q);
    SdoReport.DownloadTold(s, Wire(c.quirks, q), cb);
    if |c.buffer| <= 4 {
      assert f.body[3..3 + ExpeditedTaken(f)] == Downloaded(c.quirks, c.buffer) by {
        var whole := c.buffer + Zeros(4 - |c.buffer|);
        assert f.body[3..3 + ExpeditedTaken(f)] == whole[..ExpeditedTaken(f)];
      }
    }
  }

  lemma {:induction false} UploadInitTurn(c: Client, s: Server, served: seq<bv8>, cb: Callbacks)
    requires Ready(c, s, served, 0) && c.phase == InitResponse && c.job.kind == Upload
    ensures var t, data := Serves(s, Wire(c.quirks, Current(c, 0)), cb), ServedBy(c, served, cb);
      ServerTurnDone(c, t, data, Refusal(c, data, cb)) && SrvValid(t.next)
  {
    hide Wire, Read, EncodeReply, EncodeRequest;
    var q := Current(c, 0);
    RequestReadBack(q);
    var f := WireFields(c.quirks, q);
  }

  lemma {:induction false} DownloadSegmentTurn(c: Client, s: Server, served: seq<bv8>, p: nat, cb: Callbacks)
    requires Ready(c, s, served, p) && c.phase == SegResponse && c.job.kind == Download
    ensures var t := Serves(s, Wire(c.quirks, Current(c, p)), cb);
      ServerTurnDone(c, t, served, Refusal(c, served, cb)) && SrvValid(t.next)
  {
    hide Wire, Read, EncodeReply, EncodeRequest;
    var q := Current(c, p);
    RequestReadBack(q);
    var f := WireFields(c.quirks, q);
    assert SegmentTaken(f) == |q.bytes|;
    assert c.buffer[..p] + f.body[..SegmentTaken(f)] == c.buffer[..c.pos];
    assert c.buffer[..|c.buffer|] == c.buffer;
  }

  lemma {:induction false} UploadSegmentTurn(c: Client, s: Server, served: seq<bv8>, p: nat, cb: Callbacks)
    requires Ready(c, s, served, p) && c.phase == SegResponse && c.job.kind == Upload
    ensures var t := Serves(s, Wire(c.quirks, Current(c, p)), cb);
      ServerTurnDone(c, t, served, Refusal(c, served, cb)) && SrvValid(t.next)
  {
    hide Wire, Read, EncodeReply, EncodeRequest;
    var q := Current(c, p);
    RequestReadBack(q);
    var f := WireFields(c.quirks, q);
  }

  /** The server's turn. */
  lemma {:induction false} ServerTurn(c: Client, s: Server, served: seq<bv8>, p: nat, cb: Callbacks)
    requires Ready(c, s, served, p)
    ensures var t, data := Serves(s, Wire(c.quirks, Current(c, p)), cb), ServedBy(c, served, cb);
      ServerTurnDone(c, t, data, Refusal(c, data, cb)) && SrvValid(t.next)
  {
    hide Wire, EncodeReply, Serves;
    match (c.phase == SegResponse, c.job.kind)
    case (false, Download) => DownloadInitTurn(c, s, served, cb);
    case (false, Upload) => UploadInitTurn(c, s, served, cb);
    case (true, Download) => DownloadSegmentTurn(c, s, served, p, cb);
    case (true, Upload) => UploadSegmentTurn(c, s, served, p, cb);
  }

  /** What the client's turn promises: done and content, or on to the next request
      with the server ready for it. */
  ghost predicate ClientTurnDone(c: Client, t: Step, s: Server, served: seq<bv8>) {
    && t.next.quirks == c.quirks && t.next.job == c.job
    && (c.job.kind == Download ==> t.next.buffer == c.buffer)
    && if Final(c, served) then
         && !t.next.running && t.next.status == Ok && t.sent == []
         && (c.job.kind == Upload ==> t.next.buffer == Uploaded(served))
       else
         && var p := if c.job.kind == Download then c.pos else 0;
         && Ready(t.next, s, served, p)
         && t.next.phase == SegResponse
         && t.sent == [Wire(c.quirks, Current(t.next, p))]
  }

  lemma {:induction false} DownloadReply(c: Client, s: Server, served: seq<bv8>)
    requires Answered(c, s, served) && c.job.kind == Download
    ensures ClientTurnDone(c, Feed(c, EncodeReply(Expected(c, served))), s, served)
  {
    hide Wire, Read, EncodeReply;
    ReplyReadBack(Expected(c, served));
  }

  lemma {:induction false} UploadInitReply(c: Client, s: Server, served: seq<bv8>)
    requires Answered(c, s, served) && c.job.kind == Upload && c.phase == InitResponse
    ensures ClientTurnDone(c, Feed(c, EncodeReply(Expected(c, served))), s, served)
  {
    hide Wire, Read, EncodeReply;
    ReplyReadBack(Expected(c, served));
    var f := Read(EncodeReply(Expected(c, served)));
    if |served| <= 4 {
      var whole := served + Zeros(4 - |served|);
      assert f.body[3..3 + f.expeditedSize] == whole[..f.expeditedSize];
      assert whole[..f.expeditedSize] == Uploaded(served);
    }
  }

  lemma {:induction false} UploadSegmentReply(c: Client, s: Server, served: seq<bv8>)
    requires Answered(c, s, served) && c.job.kind == Upload && c.phase == SegResponse
    ensures ClientTurnDone(c, Feed(c, EncodeReply(Expected(c, served))), s, served)
  {
    hide Wire, Read, EncodeReply;
    var e := Expected(c, served);
    ReplyReadBack(e);
    assert c.buffer + e.bytes == served[..SegmentEnd(served, |c.buffer|)];
    assert served[..|served|] == served;
  }

  /** The client's turn. */
  lemma {:induction false} ClientTurn(c: Client, s: Server, served: seq<bv8>)
    requires Answered(c, s, served)
    ensures ClientTurnDone(c, Feed(c, EncodeReply(Expected(c, served))), s, served)
  {
    hide Wire, EncodeReply, Feed;
    if c.job.kind == Download { DownloadReply(c, s, served); }
    else if c.phase == InitResponse { UploadInitReply(c, s, served); }
    else { UploadSegmentReply(c, s, served); }
  }

  /** An abort from the server ends any transaction with the server's code. */
  lemma {:induction false} AbortTurn(c: Client, m: Mux, code: bv32)
    requires Valid(c) && c.running
    ensures var t := Feed(c, EncodeReply(RepAbort(m, code)));
      !t.next.running && t.next.status == RemoteAbort && t.next.code == code && t.sent == []
      && t.next.job == c.job && t.next.quirks == c.quirks && t.next.buffer == c.buffer
  {
    hide Wire, Read, EncodeReply;
    ReplyReadBack(RepAbort(m, code));
  }

  /** Every frame that is not an abort gets exactly one reply, whatever the state
      of the server and whatever the frame. */
  lemma {:induction false} Lockstep(s: Server, cf: CanFrame, cb: Callbacks)
    requires SrvValid(s)
    ensures Read(cf).cs != CsAbort ==> |Serves(s, cf, cb).replies| == 1
    ensures Read(cf).cs == CsAbort ==>
      |Serves(s, cf, cb).replies| == (if cb.onDone.Some? then 1 else 0)
    ensures Read(cf).cs == CsAbort ==> Serves(s, cf, cb).next.phase == InitReq
  {
    hide Read, EncodeReply;
  }
}
