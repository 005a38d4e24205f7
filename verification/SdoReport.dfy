/** The server's verdict on every frame in every state, read off the frame's fields:
    what it answers, what it keeps, and what it tells its user. */
module SdoReport {
  import opened Common
  import opened SdoFrame
  import opened SdoClient
  import opened SdoServer

  /** One abort goes out with the code, under the server's multiplexer; the user is not
      told, the bytes stay, and the server is back in its initial state. */
  ghost predicate Refuses(t: SrvStep, m: Mux, kept: seq<bv8>, code: bv32) {
    && t.replies == [EncodeReply(RepAbort(m, code))] && t.notices == []
    && t.next.phase == InitReq && t.next.mux == m && t.next.buffer == kept
    && t.next.status == LocalAbort && t.next.code == code
  }

  /** The user is told once. If that is refused, one abort with the user's code goes out;
      else `reply` does. Either way the server is back in its initial state. */
  ghost predicate Tells(t: SrvStep, x: Notice, refusal: Option<bv32>, reply: Reply)
    requires Replyable(reply)
  {
    && t.notices == [x] && t.next.phase == InitReq && t.next.mux == x.mux && t.next.buffer == x.data
    && t.replies == [EncodeReply(if refusal.Some? then RepAbort(x.mux, refusal.value) else reply)]
    && (if refusal.Some? then t.next.status == LocalAbort && t.next.code == refusal.value
        else t.next.status == x.status)
  }

  ghost predicate Goes(t: SrvStep, reply: Reply)
    requires Replyable(reply)
  {
    t.notices == [] && t.replies == [EncodeReply(reply)]
  }

  /** A client's abort: whatever the state, the user is told once, that the transfer was
      aborted and with what had come of it, and the client's code is kept unless the
      user refuses, which is the only thing that is answered. */
  lemma {:induction false} RemoteAbortTold(s: Server, cf: CanFrame, cb: Callbacks)
    requires SrvValid(s) && Read(cf).cs == 4
    ensures var t := Serves(s, cf, cb);
      && t.notices == [Notice(s.mux, s.kind, RemoteAbort, s.buffer)]
      && (cb.onDone.None? ==>
            t.replies == [] && t.next == s.(status := RemoteAbort, code := Read(cf).code, phase := InitReq))
      && (cb.onDone.Some? ==>
            && t.replies == [EncodeReply(RepAbort(s.mux, cb.onDone.value))]
            && t.next == s.(status := LocalAbort, code := cb.onDone.value, phase := InitReq))
  {
    hide Read, EncodeReply;
  }

  /** What a download segment that is taken adds: its size field counts only in the last. */
  function Gains(f: Fields): seq<bv8>
    requires 1 <= f.dlc <= 8 && |f.body| == 7 && f.segmentSize <= 7
  {
    f.body[..if f.low && f.segmentSize < f.dlc then f.segmentSize else f.dlc - 1]
  }

  /** A download segment: refused out of turn, when empty, or with the wrong toggle;
      else its bytes are appended, and the last one hands everything over. */
  lemma {:induction false} DownloadSegmentTold(s: Server, cf: CanFrame, cb: Callbacks)
    requires SrvValid(s) && Read(cf).cs == 0
    ensures var f, t := Read(cf), Serves(s, cf, cb);
      if s.phase != DlSegReq || f.dlc < 1 then Refuses(t, s.mux, s.buffer, 0x0800_0000)
      else if f.toggled != s.toggled then Refuses(t, s.mux, s.buffer, 0x0503_0000)
      else if f.low then
        Tells(t, Notice(s.mux, s.kind, Ok, s.buffer + Gains(f)), cb.onDone, RepDownloadSegment(s.toggled))
      else
        && Goes(t, RepDownloadSegment(s.toggled))
        && t.next == s.(buffer := s.buffer + Gains(f), toggled := !s.toggled)
  {
    hide Read, EncodeReply;
  }

  /** An upload segment: refused likewise; else the next seven bytes or what is left go
      out, and with the last the user is told. */
  lemma {:induction false} UploadSegmentTold(s: Server, cf: CanFrame, cb: Callbacks)
    requires SrvValid(s) && Read(cf).cs == 3
    ensures var f, t := Read(cf), Serves(s, cf, cb);
      if s.phase != UlSegReq || f.dlc < 1 then Refuses(t, s.mux, s.buffer, 0x0800_0000)
      else if f.toggled != s.toggled then Refuses(t, s.mux, s.buffer, 0x0503_0000)
      else if s.pos + 7 >= |s.buffer| then
        Tells(t, Notice(s.mux, s.kind, Ok, s.buffer), cb.onDone, RepUploadSegment(s.toggled, s.buffer[s.pos..], true))
      else
        && Goes(t, RepUploadSegment(s.toggled, s.buffer[s.pos..s.pos + 7], false))
        && t.next == s.(pos := s.pos + 7, toggled := !s.toggled)
  {
    hide Read, EncodeReply;
    assert s.phase == UlSegReq ==> s.buffer[s.pos..] == s.buffer[s.pos..|s.buffer|];
  }

  /** A download request drops what there was, whatever the state: refused when short or
      by the user; expedited, its bytes are handed over; else segments are awaited. */
  lemma {:induction false} DownloadTold(s: Server, cf: CanFrame, cb: Callbacks)
    requires SrvValid(s) && Read(cf).cs == 1
    ensures var f, t := Read(cf), Serves(s, cf, cb);
      if f.dlc < 4 then Refuses(t, s.mux, [], 0x0800_0000)
      else if cb.onInit.Refuse? then Refuses(t, f.mux, [], cb.onInit.code)
      else if f.expedited then
        var n := if f.low && f.expeditedSize + 4 < f.dlc then f.expeditedSize else f.dlc - 4;
        Tells(t, Notice(f.mux, Download, Ok, f.body[3..3 + n]), cb.onDone, RepDownload(f.mux))
      else
        && Goes(t, RepDownload(f.mux)) && t.next.phase == DlSegReq && t.next.kind == Download
        && t.next.mux == f.mux && t.next.buffer == [] && !t.next.toggled && t.next.status == Pending
  {
    hide Read, EncodeReply;
  }

  /** An upload request likewise, with the bytes the user provides; more than four go out
      in segments. The user is told of an expedited upload before it is answered, with the
      status that the transfer before it left behind. */
  lemma {:induction false} UploadTold(s: Server, cf: CanFrame, cb: Callbacks)
    requires SrvValid(s) && Read(cf).cs == 2
    ensures var f, t := Read(cf), Serves(s, cf, cb);
      if f.dlc < 4 then Refuses(t, s.mux, [], 0x0800_0000)
      else if cb.onInit.Refuse? then Refuses(t, f.mux, [], cb.onInit.code)
      else if |cb.onInit.data| <= 4 then
        Tells(t, Notice(f.mux, Upload, s.status, cb.onInit.data), cb.onDone, RepUpload(f.mux, cb.onInit.data))
      else
        && Goes(t, RepUpload(f.mux, cb.onInit.data)) && t.next.phase == UlSegReq && t.next.kind == Upload
        && t.next.mux == f.mux && t.next.buffer == cb.onInit.data && t.next.pos == 0 && !t.next.toggled
        && t.next.status == Pending
  {
    hide Read, EncodeReply;
  }

  /** Any other specifier. */
  lemma {:induction false} UnknownTold(s: Server, cf: CanFrame, cb: Callbacks)
    requires SrvValid(s) && Read(cf).cs > 4
    ensures Refuses(Serves(s, cf, cb), s.mux, s.buffer, 0x0504_0001)
  {
    hide Read, EncodeReply;
  }

  /** Over all frames: the user is told of a success in segments or of an expedited
      download with status OK; of an expedited upload if and only if the transfer before
      it happened to end so. */
  lemma {:induction false} ToldOk(s: Server, cf: CanFrame, cb: Callbacks)
    requires SrvValid(s)
    ensures |Serves(s, cf, cb).notices| <= 1
    ensures forall x <- Serves(s, cf, cb).notices ::
      x.status == Ok <==> Read(cf).cs != 4 && (Read(cf).cs == 2 ==> s.status == Ok)
  {
    hide Read, EncodeReply, Serves;
    match Read(cf).cs
    case 0 => DownloadSegmentTold(s, cf, cb);
    case 1 => DownloadTold(s, cf, cb);
    case 2 => UploadTold(s, cf, cb);
    case 3 => UploadSegmentTold(s, cf, cb);
    case 4 => RemoteAbortTold(s, cf, cb);
    case _ => UnknownTold(s, cf, cb);
  }

  /** So a status left behind is what the user sees of a successful expedited upload. */
  lemma {:induction false} StaleStatus(s: Server, m: Mux, cb: Callbacks)
    requires SrvValid(s) && cb.onInit.Serve? && |cb.onInit.data| <= 4 && cb.onDone.None?
    ensures var t := Serves(s, EncodeRequest(ReqUpload(m)), cb);
      && t.replies == [EncodeReply(RepUpload(m, cb.onInit.data))]
      && t.notices == [Notice(m, Upload, s.status, cb.onInit.data)]
  {
    hide Read, EncodeReply, EncodeRequest, Serves;
    RequestReadBack(ReqUpload(m));
    UploadTold(s, EncodeRequest(ReqUpload(m)), cb);
  }
}
