/** The asynchronous SDO client (src/sdo_async.c, inc/canopen/sdo_async.h).

    `Client` is the value of the machine's fields and `Start`, `Feed`, `Timeout`
    and `Stop` say what one call does to it: the verdict on a received frame first,
    the consequence second. `SdoAsync` is the machine itself, updating its fields
    and assembling its frames byte by byte; every method is proved against the
    functions. Allocation is taken to succeed. */
module SdoClient {
  import opened Common
  import opened SdoFrame

  datatype Kind = Upload | Download
  datatype Status = Pending | Ok | LocalAbort | RemoteAbort | Cancelled
  datatype Phase = StartPhase | InitResponse | SegResponse
  datatype Quirks = Quirks(ignoreMux: bool, fullFrame: bool)

  /** What a transaction is for, fixed while it runs: `notify` and `freeing` say
      whether `on_done` and `free_fn` are set, and context 0 is the null pointer. */
  datatype Job = Job(kind: Kind, mux: Mux, notify: bool, context: nat, freeing: bool)

  /** `struct sdo_async_info`. */
  datatype Info = Info(job: Job, data: seq<bv8>)

  /** The user's functions a call runs: `on_done`, with what it can see, and `free_fn`. */
  datatype Event =
    | Done(context: nat, status: Status, code: bv32, data: seq<bv8>)
    | Freed(context: nat)

  datatype Client = Client(
    quirks: Quirks, job: Job, running: bool, phase: Phase, buffer: seq<bv8>, pos: nat,
    toggled: bool, sizeIndicated: bool, status: Status, code: bv32)

  /** A call's effect: the machine afterwards, whether it returned 0, the frames it
      sent and the user's functions it ran. */
  datatype Step = Step(next: Client, ok: bool, sent: seq<CanFrame>, events: seq<Event>)

  /** What every reachable machine satisfies: a running machine has left the start
      state, and the read position of a download is in range, zero until the first
      segment. */
  ghost predicate Valid(c: Client) {
    c.running ==>
      && c.phase != StartPhase
      && (c.job.kind == Download ==> c.pos <= |c.buffer|)
      && (c.job.kind == Download && c.phase == InitResponse ==> c.pos == 0)
  }

  // -------------------------------------------------------- what is sent

  /** A request on the bus; one quirk pads every frame to eight bytes. */
  function Wire(q: Quirks, r: Request): CanFrame
    requires Sendable(r)
  {
    if q.fullFrame then SetDlc(EncodeRequest(r), MaxDlc) else EncodeRequest(r)
  }

  function Min(a: nat, b: nat): nat { if a < b then a else b }

  /** Where the segment starting at `pos` ends. */
  function SegmentEnd(data: seq<bv8>, pos: nat): (end: nat)
    requires pos <= |data|
    ensures pos <= end <= |data| && end <= pos + 7
    ensures pos < |data| ==> pos < end
  {
    pos + Min(SegmentMax, |data| - pos)
  }

  function DlSegment(data: seq<bv8>, pos: nat, toggled: bool): (q: Request)
    requires pos < |data|
    ensures Sendable(q)
  {
    var end := SegmentEnd(data, pos);
    ReqDownloadSegment(toggled, data[pos..end], end == |data|)
  }

  // ------------------------------------------------------- what a call does

  function FreeEvents(c: Client): seq<Event> {
    if c.job.context != 0 && c.job.freeing then [Freed(c.job.context)] else []
  }

  function EndEvents(c: Client): seq<Event> {
    (if c.job.notify then [Done(c.job.context, c.status, c.code, c.buffer)] else []) + FreeEvents(c)
  }

  /** End the transaction: `on_done`, then the context is freed. */
  function Finish(c: Client, status: Status, code: bv32): Step {
    var d := c.(status := status, code := code, running := false);
    Step(d, true, [], EndEvents(d))
  }

  function Violate(c: Client, code: bv32): Step {
    var d := c.(status := LocalAbort, code := code, running := false);
    Step(d, false, [Wire(c.quirks, ReqAbort(c.job.mux, code))], EndEvents(d))
  }

  function Say(c: Client, r: Request): Step
    requires Sendable(r)
  {
    Step(c, true, [Wire(c.quirks, r)], [])
  }

  function Start(c: Client, info: Info): Step {
    if c.running then Step(c, false, [], [])
    else
      var data := if info.job.kind == Download then info.data else [];
      var d := Client(c.quirks, info.job, true, InitResponse, data, 0, false, false, c.status, c.code);
      Say(d, if info.job.kind == Download then ReqDownload(info.job.mux, data) else ReqUpload(info.job.mux))
  }

  /** The client's judgement of a frame that is not an abort. */
  function Fault(c: Client, f: Fields): Option<bv32> {
    if c.phase == InitResponse then
      if f.dlc < 4 then Some(AbortGeneral)
      else if f.cs != (if c.job.kind == Download then ScsDlInitRes else ScsUlInitRes) then Some(AbortInvalidCs)
      else if !c.quirks.ignoreMux && f.mux != c.job.mux then Some(AbortGeneral)
      else None
    else
      if f.dlc < 1 then Some(AbortGeneral)
      else if f.cs != (if c.job.kind == Download then ScsDlSegRes else ScsUlSegRes) then Some(AbortInvalidCs)
      else if f.toggled != c.toggled
        && !(if c.job.kind == Download then c.pos >= |c.buffer| else f.low) then Some(AbortToggle)
      else None
  }

  function SendSegment(c: Client): Step
    requires c.pos < |c.buffer|
  {
    Say(c.(phase := SegResponse, pos := SegmentEnd(c.buffer, c.pos)),
        DlSegment(c.buffer, c.pos, c.toggled))
  }

  function AskSegment(c: Client): Step {
    Say(c.(phase := SegResponse), ReqUploadSegment(c.toggled))
  }

  function AdvanceDownload(c: Client): Step
    requires Valid(c) && c.running && c.job.kind == Download
  {
    if c.phase == InitResponse then
      if |c.buffer| <= ExpeditedMax then Finish(c, Ok, c.code) else SendSegment(c)
    else
      var d := c.(toggled := !c.toggled);
      if c.pos >= |c.buffer| then Finish(d, Ok, c.code) else SendSegment(d)
  }

  function AdvanceUpload(c: Client, f: Fields): Step
    requires f.segmentSize <= 7 && f.expeditedSize <= 4 && |f.body| == 7
  {
    if c.phase == InitResponse then
      var d := c.(sizeIndicated := f.low);
      if f.expedited then
        var size := if f.low then f.expeditedSize else ExpeditedMax;
        Finish(d.(buffer := f.body[3..3 + size]), Ok, c.code)
      else AskSegment(d)
    else
      var d := c.(toggled := !c.toggled, buffer := c.buffer + f.body[..f.segmentSize]);
      if f.low then Finish(d, Ok, c.code) else AskSegment(d)
  }

  /** The verdict on a frame that is not an abort, and the consequence. */
  function Respond(c: Client, f: Fields): Step
    requires Valid(c) && c.running
    requires c.job.kind == Upload ==> f.segmentSize <= 7 && f.expeditedSize <= 4 && |f.body| == 7
  {
    var fault := Fault(c, f);
    if fault.Some? then Violate(c, fault.value)
    else if c.job.kind == Download then AdvanceDownload(c)
    else AdvanceUpload(c, f)
  }

  function Feed(c: Client, cf: CanFrame): Step
    requires Valid(c)
  {
    var f := Read(cf);
    if !c.running then Step(c, false, [], [])
    else if f.cs == CsAbort then Finish(c, RemoteAbort, f.code)
    else Respond(c, f)
  }

  function Timeout(c: Client): Step { Violate(c, AbortTimeout) }

  function Stop(c: Client): Step {
    if !c.running then Step(c, false, [], [])
    else Step(c.(running := false), true, [], FreeEvents(c))
  }

  // ------------------------------------------------------------ the machine

  class SdoAsync {
    const quirks: Quirks
    var job: Job
    var running: bool
    var timerArmed: bool
    var phase: Phase
    var buffer: seq<bv8>
    var pos: nat
    var toggled: bool
    var sizeIndicated: bool
    var status: Status
    var abortCode: bv32

    ghost function View(): Client
      reads this
    {
      Client(quirks, job, running, phase, buffer, pos, toggled, sizeIndicated, status, abortCode)
    }

    /** The timer runs exactly while a transaction does. */
    ghost predicate Good()
      reads this
    {
      Valid(View()) && timerArmed == running
    }

    constructor (quirks: Quirks)
      ensures Good() && !running && this.quirks == quirks
    {
      this.quirks := quirks;
      job := Job(Upload, Mux(0, 0), false, 0, false);
      running, timerArmed, phase := false, false, StartPhase;
      buffer, pos, toggled, sizeIndicated := [], 0, false, false;
      status, abortCode := Pending, 0;
    }

    method Send(f: CanFrame, ghost r: Request) returns (sent: seq<CanFrame>)
      requires Sendable(r) && f == EncodeRequest(r)
      ensures sent == [Wire(quirks, r)]
    {
      hide EncodeRequest;
      var cf := f;
      if quirks.fullFrame { cf := SetDlc(cf, MaxDlc); }
      sent := [cf];
    }

    method OnDone() returns (events: seq<Event>)
      requires running
      modifies this`running, this`timerArmed
      ensures View() == old(View()).(running := false) && !timerArmed
      ensures events == EndEvents(View())
    {
      timerArmed, running := false, false;
      events := if job.notify then [Done(job.context, status, abortCode, buffer)] else [];
      if job.context != 0 && job.freeing { events := events + [Freed(job.context)]; }
    }

    method Abort(code: bv32) returns (sent: seq<CanFrame>, events: seq<Event>)
      requires running
      modifies this`running, this`timerArmed, this`status, this`abortCode
      ensures Step(View(), false, sent, events) == Violate(old(View()), code) && !timerArmed
    {
      hide Wire;
      timerArmed := false;
      var cf := BuildAbort(job.mux, code);
      sent := Send(cf, ReqAbort(job.mux, code));
      status, abortCode := LocalAbort, code;
      events := OnDone();
    }

    method OnTimeout() returns (sent: seq<CanFrame>, events: seq<Event>)
      requires Good() && timerArmed
      modifies this
      ensures Step(View(), false, sent, events) == Timeout(old(View()))
      ensures Good()
    {
      hide Wire;
      sent, events := Abort(AbortTimeout);
    }

    method StopTransaction() returns (ok: bool, sent: seq<CanFrame>, events: seq<Event>)
      requires Good()
      modifies this
      ensures Step(View(), ok, sent, events) == Stop(old(View()))
      ensures Good()
    {
      if !running { return false, [], []; }
      timerArmed, sent := false, [];
      events := if job.context != 0 && job.freeing then [Freed(job.context)] else [];
      running := false;
      ok := true;
    }

    method SendInitDownload() returns (sent: seq<CanFrame>)
      modifies this`timerArmed
      ensures timerArmed && sent == [Wire(quirks, ReqDownload(job.mux, buffer))]
    {
      hide Wire, InitLayout;
      var cf := BuildInit(CcsDlInitReq, job.mux, buffer);
      timerArmed := true;
      sent := Send(cf, ReqDownload(job.mux, buffer));
    }

    method SendInitUpload() returns (sent: seq<CanFrame>)
      modifies this`timerArmed
      ensures timerArmed && sent == [Wire(quirks, ReqUpload(job.mux))]
    {
      hide Wire, Layout;
      var cf := BuildMux(CcsUlInitReq, job.mux);
      timerArmed := true;
      sent := Send(cf, ReqUpload(job.mux));
    }

    method StartTransaction(info: Info) returns (ok: bool, sent: seq<CanFrame>, events: seq<Event>)
      requires Good()
      modifies this
      ensures Step(View(), ok, sent, events) == Start(old(View()), info)
      ensures Good()
    {
      hide Wire;
      if running { return false, [], []; }
      pos, toggled, phase := 0, false, StartPhase;
      events := [];
      job, sizeIndicated := info.job, false;
      buffer := if info.job.kind == Download then info.data else [];
      phase := InitResponse;
      running := true;
      if job.kind == Download { sent := SendInitDownload(); } else { sent := SendInitUpload(); }
      ok := true;
    }

    method RequestDownloadSegment() returns (sent: seq<CanFrame>)
      requires pos < |buffer|
      modifies this`pos, this`timerArmed
      ensures timerArmed && View() == old(View()).(pos := SegmentEnd(buffer, old(pos)))
      ensures sent == SendSegment(old(View())).sent
    {
      hide Wire;
      var size := Min(SegmentMax, |buffer| - pos);
      assert size > 0;
      var bytes := buffer[pos..pos + size];
      ghost var r := DlSegment(buffer, pos, toggled);
      pos := pos + size;
      var cf := BuildSegment(toggled, bytes, pos >= |buffer|);
      timerArmed := true;
      sent := Send(cf, r);
    }

    method RequestUploadSegment() returns (sent: seq<CanFrame>)
      modifies this`timerArmed
      ensures timerArmed && sent == AskSegment(View()).sent
    {
      var cf := BuildToggle(CcsUlSegReq, toggled);
      timerArmed := true;
      sent := Send(cf, ReqUploadSegment(toggled));
    }

    /** The checks on the response to an initiate request, in the order of the source. */
    method JudgeInit(f: Fields, cs: nat) returns (fault: Option<bv32>)
      requires phase == InitResponse && cs == if job.kind == Download then ScsDlInitRes else ScsUlInitRes
      ensures fault == Fault(View(), f)
    {
      if f.dlc < 4 { return Some(AbortGeneral); }
      if f.cs != cs { return Some(AbortInvalidCs); }
      if !quirks.ignoreMux {
        if f.mux != job.mux { return Some(AbortGeneral); }
      }
      return None;
    }

    /** The checks on the response to a segment; the last one's toggle goes unchecked. */
    method JudgeSegment(f: Fields, cs: nat, last: bool) returns (fault: Option<bv32>)
      requires phase == SegResponse && cs == if job.kind == Download then ScsDlSegRes else ScsUlSegRes
      requires last == if job.kind == Download then pos >= |buffer| else f.low
      ensures fault == Fault(View(), f)
    {
      if f.dlc < 1 { return Some(AbortGeneral); }
      if f.cs != cs { return Some(AbortInvalidCs); }
      if !last && f.toggled != toggled { return Some(AbortToggle); }
      return None;
    }

    method FeedInitDownload(f: Fields) returns (ok: bool, sent: seq<CanFrame>, events: seq<Event>)
      requires Valid(View()) && running && phase == InitResponse && job.kind == Download
      modifies this
      ensures Step(View(), ok, sent, events) == Respond(old(View()), f)
      ensures timerArmed == running
    {
      hide Wire, Fault, EndEvents, DlSegment;
      var fault := JudgeInit(f, ScsDlInitRes);
      if fault.Some? {
        sent, events := Abort(fault.value);
        return false, sent, events;
      }
      if |buffer| <= ExpeditedMax {
        status, sent := Ok, [];
        events := OnDone();
      } else {
        sent := RequestDownloadSegment();
        events := [];
        phase := SegResponse;
      }
      ok := true;
    }

    method FeedInitUpload(f: Fields) returns (ok: bool, sent: seq<CanFrame>, events: seq<Event>)
      requires Valid(View()) && running && phase == InitResponse && job.kind == Upload
      requires f.segmentSize <= 7 && f.expeditedSize <= 4 && |f.body| == 7
      modifies this
      ensures Step(View(), ok, sent, events) == Respond(old(View()), f)
      ensures timerArmed == running
    {
      hide Wire, Fault, EndEvents;
      var fault := JudgeInit(f, ScsUlInitRes);
      if fault.Some? {
        sent, events := Abort(fault.value);
        return false, sent, events;
      }
      sizeIndicated := f.low;
      if f.expedited {
        var size := if sizeIndicated then f.expeditedSize else ExpeditedMax;
        buffer := f.body[3..3 + size];
        status, sent := Ok, [];
        events := OnDone();
      } else {
        sent := RequestUploadSegment();
        events := [];
        phase := SegResponse;
      }
      ok := true;
    }

    method FeedDownloadSegment(f: Fields) returns (ok: bool, sent: seq<CanFrame>, events: seq<Event>)
      requires Valid(View()) && running && phase == SegResponse && job.kind == Download
      modifies this
      ensures Step(View(), ok, sent, events) == Respond(old(View()), f)
      ensures timerArmed == running
    {
      hide Wire, Fault, EndEvents, DlSegment;
      var fault := JudgeSegment(f, ScsDlSegRes, pos >= |buffer|);
      if fault.Some? {
        sent, events := Abort(fault.value);
        return false, sent, events;
      }
      toggled := !toggled;
      if pos >= |buffer| {
        status, sent := Ok, [];
        events := OnDone();
      } else {
        sent := RequestDownloadSegment();
        events := [];
      }
      ok := true;
    }

    method FeedUploadSegment(f: Fields) returns (ok: bool, sent: seq<CanFrame>, events: seq<Event>)
      requires Valid(View()) && running && phase == SegResponse && job.kind == Upload
      requires f.segmentSize <= 7 && f.expeditedSize <= 4 && |f.body| == 7
      modifies this
      ensures Step(View(), ok, sent, events) == Respond(old(View()), f)
      ensures timerArmed == running
    {
      hide Wire, Fault, EndEvents;
      var fault := JudgeSegment(f, ScsUlSegRes, f.low);
      if fault.Some? {
        sent, events := Abort(fault.value);
        return false, sent, events;
      }
      toggled := !toggled;
      buffer := buffer + f.body[..f.segmentSize];
      if f.low {
        status, sent := Ok, [];
        events := OnDone();
      } else {
        sent := RequestUploadSegment();
        events := [];
      }
      ok := true;
    }

    /** The start state is never met here, so the machine's `abort()` is dead code. */
    method FeedFrame(cf: CanFrame) returns (ok: bool, sent: seq<CanFrame>, events: seq<Event>)
      requires Good()
      modifies this
      ensures Step(View(), ok, sent, events) == Feed(old(View()), cf)
      ensures Good()
    {
      hide Wire, Read, Fault, EndEvents;
      if !running { return false, [], []; }
      var f := Read(cf);
      timerArmed := false;
      if f.cs == CsAbort {
        status, abortCode := RemoteAbort, f.code;
        events := OnDone();
        return true, [], events;
      }
      match phase
      case InitResponse =>
        if job.kind == Download {
          ok, sent, events := FeedInitDownload(f);
        } else {
          ok, sent, events := FeedInitUpload(f);
        }
      case SegResponse =>
        if job.kind == Download {
          ok, sent, events := FeedDownloadSegment(f);
        } else {
          ok, sent, events := FeedUploadSegment(f);
        }
      case StartPhase =>
        assert false;
    }
  }
}
