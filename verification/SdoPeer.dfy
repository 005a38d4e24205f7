/** The client against any peer: what it sends, when it stops, and that each
    transaction it accepts is accounted for once. */
module SdoPeer {
  import opened Common
  import opened SdoFrame
  import opened SdoClient
  import SdoRuns

  // ------------------------------------------------------ a download's script

  /** The segments of `data` from `p` on, alternating the toggle, the last one marked. */
  function Segments(q: Quirks, data: seq<bv8>, p: nat, toggled: bool): seq<CanFrame>
    requires p <= |data|
    decreases |data| - p
  {
    if p == |data| then []
    else [Wire(q, DlSegment(data, p, toggled))] + Segments(q, data, SegmentEnd(data, p), !toggled)
  }

  /** Every frame of a download that is never interrupted. */
  function Script(q: Quirks, m: Mux, data: seq<bv8>): seq<CanFrame> {
    [Wire(q, ReqDownload(m, data))] + (if |data| <= ExpeditedMax then [] else Segments(q, data, 0, false))
  }

  lemma {:induction false} SegmentsCount(q: Quirks, data: seq<bv8>, p: nat, toggled: bool)
    requires p <= |data|
    ensures |Segments(q, data, p, toggled)| == (|data| - p + 6) / 7
    decreases |data| - p
  {
    hide Wire;
    if p < |data| { SegmentsCount(q, data, SegmentEnd(data, p), !toggled); }
  }

  /** What a receiver that reads the size field of each segment puts together. */
  function Payload(fs: seq<CanFrame>): seq<bv8> {
    if fs == [] then [] else Read(fs[0]).body[..Read(fs[0]).segmentSize] + Payload(fs[1..])
  }

  lemma {:induction false} SegmentFields(q: Quirks, data: seq<bv8>, p: nat, toggled: bool)
    requires p < |data|
    ensures var f, end := Read(Wire(q, DlSegment(data, p, toggled))), SegmentEnd(data, p);
      f.cs == CcsDlSegReq && f.toggled == toggled && f.low == (end == |data|)
      && f.body[..f.segmentSize] == data[p..end]
  {
    hide EncodeRequest, Read;
    var r := DlSegment(data, p, toggled);
    RequestReadBack(r);
    PaddedReadBack(EncodeRequest(r));
  }

  /** The segments carry the data, alternate the toggle, and mark the last and only
      the last. */
  lemma {:induction false} SegmentsLook(q: Quirks, data: seq<bv8>, p: nat, toggled: bool)
    requires p <= |data|
    ensures var fs := Segments(q, data, p, toggled);
      forall i :: 0 <= i < |fs| ==>
        && Read(fs[i]).cs == CcsDlSegReq
        && Read(fs[i]).low == (i == |fs| - 1)
        && Read(fs[i]).toggled == (toggled == (i % 2 == 0))
    decreases |data| - p
  {
    hide Wire, Read, DlSegment;
    if p < |data| {
      var end, fs := SegmentEnd(data, p), Segments(q, data, p, toggled);
      SegmentFields(q, data, p, toggled);
      SegmentsLook(q, data, end, !toggled);
      SegmentsCount(q, data, end, !toggled);
      assert fs[1..] == Segments(q, data, end, !toggled);
      forall i | 0 < i < |fs|
        ensures Read(fs[i]).cs == CcsDlSegReq && Read(fs[i]).low == (i == |fs| - 1)
          && Read(fs[i]).toggled == (toggled == (i % 2 == 0))
      {
        assert fs[i] == fs[1..][i - 1];
      }
    }
  }

  lemma {:induction false} SegmentsPayload(q: Quirks, data: seq<bv8>, p: nat, toggled: bool)
    requires p <= |data|
    ensures Payload(Segments(q, data, p, toggled)) == data[p..]
    decreases |data| - p
  {
    hide Wire, Read, DlSegment;
    if p < |data| {
      var end, fs := SegmentEnd(data, p), Segments(q, data, p, toggled);
      SegmentFields(q, data, p, toggled);
      SegmentsPayload(q, data, end, !toggled);
      assert fs[1..] == Segments(q, data, end, !toggled);
      assert data[p..] == data[p..end] + data[end..];
    }
  }

  /** The data cut into segments: every byte once and in order, the toggle
      alternating, the last segment and no other marked as last. */
  lemma {:induction false} SegmentsCarry(q: Quirks, data: seq<bv8>, p: nat, toggled: bool)
    requires p <= |data|
    ensures var fs := Segments(q, data, p, toggled);
      && Payload(fs) == data[p..]
      && forall i :: 0 <= i < |fs| ==>
           && Read(fs[i]).cs == CcsDlSegReq
           && Read(fs[i]).low == (i == |fs| - 1)
           && Read(fs[i]).toggled == (toggled == (i % 2 == 0))
  {
    SegmentsPayload(q, data, p, toggled);
    SegmentsLook(q, data, p, toggled);
  }

  // ------------------------------------------------------------ any peer

  datatype Log = Log(client: Client, sent: seq<CanFrame>)

  ghost function FeedAll(l: Log, fs: seq<CanFrame>): Log
    requires Valid(l.client)
    decreases |fs|
  {
    if fs == [] then l
    else
      var t := Feed(l.client, fs[0]);
      SdoRuns.FeedKeepsValid(l.client, fs[0]);
      FeedAll(Log(t.next, l.sent + t.sent), fs[1..])
  }

  /** What a waiting download has yet to send. */
  ghost function Rest(c: Client): seq<CanFrame>
    requires Valid(c) && c.running && c.job.kind == Download
  {
    if c.phase == InitResponse then
      if |c.buffer| <= ExpeditedMax then [] else Segments(c.quirks, c.buffer, 0, c.toggled)
    else Segments(c.quirks, c.buffer, c.pos, !c.toggled)
  }

  /** How a download stands after frames from anyone: what was sent is a prefix of
      the script, all of it if the client ended with OK; a local abort adds its own
      frame and nothing else. */
  ghost predicate OnScript(l: Log, script: seq<CanFrame>) {
    var c := l.client;
    && Valid(c) && c.job.kind == Download
    && if c.running then l.sent + Rest(c) == script && |l.sent| > 0
       else if c.status == Ok then l.sent == script
       else if c.status == RemoteAbort then l.sent <= script
       else
         && c.status == LocalAbort && |l.sent| > 0
         && l.sent[..|l.sent| - 1] <= script
         && l.sent[|l.sent| - 1] == Wire(c.quirks, ReqAbort(c.job.mux, c.code))
  }

  lemma {:induction false} OnScriptStep(l: Log, script: seq<CanFrame>, f: CanFrame)
    requires OnScript(l, script) && l.client.running
    ensures var t := Feed(l.client, f); var n := Log(t.next, l.sent + t.sent);
      && OnScript(n, script)
      && (n.client.running ==> |n.sent| == |l.sent| + 1)
      && (n.client.status == Ok && !n.client.running ==> Rest(l.client) == [])
  {
    hide Wire, Feed, Segments;
    var c, t := l.client, Feed(l.client, f);
    SdoRuns.FeedKeepsValid(c, f);
    DownloadStep(c, f);
    if t.next.running {
      assert l.sent + Rest(c) == (l.sent + t.sent) + Rest(t.next);
    } else if t.next.status == LocalAbort {
      assert (l.sent + t.sent)[..|l.sent|] == l.sent;
    } else {
      assert l.sent + t.sent == l.sent;
      assert l.sent + [] == l.sent;
    }
  }

  /** What a waiting download does with one frame, whoever sent it. */
  ghost predicate Proceeds(c: Client, t: Step)
    requires Valid(c) && c.running && c.job.kind == Download
  {
    var d := t.next;
    && d.quirks == c.quirks && d.job == c.job && Valid(d)
    && if d.running then |t.sent| == 1 && Rest(c) == t.sent + Rest(d)
       else if d.status == Ok then t.sent == [] && Rest(c) == []
       else if d.status == RemoteAbort then t.sent == []
       else d.status == LocalAbort && t.sent == [Wire(d.quirks, ReqAbort(d.job.mux, d.code))]
  }

  lemma {:induction false} AdvanceProceeds(c: Client)
    requires Valid(c) && c.running && c.job.kind == Download
    ensures Proceeds(c, AdvanceDownload(c))
  {
    hide Wire, EndEvents, DlSegment, Segments;
    if c.phase == InitResponse {
      if |c.buffer| > ExpeditedMax { SendProceeds(c, c); }
    } else {
      FirstSegment(c.quirks, c.buffer, c.pos, !c.toggled);
      if c.pos < |c.buffer| { SendProceeds(c, c.(toggled := !c.toggled)); }
    }
  }

  /** The segment sent is the first of the rest. */
  lemma {:induction false} SendProceeds(c: Client, d: Client)
    requires Valid(c) && c.running && c.job.kind == Download && c.pos < |c.buffer|
    requires if c.phase == InitResponse then d == c && |c.buffer| > ExpeditedMax else d == c.(toggled := !c.toggled)
    ensures Proceeds(c, SendSegment(d))
  {
    hide Wire, EndEvents, DlSegment, Segments, SegmentEnd;
    FirstSegment(c.quirks, c.buffer, c.pos, d.toggled);
  }

  lemma {:induction false} FirstSegment(q: Quirks, data: seq<bv8>, p: nat, toggled: bool)
    requires p <= |data|
    ensures p < |data| ==>
      Segments(q, data, p, toggled)
      == [Wire(q, DlSegment(data, p, toggled))] + Segments(q, data, SegmentEnd(data, p), !toggled)
    ensures p == |data| ==> Segments(q, data, p, toggled) == []
  {
    hide Wire;
  }

  lemma {:induction false} DownloadStep(c: Client, f: CanFrame)
    requires Valid(c) && c.running && c.job.kind == Download
    ensures Proceeds(c, Feed(c, f))
  {
    hide Wire, Read, Fault, EndEvents, AdvanceDownload, Rest;
    AdvanceProceeds(c);
  }

  lemma {:induction false} OnScriptRun(l: Log, script: seq<CanFrame>, fs: seq<CanFrame>)
    requires OnScript(l, script)
    ensures var r := FeedAll(l, fs);
      && OnScript(r, script)
      && (r.client.running ==> l.client.running && |r.sent| == |l.sent| + |fs|)
    decreases |fs|
  {
    hide Wire, Read, Rest;
    if fs != [] {
      var t := Feed(l.client, fs[0]);
      SdoRuns.FeedKeepsValid(l.client, fs[0]);
      if l.client.running {
        OnScriptStep(l, script, fs[0]);
      } else {
        SdoRuns.IdleFeed(l.client, fs[0]);
        assert l.sent + [] == l.sent;
      }
      OnScriptRun(Log(t.next, l.sent + t.sent), script, fs[1..]);
    }
  }

  /** A download against any peer: whatever frames arrive, the client sends its
      script in order, and after as many frames as the script has it has ended. */
  lemma {:induction false} DownloadAgainstAnyPeer(c: Client, info: Info, fs: seq<CanFrame>)
    requires Valid(c) && !c.running && info.job.kind == Download
    ensures var t := Start(c, info);
      var r := FeedAll(Log(t.next, t.sent), fs);
      var script := Script(c.quirks, info.job.mux, info.data);
      && OnScript(r, script)
      && (r.client.running ==> r.sent <= script && |r.sent| == 1 + |fs|)
      && (|fs| >= SdoRuns.TripCount(|info.data|) ==> !r.client.running)
  {
    hide Wire, FeedAll;
    var t := Start(c, info);
    var l := Log(t.next, t.sent);
    var script := Script(c.quirks, info.job.mux, info.data);
    assert Rest(l.client) == script[1..];
    OnScriptRun(l, script, fs);
    SegmentsCount(c.quirks, info.data, 0, false);
    var r := FeedAll(l, fs);
    if r.client.running { assert r.sent == script[..|r.sent|]; }
  }

  // ------------------------------------------------------- an upload, any peer

  /** The frames an upload accepts: the response that announces segments, segments
      alternating the toggle, one marked last, or an expedited response. */
  predicate Opens(c: Client, f: Fields) {
    f.dlc >= 4 && f.cs == ScsUlInitRes && (c.quirks.ignoreMux || f.mux == c.job.mux)
  }

  predicate Continues(f: Fields, toggled: bool) {
    f.dlc >= 1 && f.cs == ScsUlSegRes && !f.low && f.toggled == toggled
  }

  predicate Closes(f: Fields) { f.dlc >= 1 && f.cs == ScsUlSegRes && f.low }

  /** An announcement and unmarked segments in step, so far. */
  ghost predicate Flows(c: Client, fs: seq<CanFrame>) {
    fs != [] ==>
      && Opens(c, Read(fs[0])) && !Read(fs[0]).expedited
      && forall i :: 1 <= i < |fs| ==> Continues(Read(fs[i]), i % 2 == 0)
  }

  /** The transfer is complete with the k-th frame, which is expedited or marked last. */
  ghost predicate CompletesAt(c: Client, fs: seq<CanFrame>, k: nat) {
    && k < |fs| && Flows(c, fs[..k])
    && if k == 0 then Opens(c, Read(fs[0])) && Read(fs[0]).expedited else Closes(Read(fs[k]))
  }

  /** The bytes it then holds. */
  ghost function Carried(fs: seq<CanFrame>, k: nat): seq<bv8>
    requires k < |fs|
  {
    if k == 0 then
      var f := Read(fs[0]);
      f.body[3..3 + if f.low then f.expeditedSize else ExpeditedMax]
    else Payload(fs[1..k + 1])
  }

  /** How an upload stands after frames from anyone. */
  ghost predicate OnFlow(c: Client, fs: seq<CanFrame>) {
    && Valid(c) && c.job.kind == Upload
    && (c.running <==> Flows(c, fs))
    && (c.running ==>
          if fs == [] then c.phase == InitResponse && c.buffer == [] && !c.toggled
          else c.phase == SegResponse && c.buffer == Payload(fs[1..]) && c.toggled == (|fs| % 2 == 0))
    && (!c.running ==>
          && c.status in {Ok, LocalAbort, RemoteAbort}
          && (c.status == Ok <==> exists k :: CompletesAt(c, fs, k))
          && forall k :: CompletesAt(c, fs, k) ==> c.buffer == Carried(fs, k))
  }

  lemma {:induction false} PayloadSnoc(fs: seq<CanFrame>, f: CanFrame)
    ensures Payload(fs + [f]) == Payload(fs) + Read(f).body[..Read(f).segmentSize]
    decreases |fs|
  {
    hide Read;
    if fs == [] {
      assert [f][1..] == [];
    } else {
      assert (fs + [f])[1..] == fs[1..] + [f];
      PayloadSnoc(fs[1..], f);
    }
  }

  lemma {:induction false} FlowsSnoc(c: Client, fs: seq<CanFrame>, f: CanFrame)
    ensures Flows(c, fs + [f]) <==>
      && Flows(c, fs)
      && if fs == [] then Opens(c, Read(f)) && !Read(f).expedited else Continues(Read(f), |fs| % 2 == 0)
  {
    hide Read, Opens, Continues;
    var g := fs + [f];
    if Flows(c, g) && fs != [] {
      assert g[0] == fs[0] && g[|fs|] == f;
      forall i | 1 <= i < |fs| ensures Continues(Read(fs[i]), i % 2 == 0) { assert g[i] == fs[i]; }
    }
    if Flows(c, fs) && fs != [] && Continues(Read(f), |fs| % 2 == 0) {
      forall i | 1 <= i < |g| ensures Continues(Read(g[i]), i % 2 == 0) {
        if i < |fs| { assert g[i] == fs[i]; }
      }
    }
  }

  lemma {:induction false} CompletesSnoc(c: Client, fs: seq<CanFrame>, f: CanFrame, k: nat)
    ensures k < |fs| ==> (CompletesAt(c, fs + [f], k) <==> CompletesAt(c, fs, k))
    ensures k < |fs| ==> Carried(fs + [f], k) == Carried(fs, k)
    ensures CompletesAt(c, fs + [f], |fs|) <==>
      Flows(c, fs) && if fs == [] then Opens(c, Read(f)) && Read(f).expedited else Closes(Read(f))
  {
    hide Read, Flows, Opens, Closes;
    var g := fs + [f];
    assert g[..|fs|] == fs;
    if k < |fs| {
      assert g[..k] == fs[..k] && g[k] == fs[k] && g[0] == fs[0];
      assert k > 0 ==> g[1..k + 1] == fs[1..k + 1];
    }
  }

  /** A flow that goes on has not been completed. */
  lemma {:induction false} FlowNotComplete(c: Client, fs: seq<CanFrame>, k: nat)
    requires Flows(c, fs)
    ensures !CompletesAt(c, fs, k)
  {
  }

  /** What one frame does to an upload that is under way. */
  lemma {:induction false} UploadStep(c: Client, cf: CanFrame)
    requires Valid(c) && c.running && c.job.kind == Upload
    ensures var f, t := Read(cf), Feed(c, cf); var d := t.next;
      && Valid(d) && d.job == c.job && d.quirks == c.quirks
      && if c.phase == InitResponse then
           && (d.running <==> Opens(c, f) && !f.expedited)
           && (d.running ==> d.phase == SegResponse && d.toggled == c.toggled && d.buffer == c.buffer)
           && (d.running || d.status == Ok ==> d.sizeIndicated == f.low)
           && (!d.running ==> d.status in {Ok, LocalAbort, RemoteAbort})
           && (!d.running ==> (d.status == Ok <==> Opens(c, f) && f.expedited))
           && (!d.running && d.status == Ok ==>
                 d.buffer == f.body[3..3 + if f.low then f.expeditedSize else ExpeditedMax])
         else
           && (d.running <==> Continues(f, c.toggled))
           && (d.running ==> d.phase == SegResponse && d.toggled == !c.toggled)
           && (!d.running ==> d.status in {Ok, LocalAbort, RemoteAbort})
           && (!d.running ==> (d.status == Ok <==> Closes(f)))
           && (d.running || d.status == Ok ==> d.buffer == c.buffer + f.body[..f.segmentSize])
  {
    hide Wire, Read, EndEvents;
  }

  lemma {:induction false} OnFlowStep(c: Client, fs: seq<CanFrame>, f: CanFrame)
    requires OnFlow(c, fs)
    ensures OnFlow(Feed(c, f).next, fs + [f])
  {
    hide Wire, Read, Feed, Flows, CompletesAt, Opens, Continues, Closes, Carried;
    var d, g := Feed(c, f).next, fs + [f];
    FlowsSnoc(c, fs, f);
    CompletesSnoc(c, fs, f, |fs|);
    forall k: nat
      ensures k < |fs| ==> (CompletesAt(c, g, k) <==> CompletesAt(c, fs, k)) && Carried(g, k) == Carried(fs, k)
    {
      CompletesSnoc(c, fs, f, k);
    }
    forall k: nat ensures CompletesAt(c, g, k) ==> k < |g| { CompletesInside(c, g, k); }
    forall k: nat ensures CompletesAt(c, fs, k) ==> k < |fs| { CompletesInside(c, fs, k); }
    if c.running {
      UploadStep(c, f);
      SameFlow(c, d, g);
      if fs != [] {
        assert g[1..] == fs[1..] + [f];
        PayloadSnoc(fs[1..], f);
      }
      CarriedLast(fs, f);
      forall k: nat ensures !CompletesAt(c, fs, k) { FlowNotComplete(c, fs, k); }
      if !d.running { assert d.status == Ok <==> CompletesAt(d, g, |fs|); }
    } else {
      SdoRuns.IdleFeed(c, f);
      NoFlowNoMore(c, fs);
      assert c.status == Ok ==> exists k :: CompletesAt(c, g, k) by {
        if k :| CompletesAt(c, fs, k) { assert CompletesAt(c, g, k); }
      }
    }
  }

  lemma {:induction false} NoFlowNoMore(c: Client, fs: seq<CanFrame>)
    requires !Flows(c, fs)
    ensures fs != []
  {
  }

  lemma {:induction false} CompletesInside(c: Client, fs: seq<CanFrame>, k: nat)
    ensures CompletesAt(c, fs, k) ==> k < |fs|
  {
  }

  lemma {:induction false} CarriedLast(fs: seq<CanFrame>, f: CanFrame)
    ensures var g, r := fs + [f], Read(f);
      Carried(g, |fs|) ==
      if fs == [] then r.body[3..3 + if r.low then r.expeditedSize else ExpeditedMax]
      else Payload(fs[1..]) + r.body[..r.segmentSize]
  {
    hide Read;
    var g := fs + [f];
    if fs != [] {
      assert g[1..|fs| + 1] == fs[1..] + [f];
      PayloadSnoc(fs[1..], f);
    }
  }

  lemma {:induction false} SameFlow(c: Client, d: Client, fs: seq<CanFrame>)
    requires d.job == c.job && d.quirks == c.quirks
    ensures Flows(c, fs) == Flows(d, fs) && forall k :: CompletesAt(c, fs, k) == CompletesAt(d, fs, k)
  {
    hide Read;
  }

  lemma {:induction false} FeedAllSnoc(l: Log, fs: seq<CanFrame>, f: CanFrame)
    requires Valid(l.client)
    ensures Valid(FeedAll(l, fs).client)
    ensures var r := FeedAll(l, fs); var t := Feed(r.client, f);
      FeedAll(l, fs + [f]) == Log(t.next, r.sent + t.sent)
    decreases |fs|
  {
    hide Wire, Feed;
    if fs == [] {
      assert (fs + [f])[1..] == [];
      SdoRuns.FeedKeepsValid(l.client, f);
    } else {
      assert (fs + [f])[1..] == fs[1..] + [f];
      var t := Feed(l.client, fs[0]);
      SdoRuns.FeedKeepsValid(l.client, fs[0]);
      FeedAllSnoc(Log(t.next, l.sent + t.sent), fs[1..], f);
    }
  }

  /** An upload against any peer: for every sequence of frames, the client goes on exactly
      as long as they are an announcement and unmarked segments in step, and then holds
      their payloads; it ends with OK exactly if they are completed by a segment marked
      last or by an expedited response, and then holds exactly what they carried. */
  lemma {:induction false} UploadAgainstAnyPeer(c: Client, info: Info, fs: seq<CanFrame>)
    requires Valid(c) && !c.running && info.job.kind == Upload
    ensures var t := Start(c, info);
      OnFlow(FeedAll(Log(t.next, t.sent), fs).client, fs)
    decreases |fs|
  {
    hide Wire, Feed, FeedAll, Payload;
    var t := Start(c, info);
    var l := Log(t.next, t.sent);
    if fs == [] {
      assert FeedAll(l, fs) == l by { FeedNothing(l); }
    } else {
      var n := |fs| - 1;
      UploadAgainstAnyPeer(c, info, fs[..n]);
      FeedAllSnoc(l, fs[..n], fs[n]);
      OnFlowStep(FeedAll(l, fs[..n]).client, fs[..n], fs[n]);
      assert fs[..n] + [fs[n]] == fs;
    }
  }

  lemma {:induction false} FeedNothing(l: Log)
    requires Valid(l.client)
    ensures FeedAll(l, []) == l
  {
  }

  // ---------------------------------------------------- every transaction once

  datatype Op = StartOp(info: Info) | FeedOp(frame: CanFrame) | ExpireOp | StopOp

  /** An accepted transaction and how often its user was told and its context freed. */
  datatype Account = Account(job: Job, dones: nat, frees: nat)

  datatype Book = Book(client: Client, accounts: seq<Account>)

  function CountDone(es: seq<Event>, context: nat): nat {
    if es == [] then 0
    else (if es[0].Done? && es[0].context == context then 1 else 0) + CountDone(es[1..], context)
  }

  function CountFreed(es: seq<Event>, context: nat): nat {
    if es == [] then 0
    else (if es[0] == Freed(context) then 1 else 0) + CountFreed(es[1..], context)
  }

  ghost function Call(c: Client, op: Op): (t: Step)
    requires Valid(c)
    ensures Valid(t.next)
  {
    match op
    case StartOp(info) => Start(c, info)
    case FeedOp(f) => SdoRuns.FeedKeepsValid(c, f); Feed(c, f)
    case ExpireOp => if c.running then Timeout(c) else Step(c, false, [], [])
    case StopOp => Stop(c)
  }

  /** A call opens an account when it starts a transaction; what it runs of the
      user's functions is booked on the account in progress. */
  ghost function Enter(b: Book, op: Op): (r: Book)
    requires Valid(b.client)
    ensures Valid(r.client)
  {
    var t := Call(b.client, op);
    if op.StartOp? && t.ok then Book(t.next, b.accounts + [Account(op.info.job, 0, 0)])
    else if b.accounts == [] then Book(t.next, [])
    else
      var k := |b.accounts| - 1;
      var a := b.accounts[k];
      Book(t.next, b.accounts[k := a.(dones := a.dones + CountDone(t.events, a.job.context),
                                       frees := a.frees + CountFreed(t.events, a.job.context))])
  }

  ghost function EnterAll(b: Book, ops: seq<Op>): (r: Book)
    requires Valid(b.client)
    ensures Valid(r.client)
    decreases |ops|
  {
    if ops == [] then b else EnterAll(Enter(b, ops[0]), ops[1..])
  }

  ghost predicate Closed(a: Account) {
    && a.frees == (if a.job.context != 0 && a.job.freeing then 1 else 0)
    && a.dones <= (if a.job.notify then 1 else 0)
  }

  /** Everything but a transaction in progress is settled: its context freed exactly
      once, its user told at most once; the one in progress has neither. */
  ghost predicate Balanced(b: Book) {
    && Valid(b.client)
    && (b.client.running ==>
          |b.accounts| > 0 && b.accounts[|b.accounts| - 1] == Account(b.client.job, 0, 0))
    && forall i :: 0 <= i < |b.accounts| - (if b.client.running then 1 else 0) ==> Closed(b.accounts[i])
  }

  /** A step of a running transaction runs nothing, or ends it with a final status,
      `on_done` and the free. */
  ghost predicate EndsProperly(c: Client, t: Step) {
    var d := t.next;
    && d.job == c.job && (c.job.kind == Download ==> d.buffer == c.buffer)
    && t.events == (if d.running then [] else EndEvents(d))
    && (!d.running ==> d.status in {Ok, LocalAbort, RemoteAbort})
  }

  lemma {:induction false} DownloadEnds(c: Client)
    requires Valid(c) && c.running && c.job.kind == Download
    ensures EndsProperly(c, AdvanceDownload(c))
  {
    hide Wire, EndEvents, DlSegment, SegmentEnd;
  }

  lemma {:induction false} UploadEnds(c: Client, f: Fields)
    requires Valid(c) && c.running && c.job.kind == Upload
    requires f.segmentSize <= 7 && f.expeditedSize <= 4 && |f.body| == 7
    ensures EndsProperly(c, AdvanceUpload(c, f))
  {
    hide Wire, EndEvents;
  }

  lemma {:induction false} FeedEvents(c: Client, f: CanFrame)
    requires Valid(c) && c.running
    ensures EndsProperly(c, Feed(c, f))
  {
    hide Wire, Read, Fault, EndEvents, AdvanceDownload, AdvanceUpload;
    if c.job.kind == Download { DownloadEnds(c); } else { UploadEnds(c, Read(f)); }
  }

  /** The user's functions a call can run: none while the transaction goes on; at its
      end `on_done` at most once and then the free, of the transaction in progress. */
  lemma {:induction false} CallEvents(c: Client, op: Op)
    requires Valid(c)
    ensures var t := Call(c, op); var d := t.next;
      && (t.next.running || !c.running ==> t.events == [])
      && (op.StartOp? ==> t.ok == !c.running && t.events == [])
      && (op.StartOp? && t.ok ==> t.next.running && t.next.job == op.info.job)
      && (op.StopOp? ==> t.ok == c.running && t.next == c.(running := false) && t.sent == [])
      && (!(op.StartOp? && t.ok) ==> t.next.job == c.job && (t.next.running ==> c.running))
      && (c.running && !t.next.running ==>
            t.events == (if c.job.notify && !op.StopOp? then [Done(c.job.context, d.status, d.code, d.buffer)] else [])
                        + FreeEvents(c))
  {
    hide Wire, Feed;
    if op.FeedOp? {
      if c.running { FeedEvents(c, op.frame); } else { SdoRuns.IdleFeed(c, op.frame); }
    }
  }

  lemma {:induction false} BalancedStep(b: Book, op: Op)
    requires Balanced(b)
    ensures Balanced(Enter(b, op))
  {
    hide Wire, Read, Fault, Call;
    CallEvents(b.client, op);
    var t := Call(b.client, op);
    if b.client.running && !t.next.running {
      var j := b.client.job;
      var ds := if j.notify && !op.StopOp? then [Done(j.context, t.next.status, t.next.code, t.next.buffer)] else [];
      EndCounts(ds, FreeEvents(b.client), j);
    }
  }

  lemma {:induction false} EndCounts(ds: seq<Event>, fs: seq<Event>, j: Job)
    requires ds == [] || (|ds| == 1 && ds[0].Done? && ds[0].context == j.context)
    requires fs == [] || fs == [Freed(j.context)]
    ensures CountDone(ds + fs, j.context) == |ds|
    ensures CountFreed(ds + fs, j.context) == |fs|
  {
    var k := j.context;
    assert fs != [] ==> fs[1..] == [];
    assert CountDone(fs, k) == 0 && CountFreed(fs, k) == |fs|;
    assert if ds == [] then ds + fs == fs else (ds + fs)[0] == ds[0] && (ds + fs)[1..] == fs;
  }

  /** Over every sequence of calls, each transaction the client accepts is settled
      exactly once. */
  lemma {:induction false} EveryTransactionOnce(b: Book, ops: seq<Op>)
    requires Balanced(b)
    ensures Balanced(EnterAll(b, ops))
    decreases |ops|
  {
    hide Enter, Balanced;
    if ops != [] {
      assert Valid(b.client) by { BalancedIsValid(b); }
      BalancedStep(b, ops[0]);
      EveryTransactionOnce(Enter(b, ops[0]), ops[1..]);
    }
  }

  lemma {:induction false} BalancedIsValid(b: Book)
    requires Balanced(b)
    ensures Valid(b.client)
  {
  }
}
