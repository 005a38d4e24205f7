/** The client's verdict on whatever it hears: for every sequence of frames, from any
    peer, how the conversation stands and what the client has said, read off the fields
    of the frames and nothing else. */
module SdoVerdict {
  import opened Common
  import opened SdoFrame
  import opened SdoClient
  import opened SdoPeer
  import SdoRuns

  // --------------------------------------------------------- single frames

  /** The frame that completes a download is the one the count of segments says; the one
      that completes an upload says so itself. */
  predicate Completes(info: Info, f: Fields, i: nat) {
    if info.job.kind == Download then i + 1 == SdoRuns.TripCount(|info.data|)
    else if i == 0 then f.expedited else f.low
  }

  /** The i-th frame, counting from 0, is the response the client waits for: to the
      initiation, specifier 3 or 2 and its multiplexer; to a segment, specifier 1 or 0 and
      a toggle that starts at 0 and alternates, which the last one is free of. */
  predicate Welcome(q: Quirks, info: Info, f: Fields, i: nat) {
    var download := info.job.kind == Download;
    if i == 0 then
      && f.dlc >= 4 && f.cs == (if download then 3 else 2)
      && (q.ignoreMux || f.mux == info.job.mux)
    else
      && f.dlc >= 1 && f.cs == (if download then 1 else 0)
      && (Completes(info, f, i) || f.toggled == (i % 2 == 0))
  }

  /** The code for a frame that is neither welcome nor an abort: too short, then the
      wrong specifier, then the wrong multiplexer or toggle. */
  function Blame(info: Info, f: Fields, i: nat): bv32 {
    var download := info.job.kind == Download;
    if f.dlc < (if i == 0 then 4 else 1) then 0x0800_0000
    else if i == 0 then if f.cs != (if download then 3 else 2) then 0x0504_0001 else 0x0800_0000
    else if f.cs != (if download then 1 else 0) then 0x0504_0001 else 0x0503_0000
  }

  /** What the client says after `k` welcome frames: its request, and then the segments
      of seven bytes, or the requests for segments, in order and with toggles in step. */
  ghost function Says(info: Info, k: nat): (r: Request)
    requires info.job.kind == Download ==> k < SdoRuns.TripCount(|info.data|)
    ensures Sendable(r)
  {
    var m, d := info.job.mux, info.data;
    if info.job.kind == Download then
      if k == 0 then ReqDownload(m, d)
      else
        var p := 7 * (k - 1);
        ReqDownloadSegment(k % 2 == 0, d[p..Min(p + 7, |d|)], p + 7 >= |d|)
    else if k == 0 then ReqUpload(m) else ReqUploadSegment(k % 2 == 0)
  }

  // -------------------------------------------------------- whole conversations

  /** The first `k` frames are welcome and none of them completes the transfer. */
  ghost predicate UnderWay(q: Quirks, info: Info, fs: seq<CanFrame>, k: nat) {
    k <= |fs| && forall i: nat :: i < k ==> Welcome(q, info, Read(fs[i]), i) && !Completes(info, Read(fs[i]), i)
  }

  /** The k-th frame is the one that ends the transaction. */
  ghost predicate EndsAt(q: Quirks, info: Info, fs: seq<CanFrame>, k: nat) {
    && k < |fs| && UnderWay(q, info, fs, k)
    && (!Welcome(q, info, Read(fs[k]), k) || Completes(info, Read(fs[k]), k))
  }

  /** Everything said up to the answer to the k-th frame. */
  ghost function Said(q: Quirks, info: Info, k: nat): seq<CanFrame>
    requires info.job.kind == Download ==> k < SdoRuns.TripCount(|info.data|)
  {
    (if k == 0 then [] else Said(q, info, k - 1)) + [Wire(q, Says(info, k))]
  }

  /** How a transaction ends with a frame: with OK, with the peer's abort and its code,
      or with an abort of its own that is sent and blames that frame. */
  ghost predicate EndedBy(l: Log, q: Quirks, info: Info, f: Fields, k: nat) {
    && (info.job.kind == Download ==> k < SdoRuns.TripCount(|info.data|))
    && var c, said := l.client, Said(q, info, k);
       if Welcome(q, info, f, k) then c.status == Ok && l.sent == said
       else if f.cs == 4 then c.status == RemoteAbort && c.code == f.code && l.sent == said
       else
         && c.status == LocalAbort && c.code == Blame(info, f, k)
         && l.sent == said + [Wire(q, ReqAbort(info.job.mux, c.code))]
  }

  ghost predicate Waits(l: Log, q: Quirks, info: Info, k: nat) {
    && (info.job.kind == Download ==> k < SdoRuns.TripCount(|info.data|))
    && l.sent == Said(q, info, k)
    && var c := l.client;
    && c.phase == (if k == 0 then InitResponse else SegResponse) && c.toggled == (k > 0 && k % 2 == 0)
    && (info.job.kind == Download ==> c.buffer == info.data && c.pos == Min(7 * k, |info.data|))
  }

  /** How a conversation stands: under way exactly as long as every frame was welcome and
      none completed it, ended by the first of which that is not so. */
  ghost predicate Stands(l: Log, q: Quirks, info: Info, fs: seq<CanFrame>) {
    var c := l.client;
    && Valid(c) && c.quirks == q && c.job == info.job
    && (c.running <==> UnderWay(q, info, fs, |fs|))
    && (c.running ==> Waits(l, q, info, |fs|))
    && (!c.running ==> exists k: nat :: EndsAt(q, info, fs, k) && EndedBy(l, q, info, Read(fs[k]), k))
  }

  lemma {:induction false} MoreTrips(n: nat, k: nat)
    requires k < SdoRuns.TripCount(n)
    ensures k > 0 ==> 7 * (k - 1) < n && n > 4
    ensures k + 1 == SdoRuns.TripCount(n) <==> if k == 0 then n <= 4 else 7 * k >= n
  {
  }

  /** A welcome frame of a download: on to the next segment, or done. */
  lemma {:induction false} DownloadWelcomed(c: Client, q: Quirks, info: Info, sent: seq<CanFrame>, f: Fields, k: nat)
    requires Valid(c) && c.running && c.quirks == q && c.job == info.job && info.job.kind == Download
    requires Waits(Log(c, sent), q, info, k) && Welcome(q, info, f, k)
    ensures var t := Respond(c, f); var l := Log(t.next, sent + t.sent);
      && t.next.quirks == q && t.next.job == info.job
      && if Completes(info, f, k) then !t.next.running && EndedBy(l, q, info, f, k)
         else t.next.running && Waits(l, q, info, k + 1)
  {
    hide Wire, EndEvents;
    MoreTrips(|info.data|, k);
    if !Completes(info, f, k) { MoreTrips(|info.data|, k + 1); }
  }

  /** A welcome frame of an upload. */
  lemma {:induction false} UploadWelcomed(c: Client, q: Quirks, info: Info, sent: seq<CanFrame>, f: Fields, k: nat)
    requires Valid(c) && c.running && c.quirks == q && c.job == info.job && info.job.kind == Upload
    requires Waits(Log(c, sent), q, info, k) && Welcome(q, info, f, k)
    requires f.segmentSize <= 7 && f.expeditedSize <= 4 && |f.body| == 7
    ensures var t := Respond(c, f); var l := Log(t.next, sent + t.sent);
      && t.next.quirks == q && t.next.job == info.job
      && if Completes(info, f, k) then !t.next.running && EndedBy(l, q, info, f, k)
         else t.next.running && Waits(l, q, info, k + 1)
  {
    hide Wire, EndEvents, AdvanceUpload, Said, Waits, EndedBy;
    assert c.phase == (if k == 0 then InitResponse else SegResponse) && c.toggled == (k > 0 && k % 2 == 0)
      && sent == Said(q, info, k) by { UploadWaits(c, q, info, sent, k); }
    assert Fault(c, f) == None;
    UploadAdvances(c, q, info, sent, f, k);
  }

  lemma {:induction false} UploadWaits(c: Client, q: Quirks, info: Info, sent: seq<CanFrame>, k: nat)
    requires info.job.kind == Upload && Waits(Log(c, sent), q, info, k)
    ensures c.phase == (if k == 0 then InitResponse else SegResponse) && c.toggled == (k > 0 && k % 2 == 0)
    ensures sent == Said(q, info, k)
  {
  }

  lemma {:induction false} UploadAdvances(c: Client, q: Quirks, info: Info, sent: seq<CanFrame>, f: Fields, k: nat)
    requires c.running && c.quirks == q && c.job == info.job && info.job.kind == Upload && sent == Said(q, info, k)
    requires c.phase == (if k == 0 then InitResponse else SegResponse) && c.toggled == (k > 0 && k % 2 == 0)
    requires f.segmentSize <= 7 && f.expeditedSize <= 4 && |f.body| == 7 && Welcome(q, info, f, k)
    ensures var t := AdvanceUpload(c, f); var l := Log(t.next, sent + t.sent);
      && t.next.quirks == q && t.next.job == info.job
      && if Completes(info, f, k) then !t.next.running && EndedBy(l, q, info, f, k)
         else t.next.running && Waits(l, q, info, k + 1)
  {
    hide Wire, EndEvents, Welcome;
    assert sent + [] == sent;
  }

  /** An unwelcome frame that is no abort. */
  lemma {:induction false} Unwelcome(c: Client, q: Quirks, info: Info, sent: seq<CanFrame>, f: Fields, k: nat)
    requires Valid(c) && c.running && c.quirks == q && c.job == info.job
    requires Waits(Log(c, sent), q, info, k) && !Welcome(q, info, f, k) && f.cs != 4
    requires f.segmentSize <= 7 && f.expeditedSize <= 4 && |f.body| == 7
    ensures var t := Respond(c, f); var l := Log(t.next, sent + t.sent);
      !t.next.running && t.next.quirks == q && t.next.job == info.job && EndedBy(l, q, info, f, k)
  {
    hide Wire, EndEvents, AdvanceDownload, AdvanceUpload, Said, Says;
    if info.job.kind == Download { MoreTrips(|info.data|, k); }
  }

  lemma {:induction false} Heard(l: Log, q: Quirks, info: Info, cf: CanFrame, k: nat)
    requires var c := l.client; Valid(c) && c.running && c.quirks == q && c.job == info.job
    requires Waits(l, q, info, k)
    ensures var t, f := Feed(l.client, cf), Read(cf); var r := Log(t.next, l.sent + t.sent);
      && Valid(t.next) && t.next.quirks == q && t.next.job == info.job
      && if Welcome(q, info, f, k) && !Completes(info, f, k) then t.next.running && Waits(r, q, info, k + 1)
         else !t.next.running && EndedBy(r, q, info, f, k)
  {
    hide Wire, Read, EndEvents, Respond, Waits, EndedBy, Welcome, Completes;
    var c, f := l.client, Read(cf);
    SdoRuns.FeedKeepsValid(c, cf);
    assert Log(c, l.sent) == l;
    if f.cs == 4 {
      AbortHeard(l, q, info, f, k);
    } else if Welcome(q, info, f, k) {
      if info.job.kind == Download {
        DownloadWelcomed(c, q, info, l.sent, f, k);
      } else {
        UploadWelcomed(c, q, info, l.sent, f, k);
      }
    } else {
      Unwelcome(c, q, info, l.sent, f, k);
    }
  }

  lemma {:induction false} AbortHeard(l: Log, q: Quirks, info: Info, f: Fields, k: nat)
    requires var c := l.client; Valid(c) && c.running && c.quirks == q && c.job == info.job
    requires Waits(l, q, info, k) && f.cs == 4
    ensures !Welcome(q, info, f, k)
    ensures EndedBy(Log(Finish(l.client, RemoteAbort, f.code).next, l.sent + []), q, info, f, k)
  {
    hide Said;
    assert l.sent + [] == l.sent;
  }

  lemma {:induction false} UnderWaySnoc(q: Quirks, info: Info, fs: seq<CanFrame>, f: CanFrame)
    ensures UnderWay(q, info, fs + [f], |fs| + 1) <==>
      UnderWay(q, info, fs, |fs|) && Welcome(q, info, Read(f), |fs|) && !Completes(info, Read(f), |fs|)
    ensures forall k: nat :: k <= |fs| ==> (UnderWay(q, info, fs + [f], k) <==> UnderWay(q, info, fs, k))
  {
    hide Read, Welcome, Completes;
    var g := fs + [f];
    assert g[|fs|] == f && forall i: nat :: i < |fs| ==> g[i] == fs[i];
  }

  lemma {:induction false} StandsStep(l: Log, q: Quirks, info: Info, fs: seq<CanFrame>, f: CanFrame)
    requires Stands(l, q, info, fs)
    ensures var t := Feed(l.client, f); Stands(Log(t.next, l.sent + t.sent), q, info, fs + [f])
  {
    hide Wire, Read, Feed, Welcome, Completes, UnderWay, Waits, EndedBy;
    var g, n := fs + [f], |fs|;
    UnderWaySnoc(q, info, fs, f);
    var t := Feed(l.client, f);
    var r := Log(t.next, l.sent + t.sent);
    if l.client.running {
      Heard(l, q, info, f, n);
      assert g[n] == f;
      if !t.next.running { assert EndsAt(q, info, g, n) && EndedBy(r, q, info, Read(g[n]), n); }
    } else {
      SdoRuns.IdleFeed(l.client, f);
      assert r == l by { assert l.sent + [] == l.sent; }
      var k: nat :| EndsAt(q, info, fs, k) && EndedBy(l, q, info, Read(fs[k]), k);
      assert g[k] == fs[k];
      assert EndsAt(q, info, g, k) && EndedBy(r, q, info, Read(g[k]), k);
    }
  }

  lemma {:induction false} OneEnd(q: Quirks, info: Info, fs: seq<CanFrame>, j: nat, k: nat)
    requires EndsAt(q, info, fs, j) && EndsAt(q, info, fs, k)
    ensures j == k
  {
    hide Read, Welcome, Completes;
  }

  lemma {:induction false} NoEndYet(q: Quirks, info: Info, fs: seq<CanFrame>, k: nat)
    requires UnderWay(q, info, fs, |fs|)
    ensures !EndsAt(q, info, fs, k)
  {
    hide Read, Welcome, Completes;
  }

  lemma {:induction false} StartStands(c: Client, info: Info)
    requires Valid(c) && !c.running
    ensures var t := Start(c, info); Stands(Log(t.next, t.sent), c.quirks, info, [])
  {
    hide Wire;
  }

  lemma {:induction false} ConversationStands(c: Client, info: Info, fs: seq<CanFrame>)
    requires Valid(c) && !c.running
    ensures var t := Start(c, info); Stands(FeedAll(Log(t.next, t.sent), fs), c.quirks, info, fs)
    decreases |fs|
  {
    hide Wire, Feed, FeedAll, Stands, Start;
    var t := Start(c, info);
    assert Valid(t.next) by { StartIsValid(c, info); }
    var l := Log(t.next, t.sent);
    if fs == [] {
      FeedNothing(l);
      StartStands(c, info);
    } else {
      var n := |fs| - 1;
      ConversationStands(c, info, fs[..n]);
      FeedAllSnoc(l, fs[..n], fs[n]);
      StandsStep(FeedAll(l, fs[..n]), c.quirks, info, fs[..n], fs[n]);
      assert fs[..n] + [fs[n]] == fs;
    }
  }

  lemma {:induction false} StartIsValid(c: Client, info: Info)
    requires Valid(c)
    ensures Valid(Start(c, info).next)
  {
    hide Wire;
  }

  /** Any conversation, in either direction, with any peer. The client is still waiting
      if and only if every frame so far was welcome and none completed the transfer, and
      then it has said its requests in order. It has ended with OK if and only if a
      welcome frame completed it. Otherwise the first unwelcome frame ended it: an abort
      with the peer's code, any other with an abort sent for what is wrong with it. */
  lemma {:induction false} AnyConversation(c: Client, info: Info, fs: seq<CanFrame>)
    requires Valid(c) && !c.running
    ensures var t := Start(c, info); var l, q := FeedAll(Log(t.next, t.sent), fs), c.quirks;
      && (l.client.running <==> UnderWay(q, info, fs, |fs|))
      && (l.client.running ==> Waits(l, q, info, |fs|))
      && (!l.client.running <==> exists k: nat :: EndsAt(q, info, fs, k))
      && (forall k: nat :: EndsAt(q, info, fs, k) ==> EndedBy(l, q, info, Read(fs[k]), k))
      && (!l.client.running && l.client.status == Ok
          <==> exists k: nat :: EndsAt(q, info, fs, k) && Welcome(q, info, Read(fs[k]), k))
  {
    hide Wire, Read, FeedAll, Start, Welcome, Completes, UnderWay, Waits, EndedBy;
    ConversationStands(c, info, fs);
    assert Valid(Start(c, info).next) by { StartIsValid(c, info); }
    var t := Start(c, info);
    var l, q := FeedAll(Log(t.next, t.sent), fs), c.quirks;
    if l.client.running {
      forall k: nat ensures !EndsAt(q, info, fs, k) { NoEndYet(q, info, fs, k); }
    } else {
      var e: nat :| EndsAt(q, info, fs, e) && EndedBy(l, q, info, Read(fs[e]), e);
      forall k: nat ensures EndsAt(q, info, fs, k) ==> k == e {
        if EndsAt(q, info, fs, k) { OneEnd(q, info, fs, k, e); }
      }
      OkIsWelcome(l, q, info, Read(fs[e]), e);
    }
  }

  lemma {:induction false} OkIsWelcome(l: Log, q: Quirks, info: Info, f: Fields, k: nat)
    requires EndedBy(l, q, info, f, k)
    ensures l.client.status == Ok <==> Welcome(q, info, f, k)
  {
  }

  /** A timeout ends a conversation that is still under way, wherever it stands, with an
      abort sent for it. */
  lemma {:induction false} ConversationExpires(c: Client, info: Info, fs: seq<CanFrame>)
    requires Valid(c) && !c.running && UnderWay(c.quirks, info, fs, |fs|)
    ensures var t := Start(c, info); var l := FeedAll(Log(t.next, t.sent), fs);
      && l.client.running
      && var x := Timeout(l.client);
      && !x.next.running && x.next.status == LocalAbort && x.next.code == 0x0504_0000
      && x.sent == [Wire(c.quirks, ReqAbort(info.job.mux, 0x0504_0000))]
  {
    hide Wire, FeedAll, Start, UnderWay, Waits;
    assert Valid(Start(c, info).next) by { StartIsValid(c, info); }
    ConversationStands(c, info, fs);
  }

  /** One frame changes status and code only by ending the transaction, and the code not
      even then if it ends with OK. */
  lemma {:induction false} CodeKept(c: Client, cf: CanFrame)
    requires Valid(c) && c.running
    ensures var d := Feed(c, cf).next;
      (d.running ==> d.status == c.status && d.code == c.code) && (d.status == Ok ==> d.code == c.code)
  {
    hide Wire, Read, Fault, EndEvents, DlSegment, SegmentEnd;
  }

  /** Nothing resets the code: a transaction that ends with OK shows its user the one that
      the machine was left with by an earlier transaction. */
  lemma {:induction false} CodeIsLeftBehind(c: Client, info: Info, fs: seq<CanFrame>)
    requires Valid(c) && !c.running
    ensures var t := Start(c, info); var d := FeedAll(Log(t.next, t.sent), fs).client;
      && (d.running ==> d.status == c.status && d.code == c.code)
      && (!d.running && d.status == Ok ==> d.code == c.code)
    decreases |fs|
  {
    hide Wire, Feed, FeedAll;
    var t := Start(c, info);
    var l := Log(t.next, t.sent);
    if fs == [] {
      FeedNothing(l);
    } else {
      var n := |fs| - 1;
      CodeIsLeftBehind(c, info, fs[..n]);
      FeedAllSnoc(l, fs[..n], fs[n]);
      assert fs[..n] + [fs[n]] == fs;
      var d := FeedAll(l, fs[..n]).client;
      if d.running { CodeKept(d, fs[n]); } else { SdoRuns.IdleFeed(d, fs[n]); }
    }
  }
}
