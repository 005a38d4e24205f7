/** A queued request from start to finish: the queue, its client and a server at the
    other end of a channel that delivers. */
module SdoEndToEnd {
  import opened Common
  import opened SdoFrame
  import opened SdoClient
  import opened SdoServer
  import opened SdoTurns
  import opened SdoRuns
  import SdoPeer
  import SdoReq

  /** What the queue does in one round trip of its client. */
  ghost function QueueTrip(q: SdoReq.Queue, n: Net, cb: Callbacks): SdoReq.Queue
    requires NetValid(n) && n.client == q.client
  {
    var h := Hear(n, cb);
    if h.toClient == [] then q else SdoReq.Serve(q, Feed(q.client, h.toClient[0]))
  }

  /** The queue follows its client: a running one serves request `id`; of one that has
      ended, the request holds the outcome and an upload's bytes. */
  ghost predicate Tracks(q: SdoReq.Queue, n: Net, id: nat) {
    && SdoReq.Inv(q) && NetValid(n) && q.client == n.client && id in q.reqs && id in q.accepted && id !in q.list
    && (q.client.running ==> q.client.job.context == id)
    && (!q.client.running ==>
          && q.reqs[id].status == q.client.status && q.reqs[id].code == q.client.code
          && (q.reqs[id].kind == Upload ==> q.reqs[id].data == q.client.buffer))
  }

  lemma {:induction false} TripTracks(q: SdoReq.Queue, n: Net, id: nat, cb: Callbacks)
    requires Tracks(q, n, id)
    ensures Tracks(QueueTrip(q, n, cb), Trip(n, cb), id)
    ensures QueueTrip(q, n, cb).reqs[id].kind == q.reqs[id].kind
    ensures QueueTrip(q, n, cb).reqs[id].notify == q.reqs[id].notify
  {
    hide Wire, Read, Serves, Feed, SdoReq.Inv;
    var h := Hear(n, cb);
    if h.toClient != [] {
      var f := h.toClient[0];
      SdoReq.FeedKeeps(q, f);
      if q.client.running {
        SdoPeer.FeedEvents(q.client, f);
        Outcome(q, Feed(q.client, f), id);
      } else {
        IdleFeed(q.client, f);
        SdoReq.ServeNothing(q, false);
      }
    }
  }

  /** The end of the client's transaction reaches the request. */
  lemma {:induction false} Outcome(q: SdoReq.Queue, t: Step, id: nat)
    requires SdoReq.Inv(q) && q.client.running && q.client.job.context == id && t.next.job == q.client.job
    requires t.events == (if t.next.running then [] else EndEvents(t.next))
    requires !t.next.running ==> t.next.status in {Ok, LocalAbort, RemoteAbort}
    ensures var r := SdoReq.Serve(q, t);
      && r == q.(client := t.next, reqs := r.reqs) && id in r.reqs
      && r.reqs[id].kind == q.reqs[id].kind && r.reqs[id].notify == q.reqs[id].notify
      && (!t.next.running ==>
            && r.reqs[id].status == t.next.status && r.reqs[id].code == t.next.code
            && (r.reqs[id].kind == Upload ==> r.reqs[id].data == t.next.buffer))
  {
    hide EndEvents, Valid;
    assert SdoReq.ReqOk(q, id);
    if !t.next.running { SdoReq.EndApplied(q.(client := t.next), t.next, id); }
  }

  ghost function QueueTrips(q: SdoReq.Queue, n: Net, env: seq<Callbacks>, id: nat): (r: SdoReq.Queue)
    requires Tracks(q, n, id)
    ensures Tracks(r, Trips(n, env), id)
    ensures r.reqs[id].kind == q.reqs[id].kind && r.reqs[id].notify == q.reqs[id].notify
    decreases |env|
  {
    if env == [] then q
    else
      TripTracks(q, n, id, env[0]);
      QueueTrips(QueueTrip(q, n, env[0]), Trip(n, env[0]), env[1..], id)
  }

  /** The request at the head of the queue is taken up and its first frame is sent. */
  ghost function TakenUp(q: SdoReq.Queue, s: Server): Net
    requires SdoReq.Inv(q) && !q.client.running && q.list != [] && SrvValid(s)
  {
    SdoReq.HeadIsRequest(q);
    Begin(q.client, s, SdoReq.InfoOf(q.reqs[q.list[0]], q.list[0]))
  }

  lemma {:induction false} ProcessTracks(q: SdoReq.Queue, s: Server)
    requires SdoReq.Inv(q) && !q.client.running && q.list != [] && SrvValid(s)
    ensures q.list[0] in q.reqs && Tracks(SdoReq.Process(q), TakenUp(q, s), q.list[0])
    ensures TakenUp(q, s).toServer == [Wire(q.client.quirks, SdoReq.Opening(q.reqs[q.list[0]]))]
    ensures SdoReq.Process(q).reqs[q.list[0]].kind == q.reqs[q.list[0]].kind
    ensures SdoReq.Process(q).reqs[q.list[0]].notify == q.reqs[q.list[0]].notify
  {
    hide Wire, SdoReq.ReqOk;
    SdoReq.ProcessKeeps(q);
    SdoReq.HeadIsRequest(q);
    assert q.list[0] in q.accepted && q.list[0] !in q.list[1..] by { SdoReq.ProcessOrder(q); }
  }

  /** The server comes to know a request by the request's own index. */
  lemma {:induction false} AskedUnderItsIndex(q: SdoReq.Queue, s: Server, cb: Callbacks)
    requires SdoReq.Inv(q) && !q.client.running && q.list != [] && SrvValid(s)
    ensures q.list[0] in q.reqs && Trip(TakenUp(q, s), cb).server.mux == q.reqs[q.list[0]].mux
  {
    hide Wire, Trip, Current, Remaining, Refusal;
    SdoReq.HeadIsRequest(q);
    var id := q.list[0];
    BeginAsks(q.client, s, SdoReq.InfoOf(q.reqs[id], id));
    TripStep(TakenUp(q, s), 0, cb);
  }

  /** An upload request at the head of the queue, with a server that serves it: after
      the round trips its length takes, its data is the server's, its status OK, its
      user told exactly once, and the queue holds it no more. */
  lemma {:induction false} UploadRequest(q: SdoReq.Queue, s: Server, env: seq<Callbacks>)
    requires SdoReq.Inv(q) && !q.client.running && q.list != [] && SrvValid(s)
    requires q.list[0] in q.reqs && q.reqs[q.list[0]].kind == Upload
    requires |env| >= 1 && env[0].onInit.Serve? && |env| == TripCount(|env[0].onInit.data|)
    requires env[|env| - 1].onDone.None?
    ensures var id := q.list[0];
      && Tracks(SdoReq.Process(q), TakenUp(q, s), id)
      && var r := QueueTrips(SdoReq.Process(q), TakenUp(q, s), env, id); var x := r.reqs[id];
      && !r.client.running && x.status == Ok && x.data == Uploaded(env[0].onInit.data)
      && Trips(TakenUp(q, s), env).server.mux == q.reqs[id].mux
      && x.released == 1 && x.told == (if x.notify then 1 else 0) && x.ref == x.users
  {
    hide Wire, Begin, QueueTrips, Trips, SdoReq.Process;
    var id := q.list[0];
    ProcessTracks(q, s);
    SdoReq.HeadIsRequest(q);
    UploadEndToEnd(q.client, s, SdoReq.InfoOf(q.reqs[id], id), env);
    var r := QueueTrips(SdoReq.Process(q), TakenUp(q, s), env, id);
    assert SdoReq.ReqOk(r, id);
  }

  /** The same for a download: the server has been shown the request's data. */
  lemma {:induction false} DownloadRequest(q: SdoReq.Queue, s: Server, env: seq<Callbacks>)
    requires SdoReq.Inv(q) && !q.client.running && q.list != [] && SrvValid(s)
    requires q.list[0] in q.reqs && q.reqs[q.list[0]].kind == Download
    requires |env| == TripCount(|q.reqs[q.list[0]].data|)
    requires env[0].onInit.Serve? && env[|env| - 1].onDone.None?
    ensures var id := q.list[0]; var was := q.reqs[id];
      && Tracks(SdoReq.Process(q), TakenUp(q, s), id)
      && var r := QueueTrips(SdoReq.Process(q), TakenUp(q, s), env, id); var x := r.reqs[id];
      && !r.client.running && x.status == Ok
      && Trips(TakenUp(q, s), env).notices == [Notice(was.mux, Download, Ok, Downloaded(q.client.quirks, was.data))]
      && x.released == 1 && x.told == (if x.notify then 1 else 0) && x.ref == x.users
  {
    hide Wire, Begin, QueueTrips, Trips, SdoReq.Process;
    var id := q.list[0];
    ProcessTracks(q, s);
    SdoReq.HeadIsRequest(q);
    DownloadEndToEnd(q.client, s, SdoReq.InfoOf(q.reqs[id], id), env);
    var r := QueueTrips(SdoReq.Process(q), TakenUp(q, s), env, id);
    assert SdoReq.ReqOk(r, id);
  }
}
