/** What the server's user is told over a channel that may lose any frame, while the
    client may give up at any moment. */
module SdoLossy {
  import opened Common
  import opened SdoFrame
  import opened SdoClient
  import opened SdoServer
  import opened SdoTurns
  import opened SdoRuns
  import SdoReport

  /** The client as it was before it gave up. */
  function Awake(c: Client): Client { c.(running := true) }

  ghost predicate IsAbort(f: CanFrame) { Read(f).cs == CsAbort }

  /** A request on its way that the server can take. */
  ghost predicate Takes(n: Net, f: CanFrame, p: nat) {
    && Ready(Awake(n.client), n.server, n.served, p)
    && f == Wire(n.client.quirks, Current(Awake(n.client), p))
  }

  /** What is on its way to the server: at most a request it can take and an abort. */
  ghost predicate Underway(n: Net) {
    || n.toServer == []
    || (|n.toServer| == 1 && (IsAbort(n.toServer[0]) || exists p :: Takes(n, n.toServer[0], p)))
    || (|n.toServer| == 2 && IsAbort(n.toServer[1]) && exists p :: Takes(n, n.toServer[0], p))
  }

  /** A notice is of the whole transfer, or of one that was aborted. */
  ghost predicate Honest(c: Client, x: Notice) {
    x.status == RemoteAbort
    || (if c.job.kind == Download then x == ReceiptOf(c) else x.mux == c.job.mux && x.kind == Upload)
  }

  ghost predicate HonestInv(n: Net, q: Quirks, info: Info) {
    && LossyInv(n, q, info) && Underway(n) && (!n.client.running && n.client.status == RemoteAbort ==> n.toServer == [])
    && forall x <- n.notices :: Honest(n.client, x)
  }

  lemma {:induction false} HearTaken(n: Net, cb: Callbacks, p: nat)
    requires NetValid(n) && n.toServer != [] && Takes(n, n.toServer[0], p)
    ensures forall x <- Serves(n.server, n.toServer[0], cb).notices :: Honest(n.client, x)
  {
    hide Wire, Read, Serves, EncodeReply, Current, Refusal, Answered;
    ServerTurn(Awake(n.client), n.server, n.served, p, cb);
    SameReceipt(n.client, Awake(n.client));
  }

  lemma {:induction false} HonestHear(n: Net, q: Quirks, info: Info, cb: Callbacks)
    requires HonestInv(n, q, info)
    ensures HonestInv(Hear(n, cb), q, info)
  {
    hide Wire, Read, Serves, EncodeReply, LossyInv, Takes, Honest;
    InvIsValid(n, q, info);
    LossyHear(n, q, info, cb);
    if n.toServer != [] {
      var f := n.toServer[0];
      if IsAbort(f) {
        SdoReport.RemoteAbortTold(n.server, f, cb);
        AbortIsHonest(n.client, Serves(n.server, f, cb).notices);
      } else {
        var p :| Takes(n, f, p);
        HearTaken(n, cb, p);
      }
      HearLeaves(n, cb);
    }
  }

  lemma {:induction false} AbortIsHonest(c: Client, xs: seq<Notice>)
    requires forall x <- xs :: x.status == RemoteAbort
    ensures forall x <- xs :: Honest(c, x)
  {
  }

  lemma {:induction false} HearLeaves(n: Net, cb: Callbacks)
    requires NetValid(n) && n.toServer != []
    ensures var r := Hear(n, cb);
      r.client == n.client && r.toServer == n.toServer[1..]
      && r.notices == n.notices + Serves(n.server, n.toServer[0], cb).notices
  {
    hide Wire, Read, Serves;
  }

  lemma {:induction false} WaitingUnderway(n: Net, q: Quirks, info: Info)
    requires LossyInv(n, q, info) && n.client.running
    ensures |n.toServer| <= 1 && Underway(n)
    ensures n.toServer != [] ==> exists p :: Takes(n, n.toServer[0], p)
    ensures n.toClient != [] ==> n.toServer == []
  {
    hide Wire, Read, EncodeReply, Current, Ready, Answered, Expected;
    var p :| Waiting(n, p);
    if Asking(n, p) {
      assert Awake(n.client) == n.client;
      assert Takes(n, n.toServer[0], p);
    }
  }

  lemma {:induction false} HonestListen(n: Net, q: Quirks, info: Info)
    requires HonestInv(n, q, info)
    ensures HonestInv(Listen(n), q, info)
  {
    hide Wire, Read, Feed, EncodeReply, LossyInv, Takes, IsAbort, Underway;
    InvIsValid(n, q, info);
    LossyListen(n, q, info);
    var r := Listen(n);
    if n.toClient != [] {
      if n.client.running {
        WaitingUnderway(n, q, info);
        SameParties(n, r, q, info);
        if r.client.running {
          WaitingUnderway(r, q, info);
        } else {
          EndsQuietly(n, q, info);
        }
      } else {
        IdleFeed(n.client, n.toClient[0]);
        SameUnderway(n, r);
      }
    }
  }

  /** The client hears nothing but replies and aborts, so it never has to complain. */
  lemma {:induction false} EndsQuietly(n: Net, q: Quirks, info: Info)
    requires LossyInv(n, q, info) && n.client.running && n.toClient != [] && !Listen(n).client.running
    ensures Listen(n).toServer == [] && Underway(Listen(n))
  {
    hide Wire, Read, EncodeReply, Feed, Current, Ready, Answered, Expected;
    WaitingUnderway(n, q, info);
    var p :| Waiting(n, p);
    if code :| n.toClient == [EncodeReply(RepAbort(n.client.job.mux, code))] {
      AbortTurn(n.client, n.client.job.mux, code);
    } else {
      ClientTurn(n.client, n.server, n.served);
      if !Final(n.client, n.served) {
        NextIsRunning(n.client, n.server, n.served);
      }
    }
  }

  lemma {:induction false} NextIsRunning(c: Client, s: Server, served: seq<bv8>)
    requires Answered(c, s, served) && !Final(c, served)
    ensures Feed(c, EncodeReply(Expected(c, served))).next.running
  {
    hide Wire, Feed, EncodeReply, Current, Answered;
    ClientTurn(c, s, served);
  }

  lemma {:induction false} SameUnderway(n: Net, r: Net)
    requires Underway(n) && r.client == n.client && r.server == n.server && r.served == n.served
    requires r.toServer == n.toServer
    ensures Underway(r)
  {
    hide Wire, Read, Ready, Current;
    if p :| n.toServer != [] && Takes(n, n.toServer[0], p) { assert Takes(r, r.toServer[0], p); }
  }

  /** The receipt of a transaction does not change while it runs. */
  lemma {:induction false} SameParties(n: Net, r: Net, q: Quirks, info: Info)
    requires LossyInv(n, q, info) && LossyInv(r, q, info)
    ensures forall x :: Honest(n.client, x) <==> Honest(r.client, x)
  {
    hide Waiting, Truthful;
  }

  lemma {:induction false} HonestLose(n: Net, q: Quirks, info: Info, h: Happening)
    requires HonestInv(n, q, info) && (h.LoseRequest? || h.LoseReply?)
    ensures HonestInv(Happen(n, h), q, info)
  {
    hide Wire, Read, LossyInv, Takes, IsAbort, Honest;
    InvIsValid(n, q, info);
    LossyLose(n, q, info, h);
    var r := Happen(n, h);
    forall f, p ensures Takes(n, f, p) ==> Takes(r, f, p) { StillTakes(n, r, f, p); }
  }

  lemma {:induction false} StillTakes(n: Net, r: Net, f: CanFrame, p: nat)
    requires r.client == n.client && r.server == n.server && r.served == n.served
    ensures Takes(n, f, p) ==> Takes(r, f, p)
  {
    hide Wire, Ready, Current;
  }

  lemma {:induction false} HonestExpire(n: Net, q: Quirks, info: Info)
    requires HonestInv(n, q, info)
    ensures HonestInv(Happen(n, Expire), q, info)
  {
    hide Wire, Read, LossyInv, Honest, Ready, Current;
    InvIsValid(n, q, info);
    LossyStep(n, q, info, Expire);
    if n.client.running {
      var r := Happen(n, Expire);
      WaitingUnderway(n, q, info);
      SameParties(n, r, q, info);
      var abort := Wire(n.client.quirks, ReqAbort(n.client.job.mux, AbortTimeout));
      assert IsAbort(abort) by { WireAbort(n.client.quirks, n.client.job.mux, AbortTimeout); }
      assert Awake(r.client) == Awake(n.client).(status := LocalAbort, code := AbortTimeout);
      if n.toServer != [] {
        var p :| Takes(n, n.toServer[0], p);
        GivenUp(n, r, n.toServer[0], p);
        assert r.toServer[0] == n.toServer[0] && r.toServer[1] == abort;
        assert Takes(r, r.toServer[0], p);
      }
    }
  }

  lemma {:induction false} WireAbort(q: Quirks, m: Mux, code: bv32)
    ensures Read(Wire(q, ReqAbort(m, code))).cs == CsAbort
  {
    hide Read, EncodeRequest;
    RequestReadBack(ReqAbort(m, code));
    var f := WireFields(q, ReqAbort(m, code));
  }

  /** Giving up does not change what the server can take. */
  lemma {:induction false} GivenUp(n: Net, r: Net, f: CanFrame, p: nat)
    requires Takes(n, f, p) && r.server == n.server && r.served == n.served
    requires r.client == n.client.(running := false, status := r.client.status, code := r.client.code)
    ensures Takes(r, f, p)
  {
    hide Wire;
  }

  lemma {:induction false} HonestStep(n: Net, q: Quirks, info: Info, h: Happening)
    requires HonestInv(n, q, info)
    ensures NetValid(n) && HonestInv(Happen(n, h), q, info)
  {
    hide Wire, Hear, Listen, LossyInv, Underway, Honest;
    InvIsValid(n, q, info);
    match h
    case ServerHears(cb) => HonestHear(n, q, info, cb);
    case ClientHears => HonestListen(n, q, info);
    case LoseRequest(_) => HonestLose(n, q, info, h);
    case LoseReply(_) => HonestLose(n, q, info, h);
    case Expire => HonestExpire(n, q, info);
  }

  lemma {:induction false} HonestRun(n: Net, q: Quirks, info: Info, hs: seq<Happening>)
    requires HonestInv(n, q, info)
    ensures NetValid(n) && HonestInv(Play(n, hs), q, info)
    decreases |hs|
  {
    hide HonestInv, Happen;
    if hs == [] {
      assert NetValid(n) by { HonestIsValid(n, q, info); }
    } else {
      HonestStep(n, q, info, hs[0]);
      HonestRun(Happen(n, hs[0]), q, info, hs[1..]);
    }
  }

  lemma {:induction false} HonestIsValid(n: Net, q: Quirks, info: Info)
    requires HonestInv(n, q, info)
    ensures NetValid(n)
  {
    hide LossyInv;
    InvIsValid(n, q, info);
  }

  /** Whatever is lost, whenever the client gives up and whatever state it found the
      server in: all the server's user is ever told of a download is that it was aborted,
      or all of it, under its index and as a success. */
  lemma {:induction false} NothingLess(c: Client, s: Server, info: Info, hs: seq<Happening>)
    requires Valid(c) && !c.running && SrvValid(s) && info.job.kind == Download
    ensures forall x <- Play(Begin(c, s, info), hs).notices ::
      x.status == RemoteAbort || x == Notice(info.job.mux, Download, Ok, Downloaded(c.quirks, info.data))
  {
    hide Wire, Play, Current, Ready;
    var n := Begin(c, s, info);
    BeginAsks(c, s, info);
    assert Waiting(n, 0);
    WaitingUnderway(n, c.quirks, info);
    HonestRun(n, c.quirks, info, hs);
  }
}
