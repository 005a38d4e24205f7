/** Whole transactions between the client and the server: over a channel that
    delivers, and over one that may lose any frame while the client may time out at
    any moment. Channels start empty; a transaction may meet a server left in any
    state by an earlier one. */
module SdoRuns {
  import opened Common
  import opened SdoFrame
  import opened SdoClient
  import opened SdoServer
  import opened SdoTurns

  // ------------------------------------------------------------ the network

  /** `served` remembers what `on_init` last provided for an upload. */
  datatype Net = Net(client: Client, server: Server, toServer: seq<CanFrame>, toClient: seq<CanFrame>,
                     served: seq<bv8>, notices: seq<Notice>)

  datatype Happening =
    | ServerHears(cb: Callbacks)
    | ClientHears
    | LoseRequest(at: nat)
    | LoseReply(at: nat)
    | Expire

  ghost predicate NetValid(n: Net) { Valid(n.client) && SrvValid(n.server) }

  lemma {:induction false} FeedKeepsValid(c: Client, cf: CanFrame)
    requires Valid(c)
    ensures Valid(Feed(c, cf).next)
  {
    hide Wire, Read;
  }

  function Without<T>(s: seq<T>, at: nat): seq<T> {
    if at < |s| then s[..at] + s[at + 1..] else s
  }

  ghost function Hear(n: Net, cb: Callbacks): (r: Net)
    requires NetValid(n)
    ensures NetValid(r)
  {
    if n.toServer == [] then n
    else
      var f := n.toServer[0];
      var t := Serves(n.server, f, cb);
      ServesKeepsValid(n.server, f, cb);
      Net(n.client, t.next, n.toServer[1..], n.toClient + t.replies,
          if Read(f).cs == CcsUlInitReq && cb.onInit.Serve? then cb.onInit.data else n.served,
          n.notices + t.notices)
  }

  ghost function Listen(n: Net): (r: Net)
    requires NetValid(n)
    ensures NetValid(r)
  {
    if n.toClient == [] then n
    else
      var t := Feed(n.client, n.toClient[0]);
      FeedKeepsValid(n.client, n.toClient[0]);
      n.(client := t.next, toServer := n.toServer + t.sent, toClient := n.toClient[1..])
  }

  ghost function Happen(n: Net, h: Happening): (r: Net)
    requires NetValid(n)
    ensures NetValid(r)
  {
    match h
    case ServerHears(cb) => Hear(n, cb)
    case ClientHears => Listen(n)
    case LoseRequest(at) => n.(toServer := Without(n.toServer, at))
    case LoseReply(at) => n.(toClient := Without(n.toClient, at))
    case Expire =>
      if !n.client.running then n
      else
        var t := Timeout(n.client);
        n.(client := t.next, toServer := n.toServer + t.sent)
  }

  ghost function Play(n: Net, hs: seq<Happening>): (r: Net)
    requires NetValid(n)
    ensures NetValid(r)
    decreases |hs|
  {
    if hs == [] then n else Play(Happen(n, hs[0]), hs[1..])
  }

  /** A transaction starts: an idle client, a server in any state, empty channels. */
  ghost function Begin(c: Client, s: Server, info: Info): (n: Net)
    requires Valid(c) && !c.running && SrvValid(s)
    ensures NetValid(n)
  {
    var t := Start(c, info);
    Net(t.next, s, t.sent, [], [], [])
  }

  // --------------------------------------------------- nothing gets lost

  /** A request across and its reply back. */
  ghost function Trip(n: Net, cb: Callbacks): (r: Net)
    requires NetValid(n)
    ensures NetValid(r)
  {
    Listen(Hear(n, cb))
  }

  ghost function Trips(n: Net, env: seq<Callbacks>): (r: Net)
    requires NetValid(n)
    ensures NetValid(r)
    decreases |env|
  {
    if env == [] then n else Trips(Trip(n, env[0]), env[1..])
  }

  /** The number of round trips a transfer of `n` bytes takes. */
  function TripCount(n: nat): nat { if n <= ExpeditedMax then 1 else 1 + (n + 6) / 7 }

  /** The round trips still to go, the pending request's included. */
  ghost function Remaining(c: Client, served: seq<bv8>): nat {
    match (c.phase == SegResponse, c.job.kind)
    case (false, Download) => TripCount(|c.buffer|)
    case (false, Upload) => TripCount(|served|)
    case (true, Download) => if c.pos <= |c.buffer| then 1 + (|c.buffer| - c.pos + 6) / 7 else 0
    case (true, Upload) => if |c.buffer| <= |served| then (|served| - |c.buffer| + 6) / 7 else 0
  }

  /** The client's request is on its way and the server can take it. */
  ghost predicate Asking(n: Net, p: nat) {
    && Ready(n.client, n.server, n.served, p)
    && n.toServer == [Wire(n.client.quirks, Current(n.client, p))] && n.toClient == []
  }

  lemma {:induction false} BeginAsks(c: Client, s: Server, info: Info)
    requires Valid(c) && !c.running && SrvValid(s)
    ensures Asking(Begin(c, s, info), 0)
  {
    hide Wire;
  }

  /** Hearing the client's request observes an upload's bytes. */
  lemma {:induction false} HearAsked(n: Net, p: nat, cb: Callbacks)
    requires Asking(n, p)
    ensures var t, data := Hear(n, cb), ServedBy(n.client, n.served, cb);
      var refusal := Refusal(n.client, data, cb);
      && t.client == n.client && t.toServer == [] && t.served == data
      && ServerTurnDone(n.client, SrvStep(t.server, t.toClient, t.notices[|n.notices|..]), data, refusal)
      && t.notices[..|n.notices|] == n.notices && |t.notices| >= |n.notices|
  {
    hide Wire, Read, Serves, ServerTurnDone, EncodeRequest, Refusal;
    ServerTurn(n.client, n.server, n.served, p, cb);
    var q := Current(n.client, p);
    RequestReadBack(q);
    var f := WireFields(n.client.quirks, q);
    var t := Serves(n.server, n.toServer[0], cb);
    assert Hear(n, cb).notices[|n.notices|..] == t.notices;
    assert [] + t.replies == t.replies;
  }

  lemma {:induction false} OneFewer(c: Client, s: Server, served: seq<bv8>)
    requires Answered(c, s, served) && !Final(c, served)
    ensures Remaining(Feed(c, EncodeReply(Expected(c, served))).next, served) + 1 == Remaining(c, served)
  {
    hide Wire, Read, EncodeReply;
    ReplyReadBack(Expected(c, served));
  }

  /** One round trip: refused with the callback's code, or finished, or one step on. */
  lemma {:induction false} TripStep(n: Net, p: nat, cb: Callbacks)
    requires Asking(n, p)
    ensures var c, t, data := n.client, Trip(n, cb), ServedBy(n.client, n.served, cb);
      var refusal := Refusal(c, data, cb);
      && t.toClient == [] && t.served == data && t.client.job == c.job && t.client.quirks == c.quirks
      && t.server.mux == c.job.mux
      && (c.job.kind == Download ==> t.client.buffer == c.buffer)
      && if refusal.Some? then
           && !t.client.running && t.client.status == RemoteAbort && t.client.code == refusal.value
           && t.server.phase == InitReq && t.toServer == []
         else if Final(c, data) then
           && !t.client.running && t.client.status == Ok && t.server.phase == InitReq && t.toServer == []
           && (c.job.kind == Upload ==> t.client.buffer == Uploaded(data))
           && (c.job.kind == Download ==> t.notices == n.notices + [ReceiptOf(c)])
         else
           && Asking(t, if c.job.kind == Download then c.pos else 0)
           && t.client.phase == SegResponse && t.notices == n.notices
           && Remaining(t.client, data) + 1 == Remaining(c, data)
  {
    hide Wire, Read, Serves, EncodeReply, Feed, Remaining;
    var c, data := n.client, ServedBy(n.client, n.served, cb);
    var h := Hear(n, cb);
    HearAsked(n, p, cb);
    var refusal := Refusal(c, data, cb);
    assert h.notices == h.notices[..|n.notices|] + h.notices[|n.notices|..];
    if refusal.Some? {
      AbortTurn(c, c.job.mux, refusal.value);
    } else {
      ClientTurn(c, h.server, data);
      if !Final(c, data) { OneFewer(c, h.server, data); }
    }
  }

  /** A finished exchange stays as it is. */
  lemma {:induction false} Quiet(n: Net, env: seq<Callbacks>)
    requires NetValid(n) && n.toServer == [] && n.toClient == []
    ensures Trips(n, env) == n
  {
    if env != [] { Quiet(n, env[1..]); }
  }

  lemma {:induction false} FinalIsLast(c: Client, s: Server, served: seq<bv8>, p: nat)
    requires Ready(c, s, served, p)
    ensures Final(c, served) <==> Remaining(c, served) == 1
    ensures Remaining(c, served) >= 1
  {
  }

  /** How a transfer that nothing disturbs ends: the first refusal wins, and only
      the first turn consults `on_init` and only the last one `on_done`. */
  ghost predicate Settled(n: Net, r: Net, env: seq<Callbacks>)
    requires |env| >= 1
  {
    var c, data := n.client, ServedBy(n.client, n.served, env[0]);
    && !r.client.running && r.server.phase == InitReq && r.server.mux == c.job.mux && r.toServer == []
    && if c.phase == InitResponse && env[0].onInit.Refuse? then
         r.client.status == RemoteAbort && r.client.code == env[0].onInit.code
       else if env[|env| - 1].onDone.Some? then
         r.client.status == RemoteAbort && r.client.code == env[|env| - 1].onDone.value
       else
         && r.client.status == Ok
         && (c.job.kind == Download ==> r.notices == n.notices + [ReceiptOf(c)])
         && (c.job.kind == Upload ==> r.served == data && r.client.buffer == Uploaded(data))
  }

  lemma {:induction false} ReadyForServed(c: Client, s: Server, served: seq<bv8>, p: nat, cb: Callbacks)
    requires Ready(c, s, served, p)
    ensures Ready(c, s, ServedBy(c, served, cb), p)
  {
  }

  lemma {:induction false} TransferFrom(n: Net, p: nat, env: seq<Callbacks>)
    requires Asking(n, p) && |env| >= 1
    requires |env| == Remaining(n.client, ServedBy(n.client, n.served, env[0]))
    ensures Settled(n, Trips(n, env), env)
    decreases |env|
  {
    hide Wire, Trip, ReceiptOf, EncodeReply;
    var c, data := n.client, ServedBy(n.client, n.served, env[0]);
    TripStep(n, p, env[0]);
    var t := Trip(n, env[0]);
    ReadyForServed(c, n.server, n.served, p, env[0]);
    FinalIsLast(c, n.server, data, p);
    if Refusal(c, data, env[0]).Some? || Final(c, data) {
      Quiet(t, env[1..]);
    } else {
      TransferFrom(t, if c.job.kind == Download then c.pos else 0, env[1..]);
      if c.job.kind == Download { SameReceipt(c, t.client); }
    }
  }

  lemma {:induction false} SameReceipt(c: Client, d: Client)
    requires c.quirks == d.quirks && c.job == d.job && c.buffer == d.buffer
    ensures ReceiptOf(c) == ReceiptOf(d)
  {
  }

  /** Until the last round trip the client is still waiting, and at every request
      both sides agree on the toggle and on the bytes carried so far. */
  lemma {:induction false} InStep(n: Net, p: nat, env: seq<Callbacks>, k: nat) returns (at: nat)
    requires Asking(n, p) && k < |env|
    requires |env| == Remaining(n.client, ServedBy(n.client, n.served, env[0]))
    requires n.client.phase == InitResponse ==> env[0].onInit.Serve?
    ensures Asking(Trips(n, env[..k]), at)
    decreases |env|
  {
    hide Wire, Trip, Remaining, Current;
    if k == 0 { return p; }
    var c, data := n.client, ServedBy(n.client, n.served, env[0]);
    TripStep(n, p, env[0]);
    ReadyForServed(c, n.server, n.served, p, env[0]);
    FinalIsLast(c, n.server, data, p);
    var t := Trip(n, env[0]);
    at := InStep(t, if c.job.kind == Download then c.pos else 0, env[1..], k - 1);
    assert env[..k][1..] == env[1..][..k - 1];
  }

  /** Download, end to end. The transfer takes exactly TripCount(n) round trips
      from any server state. Unless a callback refuses, the client ends with OK and
      `on_done` has seen the client's bytes under the client's index, once; if one
      refuses, the client ends with its code. */
  lemma {:induction false} DownloadEndToEnd(c: Client, s: Server, info: Info, env: seq<Callbacks>)
    requires Valid(c) && !c.running && SrvValid(s)
    requires info.job.kind == Download && |env| == TripCount(|info.data|)
    ensures var r := Trips(Begin(c, s, info), env);
      && !r.client.running && r.server.phase == InitReq && r.server.mux == info.job.mux && r.toServer == []
      && if env[0].onInit.Refuse? then
           r.client.status == RemoteAbort && r.client.code == env[0].onInit.code
         else if env[|env| - 1].onDone.Some? then
           r.client.status == RemoteAbort && r.client.code == env[|env| - 1].onDone.value
         else
           && r.client.status == Ok
           && r.notices == [Notice(info.job.mux, Download, Ok, Downloaded(c.quirks, info.data))]
    ensures env[0].onInit.Serve? ==> forall k :: 0 <= k < |env| ==> Trips(Begin(c, s, info), env[..k]).client.running
  {
    hide Wire, Trips, Current;
    var n := Begin(c, s, info);
    BeginAsks(c, s, info);
    TransferFrom(n, 0, env);
    if env[0].onInit.Serve? {
      forall k | 0 <= k < |env| ensures Trips(n, env[..k]).client.running {
        var at := InStep(n, 0, env, k);
      }
    }
  }

  /** The bytes that arrive are the bytes sent, except for the empty download of a
      client that pads its frames, which arrives as four zero bytes. */
  lemma {:induction false} DownloadExact(c: Client, s: Server, info: Info, env: seq<Callbacks>)
    requires Valid(c) && !c.running && SrvValid(s)
    requires info.job.kind == Download && |env| == TripCount(|info.data|)
    requires forall cb <- env :: cb.onInit.Serve? && cb.onDone.None?
    ensures Trips(Begin(c, s, info), env).notices == [Notice(info.job.mux, Download, Ok, info.data)]
      <==> !(info.data == [] && c.quirks.fullFrame)
  {
    hide Trips, Begin;
    DownloadEndToEnd(c, s, info, env);
    assert env[0].onInit.Serve? && env[|env| - 1].onDone.None?;
    assert |Zeros(4)| == 4;
  }

  /** Upload, end to end. */
  lemma {:induction false} UploadEndToEnd(c: Client, s: Server, info: Info, env: seq<Callbacks>)
    requires Valid(c) && !c.running && SrvValid(s)
    requires info.job.kind == Upload && |env| >= 1
    requires env[0].onInit.Serve? && |env| == TripCount(|env[0].onInit.data|)
    ensures var r := Trips(Begin(c, s, info), env);
      && !r.client.running && r.server.phase == InitReq && r.server.mux == info.job.mux && r.toServer == []
      && if env[|env| - 1].onDone.Some? then
           r.client.status == RemoteAbort && r.client.code == env[|env| - 1].onDone.value
         else
           && r.client.status == Ok
           && r.client.buffer == Uploaded(env[0].onInit.data)
    ensures forall k :: 0 <= k < |env| ==> Trips(Begin(c, s, info), env[..k]).client.running
  {
    hide Wire, Trips, Current;
    var n := Begin(c, s, info);
    BeginAsks(c, s, info);
    TransferFrom(n, 0, env);
    forall k | 0 <= k < |env| ensures Trips(n, env[..k]).client.running {
      var at := InStep(n, 0, env, k);
    }
  }

  /** The bytes the client ends with are the bytes served, exactly when there are any. */
  lemma {:induction false} UploadExact(c: Client, s: Server, info: Info, env: seq<Callbacks>)
    requires Valid(c) && !c.running && SrvValid(s)
    requires info.job.kind == Upload && |env| >= 1
    requires env[0].onInit.Serve? && |env| == TripCount(|env[0].onInit.data|)
    requires env[|env| - 1].onDone.None?
    ensures Trips(Begin(c, s, info), env).client.buffer == env[0].onInit.data <==> env[0].onInit.data != []
  {
    hide Trips, Begin;
    UploadEndToEnd(c, s, info, env);
    assert |Zeros(4)| == 4;
  }

  /** An upload that `on_init` refuses ends after one round trip with its code. */
  lemma {:induction false} UploadRefused(c: Client, s: Server, info: Info, cb: Callbacks)
    requires Valid(c) && !c.running && SrvValid(s)
    requires info.job.kind == Upload && cb.onInit.Refuse?
    ensures var r := Trip(Begin(c, s, info), cb);
      && !r.client.running && r.client.status == RemoteAbort && r.client.code == cb.onInit.code
      && r.server.phase == InitReq && r.server.mux == info.job.mux
  {
    hide Wire, Trip;
    BeginAsks(c, s, info);
    TripStep(Begin(c, s, info), 0, cb);
  }

  // ------------------------------------------------- anything may get lost

  /** What the client is waiting for: its request is on the way, or the reply is,
      or an abort is, or nothing is any more. */
  ghost predicate Waiting(n: Net, p: nat) {
    || Asking(n, p)
    || (n.toServer == [] && exists code :: n.toClient == [EncodeReply(RepAbort(n.client.job.mux, code))])
    || (n.toServer == [] && n.toClient == [])
    || (&& n.toServer == [] && n.toClient == [EncodeReply(Expected(n.client, n.served))]
        && Answered(n.client, n.server, n.served)
        && (Final(n.client, n.served) && n.client.job.kind == Download ==> ReceiptOf(n.client) in n.notices))
  }

  /** OK means that the receiver has the sender's bytes. */
  ghost predicate Truthful(n: Net) {
    && n.toServer == []
    && (n.client.job.kind == Download ==> ReceiptOf(n.client) in n.notices)
    && (n.client.job.kind == Upload ==> n.client.buffer == Uploaded(n.served))
  }

  ghost predicate LossyInv(n: Net, q: Quirks, info: Info) {
    && NetValid(n) && n.client.quirks == q && n.client.job == info.job
    && (info.job.kind == Download ==> n.client.buffer == info.data)
    && (n.client.running ==> exists p :: Waiting(n, p))
    && (!n.client.running ==>
          n.client.status == LocalAbort || n.client.status == RemoteAbort
          || (n.client.status == Ok && Truthful(n)))
  }

  lemma {:induction false} LossyHear(n: Net, q: Quirks, info: Info, cb: Callbacks)
    requires LossyInv(n, q, info)
    ensures LossyInv(Hear(n, cb), q, info)
  {
    hide Wire, Read, Serves, EncodeReply, Refusal, Current;
    if n.client.running && n.toServer != [] {
      var p :| Waiting(n, p);
      HearAsked(n, p, cb);
      assert Waiting(Hear(n, cb), p);
    }
  }

  lemma {:induction false} LossyListen(n: Net, q: Quirks, info: Info)
    requires LossyInv(n, q, info)
    ensures LossyInv(Listen(n), q, info)
  {
    hide Wire, Read, Serves, EncodeReply, Feed, Current;
    if n.client.running && n.toClient != [] {
      var p :| Waiting(n, p);
      if code :| n.toClient == [EncodeReply(RepAbort(n.client.job.mux, code))] {
        AbortTurn(n.client, n.client.job.mux, code);
      } else {
        ClientTurn(n.client, n.server, n.served);
        if !Final(n.client, n.served) {
          assert Waiting(Listen(n), if n.client.job.kind == Download then n.client.pos else 0);
        }
      }
    } else if n.toClient != [] {
      assert Feed(n.client, n.toClient[0]) == Step(n.client, false, [], []) by { IdleFeed(n.client, n.toClient[0]); }
    }
  }

  lemma {:induction false} IdleFeed(c: Client, cf: CanFrame)
    requires Valid(c) && !c.running
    ensures Feed(c, cf) == Step(c, false, [], [])
  {
    hide Wire, Read;
  }

  lemma {:induction false} LossyLose(n: Net, q: Quirks, info: Info, h: Happening)
    requires LossyInv(n, q, info) && (h.LoseRequest? || h.LoseReply?)
    ensures LossyInv(Happen(n, h), q, info)
  {
    hide Wire, EncodeReply, Current, Ready, Expected, Answered;
    if n.client.running {
      var p :| Waiting(n, p);
      assert Waiting(Happen(n, h), p);
    }
  }

  lemma {:induction false} LossyStep(n: Net, q: Quirks, info: Info, h: Happening)
    requires LossyInv(n, q, info)
    ensures LossyInv(Happen(n, h), q, info)
  {
    hide Wire, EncodeReply, Hear, Listen, Waiting, Truthful;
    match h
    case ServerHears(cb) => LossyHear(n, q, info, cb);
    case ClientHears => LossyListen(n, q, info);
    case LoseRequest(_) => LossyLose(n, q, info, h);
    case LoseReply(_) => LossyLose(n, q, info, h);
    case Expire =>
  }

  lemma {:induction false} LossyRun(n: Net, q: Quirks, info: Info, hs: seq<Happening>)
    requires LossyInv(n, q, info)
    ensures LossyInv(Play(n, hs), q, info)
    decreases |hs|
  {
    hide LossyInv, Happen;
    if hs != [] {
      assert NetValid(n) by { InvIsValid(n, q, info); }
      LossyStep(n, q, info, hs[0]);
      LossyRun(Happen(n, hs[0]), q, info, hs[1..]);
    }
  }

  lemma {:induction false} InvIsValid(n: Net, q: Quirks, info: Info)
    requires LossyInv(n, q, info)
    ensures NetValid(n)
  {
  }

  /** Whatever is lost and whenever the timer fires, a client that has ended with
      OK has the transfer it reports, and one that has ended otherwise says so. */
  lemma {:induction false} LossySafety(c: Client, s: Server, info: Info, hs: seq<Happening>)
    requires Valid(c) && !c.running && SrvValid(s)
    ensures var r := Play(Begin(c, s, info), hs);
      !r.client.running ==>
        && r.client.status in {Ok, LocalAbort, RemoteAbort}
        && (r.client.status == Ok && info.job.kind == Download ==>
              Notice(info.job.mux, Download, Ok, Downloaded(c.quirks, info.data)) in r.notices)
        && (r.client.status == Ok && info.job.kind == Upload ==> r.client.buffer == Uploaded(r.served))
  {
    hide Wire, Play, Current;
    var n := Begin(c, s, info);
    BeginAsks(c, s, info);
    assert Waiting(n, 0);
    LossyRun(n, c.quirks, info, hs);
  }
}
