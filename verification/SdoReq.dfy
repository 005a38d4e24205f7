/** The request queue of a node (src/sdo_req.c, inc/arc.h) around the SDO client.

    Requests live in a memory of their own and are counted references to; the queue
    is a list, its recorded size, a limit and the client that serves one request at
    a time. `begun`, `told` and `released` count what has happened to a request, and
    `accepted` and `started` record in which order; the program has no such fields.
    Copying an upload's data is taken to succeed. */
module SdoReq {
  import opened Common
  import opened SdoFrame
  import opened SdoClient
  import SdoRuns
  import SdoPeer

  /** `users` is how many of the references belong to the user. */
  datatype Req = Req(
    kind: Kind, mux: Mux, data: seq<bv8>, notify: bool, status: Status, code: bv32,
    ref: nat, users: nat, parent: bool, begun: nat, told: nat, released: nat)

  datatype Queue = Queue(
    list: seq<nat>, size: nat, limit: nat, client: Client, depth: nat, reqs: map<nat, Req>,
    accepted: seq<nat>, started: seq<nat>)

  // ------------------------------------------------------- what a call does

  function With(q: Queue, id: nat, r: Req): Queue { q.(reqs := q.reqs[id := r]) }

  /** sdo_req_unref of the queue's reference. */
  function Released(r: Req): Req {
    r.(ref := if r.ref > 0 then r.ref - 1 else 0, released := r.released + 1)
  }

  /** sdo_req__on_done: the outcome is copied and the user is told. */
  function OnDone(r: Req, status: Status, code: bv32, data: seq<bv8>): Req {
    r.(status := status, code := code, data := if r.kind == Upload then data else r.data,
       told := r.told + if r.notify then 1 else 0)
  }

  /** sdo_req__on_stop, the free function of the client's context. */
  function OnStop(r: Req): Req {
    Released(if r.status == Pending then r.(status := Cancelled) else r)
  }

  /** The client's calls of its user's functions, in order. */
  function Apply(q: Queue, es: seq<Event>): Queue
    decreases |es|
  {
    if es == [] then q
    else
      var id := es[0].context;
      if id !in q.reqs then Apply(q, es[1..])
      else match es[0]
        case Done(_, status, code, data) => Apply(With(q, id, OnDone(q.reqs[id], status, code, data)), es[1..])
        case Freed(_) => Apply(With(q, id, OnStop(q.reqs[id])), es[1..])
  }

  function Serve(q: Queue, t: Step): Queue { Apply(q.(client := t.next), t.events) }

  /** sdo_req_start: a reference for the queue, given back if there is no room. */
  function Enqueue(q: Queue, id: nat): Queue
    requires id in q.reqs
  {
    if q.size >= q.limit then q
    else
      var r := q.reqs[id];
      With(q, id, r.(ref := r.ref + 1, parent := true))
        .(size := q.size + 1, list := q.list + [id], accepted := q.accepted + [id])
  }

  function InfoOf(r: Req, id: nat): Info { Info(Job(r.kind, r.mux, true, id, true), r.data) }

  /** sdo_req__process_queue. Taking from an empty list returns with the lock still
      held once. */
  function Process(q: Queue): Queue {
    if q.list == [] then q.(depth := q.depth + 1)
    else
      var id := q.list[0];
      if id !in q.reqs then q
      else
        var r := q.reqs[id];
        q.(size := if q.size > 0 then q.size - 1 else 0, list := q.list[1..],
           client := Start(q.client, InfoOf(r, id)).next,
           reqs := q.reqs[id := r.(begun := r.begun + 1)], started := q.started + [id])
  }

  function CancelOne(reqs: map<nat, Req>, id: nat): map<nat, Req> {
    if id in reqs then reqs[id := Released(reqs[id].(status := Cancelled))] else reqs
  }

  function CancelAll(reqs: map<nat, Req>, ids: seq<nat>): map<nat, Req> {
    if ids == [] then reqs else CancelAll(CancelOne(reqs, ids[0]), ids[1..])
  }

  /** sdo_req_queue_flush: the queued are cancelled, then the one in flight. */
  function Flush(q: Queue): Queue {
    var c := q.(reqs := CancelAll(q.reqs, q.list), list := [], size := 0);
    Serve(c, Stop(q.client))
  }

  // -------------------------------------------------------------- invariant

  ghost predicate InFlight(q: Queue, id: nat) { q.client.running && q.client.job.context == id }

  /** A request never accepted, waiting, in flight, or done with. */
  ghost predicate ReqOk(q: Queue, id: nat)
    requires id in q.reqs
  {
    var r := q.reqs[id];
    && id != 0
    && r.ref == r.users + (if id in q.list || InFlight(q, id) then 1 else 0)
    && (r.parent <==> id in q.accepted)
    && (!r.parent ==>
          && id !in q.list && !InFlight(q, id) && r.status == Pending
          && r.begun == 0 && r.told == 0 && r.released == 0)
    && (id in q.list ==> !InFlight(q, id) && r.status == Pending && r.begun == 0 && r.told == 0 && r.released == 0)
    && (InFlight(q, id) ==> r.status == Pending && r.begun == 1 && r.told == 0 && r.released == 0)
    && (r.parent && id !in q.list && !InFlight(q, id) ==>
          && r.released == 1 && r.begun <= 1
          && r.status in {Ok, LocalAbort, RemoteAbort, Cancelled}
          && r.told == (if r.status != Cancelled && r.notify then 1 else 0)
          && (r.status != Cancelled ==> r.begun == 1))
  }

  ghost predicate NoRepeat(s: seq<nat>) { forall i, j :: 0 <= i < j < |s| ==> s[i] != s[j] }

  /** The list is what was accepted last; what was started comes from before it, in
      the order of acceptance. */
  ghost predicate OrderOk(q: Queue) {
    && NoRepeat(q.accepted)
    && |q.list| <= |q.accepted| && q.list == q.accepted[|q.accepted| - |q.list|..]
    && (forall i :: 0 <= i < |q.started| ==> q.started[i] in q.accepted[..|q.accepted| - |q.list|])
    && InOrder(q.started, q.accepted)
  }

  ghost predicate InOrder(a: seq<nat>, b: seq<nat>) {
    forall i, j, k, l :: 0 <= i < j < |a| && 0 <= k < |b| && 0 <= l < |b| && b[k] == a[i] && b[l] == a[j] ==> k < l
  }

  ghost predicate Inv(q: Queue) {
    && Valid(q.client) && q.size == |q.list| <= q.limit
    && OrderOk(q)
    && (forall id :: id in q.accepted ==> id in q.reqs)
    && (forall id :: id in q.reqs ==> ReqOk(q, id))
    && (q.client.running ==>
          var id := q.client.job.context;
          && id in q.reqs
          && var r := q.reqs[id];
          && q.client.job == Job(r.kind, r.mux, true, id, true)
          && (r.kind == Download ==> q.client.buffer == r.data))
  }

  /** What goes out for a request that is taken up. */
  function Opening(r: Req): Request { if r.kind == Upload then ReqUpload(r.mux) else ReqDownload(r.mux, r.data) }

  // ------------------------------------------------------ every call keeps it

  lemma {:induction false} EnqueueReq(q: Queue, id: nat, k: nat)
    requires k in q.reqs && ReqOk(q, k) && id in q.reqs && !q.reqs[id].parent && ReqOk(q, id) && q.size < q.limit
    ensures ReqOk(Enqueue(q, id), k)
  {
    assert k in q.list + [id] <==> k == id || k in q.list;
    assert k in q.accepted + [id] <==> k == id || k in q.accepted;
  }

  lemma {:induction false} EnqueueKeeps(q: Queue, id: nat)
    requires Inv(q) && id in q.reqs && !q.reqs[id].parent
    ensures Inv(Enqueue(q, id))
  {
    hide ReqOk, OrderOk, Valid;
    var r := Enqueue(q, id);
    if q.size < q.limit {
      assert id !in q.accepted by { NeverAccepted(q, id); }
      AppendOrder(q, id);
      OrderFields(r, q.(list := q.list + [id], accepted := q.accepted + [id]));
      forall k | k in r.reqs ensures ReqOk(r, k) { EnqueueReq(q, id, k); }
    }
  }

  lemma {:induction false} NeverAccepted(q: Queue, id: nat)
    requires id in q.reqs && ReqOk(q, id) && !q.reqs[id].parent
    ensures id !in q.accepted
  {
  }

  lemma {:induction false} OrderFields(q: Queue, r: Queue)
    requires q.list == r.list && q.accepted == r.accepted && q.started == r.started && OrderOk(r)
    ensures OrderOk(q)
  {
  }

  lemma {:induction false} AppendOrder(q: Queue, id: nat)
    requires OrderOk(q) && id !in q.accepted
    ensures OrderOk(q.(list := q.list + [id], accepted := q.accepted + [id]))
  {
    var n := |q.accepted| - |q.list|;
    assert (q.accepted + [id])[..n] == q.accepted[..n];
  }

  lemma {:induction false} ProcessOrder(q: Queue)
    requires OrderOk(q) && q.list != []
    ensures OrderOk(q.(list := q.list[1..], started := q.started + [q.list[0]]))
    ensures q.list[0] in q.accepted && q.list[0] !in q.list[1..]
  {
    hide InOrder;
    var n, id := |q.accepted| - |q.list|, q.list[0];
    assert q.accepted[n] == id;
    assert q.accepted[..n + 1] == q.accepted[..n] + [id];
    LaterInOrder(q.started, q.accepted, n);
  }

  /** What comes from before position `n` stays in order with what stands there. */
  lemma {:induction false} LaterInOrder(a: seq<nat>, b: seq<nat>, n: nat)
    requires InOrder(a, b) && NoRepeat(b) && n < |b| && forall i :: 0 <= i < |a| ==> a[i] in b[..n]
    ensures InOrder(a + [b[n]], b)
  {
    var c := a + [b[n]];
    forall i, j, k, l | 0 <= i < j < |c| && 0 <= k < |b| && 0 <= l < |b| && b[k] == c[i] && b[l] == c[j]
      ensures k < l
    {
      if j == |a| {
        assert c[i] in b[..n];
        var p :| 0 <= p < n && b[p] == c[i];
        assert p == k && l == n;
      }
    }
  }

  lemma {:induction false} ProcessReq(q: Queue, k: nat)
    requires !q.client.running && q.list != [] && q.list[0] in q.reqs && q.list[0] !in q.list[1..]
    requires k in q.reqs && ReqOk(q, k)
    ensures ReqOk(Process(q), k)
  {
    hide Wire;
    assert k in q.list <==> k == q.list[0] || k in q.list[1..];
  }

  lemma {:induction false} ProcessKeeps(q: Queue)
    requires Inv(q) && !q.client.running
    ensures Inv(Process(q))
  {
    hide Wire, ReqOk, OrderOk;
    var r := Process(q);
    if q.list != [] {
      ProcessOrder(q);
      OrderFields(r, q.(list := q.list[1..], started := q.started + [q.list[0]]));
      forall k | k in r.reqs ensures ReqOk(r, k) { ProcessReq(q, k); }
    } else {
      OrderFields(r, q);
      forall k | k in r.reqs ensures ReqOk(r, k) { LockedReq(q, k); }
    }
  }

  lemma {:induction false} LockedReq(q: Queue, k: nat)
    requires k in q.reqs && ReqOk(q, k)
    ensures ReqOk(q.(depth := q.depth + 1), k)
  {
  }

  /** What the end of a transaction does to its request. */
  lemma {:induction false} EndApplied(q: Queue, d: Client, id: nat)
    requires id in q.reqs && id != 0 && d.job.context == id && d.job.notify && d.job.freeing
    ensures Apply(q, EndEvents(d)) == With(q, id, OnStop(OnDone(q.reqs[id], d.status, d.code, d.buffer)))
    ensures Apply(q, FreeEvents(d)) == With(q, id, OnStop(q.reqs[id]))
  {
    var done, freed := Done(id, d.status, d.code, d.buffer), Freed(id);
    assert EndEvents(d) == [done, freed] && FreeEvents(d) == [freed];
    assert [done, freed][1..] == [freed] && [freed][1..] == [];
    var m := With(q, id, OnDone(q.reqs[id], d.status, d.code, d.buffer));
    assert Apply(m, [freed]) == With(m, id, OnStop(m.reqs[id]));
    assert m.reqs[id := OnStop(m.reqs[id])] == q.reqs[id := OnStop(m.reqs[id])];
  }

  /** A request when the client goes on, or ends its transaction by itself. */
  lemma {:induction false} ServeReq(q: Queue, d: Client, r: Queue, k: nat)
    requires k in q.reqs && ReqOk(q, k) && q.client.running && q.client.job.context in q.reqs && d.job == q.client.job
    requires !d.running ==> d.status in {Ok, LocalAbort, RemoteAbort}
    requires var id := q.client.job.context;
      r == q.(client := d, reqs := if d.running then q.reqs
                 else q.reqs[id := OnStop(OnDone(q.reqs[id], d.status, d.code, d.buffer))])
    ensures ReqOk(r, k)
  {
  }

  lemma {:induction false} ServeKeeps(q: Queue, t: Step)
    requires Inv(q) && q.client.running && Valid(t.next) && t.next.job == q.client.job
    requires t.events == (if t.next.running then [] else EndEvents(t.next))
    requires !t.next.running ==> t.next.status in {Ok, LocalAbort, RemoteAbort}
    requires q.client.job.kind == Download ==> t.next.buffer == q.client.buffer
    ensures Inv(Serve(q, t))
  {
    hide EndEvents, OrderOk, Valid, ReqOk, OnStop, OnDone;
    var id, r := q.client.job.context, Serve(q, t);
    if !t.next.running {
      assert id != 0 by { NotNull(q, id); }
      EndApplied(q.(client := t.next), t.next, id);
    }
    OrderFields(r, q);
    forall k | k in r.reqs ensures ReqOk(r, k) { ServeReq(q, t.next, r, k); }
  }

  lemma {:induction false} FeedKeeps(q: Queue, f: CanFrame)
    requires Inv(q)
    ensures Inv(Serve(q, Feed(q.client, f)))
  {
    hide Wire, Read, Feed, Serve, ReqOk, OrderOk;
    SdoRuns.FeedKeepsValid(q.client, f);
    if q.client.running {
      SdoPeer.FeedEvents(q.client, f);
      ServeKeeps(q, Feed(q.client, f));
    } else {
      SdoRuns.IdleFeed(q.client, f);
      ServeNothing(q, false);
    }
  }

  lemma {:induction false} ServeNothing(q: Queue, ok: bool)
    ensures Serve(q, Step(q.client, ok, [], [])) == q
  {
  }

  lemma {:induction false} ExpireKeeps(q: Queue)
    requires Inv(q) && q.client.running
    ensures Inv(Serve(q, Timeout(q.client)))
  {
    hide Wire, ReqOk, OrderOk, Serve;
    ServeKeeps(q, Timeout(q.client));
  }

  lemma {:induction false} CancelAllAt(reqs: map<nat, Req>, ids: seq<nat>, id: nat)
    requires NoRepeat(ids)
    ensures CancelAll(reqs, ids).Keys == reqs.Keys
    ensures id in reqs ==> CancelAll(reqs, ids)[id] == if id in ids then CancelOne(reqs, id)[id] else reqs[id]
    decreases |ids|
  {
    if ids != [] {
      CancelAllAt(CancelOne(reqs, ids[0]), ids[1..], id);
      assert id in ids <==> id == ids[0] || id in ids[1..];
    }
  }

  lemma {:induction false} FlushKeeps(q: Queue)
    requires Inv(q)
    ensures Inv(Flush(q))
    ensures Flush(q).list == [] && !Flush(q).client.running
  {
    hide OrderOk, ReqOk, CancelAll;
    var c := q.(reqs := CancelAll(q.reqs, q.list), list := [], size := 0);
    FlushOrder(q);
    OrderFields(c, q.(list := []));
    forall k ensures c.reqs.Keys == q.reqs.Keys &&
      (k in q.reqs ==> c.reqs[k] == if k in q.list then CancelOne(q.reqs, k)[k] else q.reqs[k])
    {
      CancelAllAt(q.reqs, q.list, k);
    }
    FlushReqs(q, c);
  }

  lemma {:induction false} FlushOrder(q: Queue)
    requires OrderOk(q)
    ensures NoRepeat(q.list) && OrderOk(q.(list := []))
  {
    hide InOrder;
    var n := |q.accepted| - |q.list|;
    assert q.accepted[..|q.accepted|] == q.accepted;
    forall i | 0 <= i < |q.started| ensures q.started[i] in q.accepted { assert q.started[i] in q.accepted[..n]; }
  }

  lemma {:induction false} FlushReq(q: Queue, c: Queue, r: Queue, k: nat)
    requires k in q.reqs && ReqOk(q, k) && c.reqs.Keys == q.reqs.Keys
    requires c.reqs[k] == if k in q.list then CancelOne(q.reqs, k)[k] else q.reqs[k]
    requires r == c.(client := r.client, reqs := r.reqs) && !r.client.running
    requires c.list == [] && c.accepted == q.accepted
    requires r.reqs == if q.client.running && q.client.job.context in c.reqs
      then c.reqs[q.client.job.context := OnStop(c.reqs[q.client.job.context])] else c.reqs
    ensures ReqOk(r, k)
  {
  }

  lemma {:induction false} FlushReqs(q: Queue, c: Queue)
    requires Inv(q) && c == q.(reqs := c.reqs, list := [], size := 0) && c.reqs.Keys == q.reqs.Keys && OrderOk(c)
    requires forall k :: k in q.reqs ==> c.reqs[k] == if k in q.list then CancelOne(q.reqs, k)[k] else q.reqs[k]
    ensures var r := Serve(c, Stop(q.client)); Inv(r) && r.list == [] && !r.client.running
  {
    hide OrderOk, OnStop, CancelOne, ReqOk;
    var r := Serve(c, Stop(q.client));
    var id := q.client.job.context;
    if q.client.running {
      assert id != 0 by { NotNull(q, id); }
      EndApplied(c.(client := Stop(q.client).next), q.client, id);
    }
    OrderFields(r, c);
    forall k | k in r.reqs ensures ReqOk(r, k) { FlushReq(q, c, r, k); }
  }

  lemma {:induction false} NotNull(q: Queue, id: nat)
    requires id in q.reqs && ReqOk(q, id)
    ensures id != 0
  {
  }

  // -------------------------------------------------------------- whole runs

  /** The calls: requests are created, started, referenced and given up by the user;
      the main loop takes the next one and delivers frames and timeouts; the queue is
      flushed. */
  datatype Op =
    | NewOp(id: nat, kind: Kind, mux: Mux, data: seq<bv8>, notify: bool)
    | StartOp(id: nat) | RefOp(id: nat) | UnrefOp(id: nat)
    | ProcessOp | FeedOp(frame: CanFrame) | ExpireOp | FlushOp

  /** A call the source allows: its assertions on `parent` and `is_running`, and that
      whoever uses a request holds a reference to it. */
  predicate Allowed(q: Queue, op: Op) {
    match op
    case NewOp(id, _, _, _, _) => id != 0 && id !in q.reqs && id !in q.accepted
    case StartOp(id) => id in q.reqs && !q.reqs[id].parent && q.reqs[id].users > 0
    case RefOp(id) => id in q.reqs && q.reqs[id].users > 0
    case UnrefOp(id) => id in q.reqs && q.reqs[id].users > 0
    case ProcessOp => !q.client.running
    case ExpireOp => q.client.running
    case _ => true
  }

  ghost function Call(q: Queue, op: Op): Queue
    requires Valid(q.client)
  {
    if !Allowed(q, op) then q
    else match op
      case NewOp(id, kind, mux, data, notify) =>
        With(q, id, Req(kind, mux, if kind == Download then data else [], notify, Pending, 0, 1, 1, false, 0, 0, 0))
      case StartOp(id) => Enqueue(q, id)
      case RefOp(id) => With(q, id, q.reqs[id].(ref := q.reqs[id].ref + 1, users := q.reqs[id].users + 1))
      case UnrefOp(id) =>
        var r := q.reqs[id];
        With(q, id, r.(ref := if r.ref > 0 then r.ref - 1 else 0, users := r.users - 1))
      case ProcessOp => Process(q)
      case FeedOp(f) => Serve(q, Feed(q.client, f))
      case ExpireOp => Serve(q, Timeout(q.client))
      case FlushOp => Flush(q)
  }

  lemma {:induction false} UserReq(q: Queue, op: Op, k: nat)
    requires Valid(q.client) && (op.NewOp? || op.RefOp? || op.UnrefOp?) && Allowed(q, op)
    requires op.NewOp? ==> op.id !in q.list && !InFlight(q, op.id)
    requires k in q.reqs ==> ReqOk(q, k)
    requires k in Call(q, op).reqs
    ensures ReqOk(Call(q, op), k)
  {
    hide Wire, Valid;
  }

  lemma {:induction false} UserKeeps(q: Queue, op: Op)
    requires Inv(q) && (op.NewOp? || op.RefOp? || op.UnrefOp?)
    ensures Inv(Call(q, op))
  {
    hide Wire, Valid, OrderOk, ReqOk;
    var r := Call(q, op);
    if Allowed(q, op) {
      assert op.NewOp? ==> op.id !in q.list by { ListAccepted(q); }
      OrderFields(r, q);
      forall k | k in r.reqs ensures ReqOk(r, k) { UserReq(q, op, k); }
    }
  }

  lemma {:induction false} ListAccepted(q: Queue)
    requires OrderOk(q)
    ensures forall id :: id in q.list ==> id in q.accepted
  {
  }

  lemma {:induction false} CallKeeps(q: Queue, op: Op)
    requires Inv(q)
    ensures Inv(Call(q, op))
  {
    hide Wire, Serve, Feed, Process, Flush, Enqueue, OrderOk, ReqOk;
    match op
    case StartOp(id) => if Allowed(q, op) { EnqueueKeeps(q, id); }
    case ProcessOp => if Allowed(q, op) { ProcessKeeps(q); }
    case FeedOp(f) => FeedKeeps(q, f);
    case ExpireOp => if Allowed(q, op) { ExpireKeeps(q); }
    case FlushOp => FlushKeeps(q);
    case _ => UserKeeps(q, op);
  }

  ghost function Calls(q: Queue, ops: seq<Op>): (r: Queue)
    requires Inv(q)
    ensures Inv(r)
    decreases |ops|
  {
    if ops == [] then q else CallKeeps(q, ops[0]); Calls(Call(q, ops[0]), ops[1..])
  }

  /** A queue no request has been started on. */
  ghost predicate Fresh(q: Queue) {
    && q.list == [] && q.size == 0 && !q.client.running && q.accepted == [] && q.started == []
    && (forall id :: id in q.reqs ==>
          var r := q.reqs[id];
          && id != 0 && !r.parent && r.ref == r.users && r.status == Pending
          && r.begun == 0 && r.told == 0 && r.released == 0)
  }

  lemma {:induction false} FreshHolds(q: Queue)
    requires Fresh(q)
    ensures Inv(q)
  {
  }

  /** In every run: the recorded size is the length of the list and within the limit;
      requests are started in the order in which they were accepted, one at a time;
      and an accepted request is either waiting, or in flight, or has been given up by
      the queue exactly once, no longer pending, its user told exactly once if the
      transaction finished and never if it was cancelled. */
  lemma {:induction false} EveryRun(q: Queue, ops: seq<Op>, id: nat)
    requires Fresh(q)
    ensures Inv(q)
    ensures var r := Calls(q, ops);
      && r.size == |r.list| <= r.limit
      && InOrder(r.started, r.accepted)
      && (id in r.accepted ==> id in r.reqs)
      && (id in r.accepted && id !in r.list && !InFlight(r, id) ==>
            var x := r.reqs[id];
            && x.released == 1 && x.ref == x.users && x.status != Pending
            && x.told == (if x.status != Cancelled && x.notify then 1 else 0))
      && (id in r.accepted && (id in r.list || InFlight(r, id)) ==>
            var x := r.reqs[id];
            && x.released == 0 && x.told == 0 && x.ref == x.users + 1 && x.status == Pending
            && !(id in r.list && InFlight(r, id)))
  {
    hide Calls;
    FreshHolds(q);
    var r := Calls(q, ops);
    if id in r.accepted { assert ReqOk(r, id); }
  }

  /** What the user has fixed of a request. */
  ghost predicate SameOrder(r: Req, x: Req) {
    x.kind == r.kind && x.mux == r.mux && x.notify == r.notify && (r.kind == Download ==> x.data == r.data)
  }

  lemma {:induction false} ServeSame(q: Queue, t: Step, id: nat)
    requires id in q.reqs
    ensures id in Serve(q, t).reqs && SameOrder(q.reqs[id], Serve(q, t).reqs[id])
  {
    hide Apply;
    ApplySame(q.(client := t.next), t.events, id);
  }

  lemma {:induction false} ApplySame(q: Queue, es: seq<Event>, id: nat)
    requires id in q.reqs
    ensures id in Apply(q, es).reqs && SameOrder(q.reqs[id], Apply(q, es).reqs[id])
    decreases |es|
  {
    if es != [] {
      var k := es[0].context;
      if k !in q.reqs {
        ApplySame(q, es[1..], id);
      } else {
        match es[0]
        case Done(_, status, code, data) => ApplySame(With(q, k, OnDone(q.reqs[k], status, code, data)), es[1..], id);
        case Freed(_) => ApplySame(With(q, k, OnStop(q.reqs[k])), es[1..], id);
      }
    }
  }

  lemma {:induction false} CallSame(q: Queue, op: Op, id: nat)
    requires Inv(q) && id in q.reqs
    ensures id in Call(q, op).reqs && SameOrder(q.reqs[id], Call(q, op).reqs[id])
  {
    hide Wire, Feed, Start, Apply, CancelAll, OrderOk, ReqOk;
    match op
    case FeedOp(f) => ServeSame(q, Feed(q.client, f), id);
    case ExpireOp => ServeSame(q, Timeout(q.client), id);
    case FlushOp =>
      FlushOrder(q);
      CancelAllAt(q.reqs, q.list, id);
      ServeSame(q.(reqs := CancelAll(q.reqs, q.list), list := [], size := 0), Stop(q.client), id);
    case _ =>
  }

  /** Over every run, a request stays what its user made it: direction, index, callback
      and the data of a download. */
  lemma {:induction false} OrdersStand(q: Queue, ops: seq<Op>, id: nat)
    requires Inv(q) && id in q.reqs
    ensures id in Calls(q, ops).reqs && SameOrder(q.reqs[id], Calls(q, ops).reqs[id])
    decreases |ops|
  {
    hide Inv, Call;
    if ops != [] {
      assert Valid(q.client) by { InvIsValid(q); }
      CallKeeps(q, ops[0]);
      CallSame(q, ops[0], id);
      OrdersStand(Call(q, ops[0]), ops[1..], id);
    }
  }

  /** A new request is the one asked for, pending and its user's alone. */
  lemma {:induction false} NewOrder(q: Queue, id: nat, kind: Kind, m: Mux, data: seq<bv8>, notify: bool)
    requires Inv(q) && id != 0 && id !in q.reqs
    ensures var r := Call(q, NewOp(id, kind, m, data, notify)).reqs;
      && id in r && r[id].kind == kind && r[id].mux == m && r[id].notify == notify
      && r[id].data == (if kind == Download then data else [])
      && r[id].status == Pending && r[id].ref == 1 && !r[id].parent
  {
    hide ReqOk, OrderOk;
  }

  /** The user's references: one more with each taken, one less with each given up. */
  lemma {:induction false} UserReferences(q: Queue, id: nat)
    requires Inv(q) && id in q.reqs && q.reqs[id].users > 0
    ensures Call(q, RefOp(id)).reqs
      == q.reqs[id := q.reqs[id].(ref := q.reqs[id].ref + 1, users := q.reqs[id].users + 1)]
    ensures Call(Call(q, RefOp(id)), UnrefOp(id)) == q
  {
    hide OrderOk;
    assert ReqOk(q, id);
    var r := Call(q, RefOp(id)).reqs;
    assert r[id := q.reqs[id]] == q.reqs;
  }

  function CountReleased(reqs: map<nat, Req>, ids: seq<nat>): nat {
    if ids == [] then 0
    else
      var x := ids[|ids| - 1];
      CountReleased(reqs, ids[..|ids| - 1]) + if x in reqs then reqs[x].released else 0
  }

  /** Of the accepted, those before the list and not in flight have been given up. */
  lemma {:induction false} ReleasedAt(q: Queue, i: nat)
    requires Inv(q) && i < |q.accepted|
    ensures var n, x := |q.accepted| - |q.list|, q.accepted[i];
      && x in q.reqs && x !in q.accepted[..i]
      && q.reqs[x].released == (if i < n && !InFlight(q, x) then 1 else 0)
      && (InFlight(q, x) ==> i < n)
  {
    hide InOrder;
    var n, x := |q.accepted| - |q.list|, q.accepted[i];
    assert ReqOk(q, x);
    assert i >= n ==> q.list[i - n] == x;
  }

  lemma {:induction false} ListShorter(q: Queue)
    requires Inv(q)
    ensures |q.list| <= |q.accepted|
  {
  }

  lemma {:induction false} ReleasedUpTo(q: Queue, k: nat)
    requires Inv(q) && k <= |q.accepted|
    ensures var n, flying := |q.accepted| - |q.list|, q.client.running && q.client.job.context in q.accepted[..k];
      CountReleased(q.reqs, q.accepted[..k]) == (if k <= n then k else n) - if flying then 1 else 0
    decreases k
  {
    hide Inv;
    ListShorter(q);
    if k > 0 {
      ReleasedUpTo(q, k - 1);
      ReleasedAt(q, k - 1);
      assert q.accepted[..k][..k - 1] == q.accepted[..k - 1];
      assert q.accepted[..k] == q.accepted[..k - 1] + [q.accepted[k - 1]];
    }
  }

  /** Accepted requests are those waiting, plus the one in flight, plus those given up. */
  lemma {:induction false} Conservation(q: Queue)
    requires Inv(q)
    ensures |q.accepted| == |q.list| + (if q.client.running then 1 else 0) + CountReleased(q.reqs, q.accepted)
  {
    hide InOrder;
    ReleasedUpTo(q, |q.accepted|);
    assert q.accepted[..|q.accepted|] == q.accepted;
    if q.client.running { assert ReqOk(q, q.client.job.context); }
  }

  // ------------------------------------------------------------------- the lock

  /** sdo_req__have_req, the condition under which the main loop takes a request. */
  predicate HaveReq(q: Queue) { !q.client.running && q.list != [] }

  /** How many times in a run the next request was taken from an empty list. */
  ghost function EmptyTakes(q: Queue, ops: seq<Op>): nat
    requires Inv(q)
    decreases |ops|
  {
    if ops == [] then 0
    else
      CallKeeps(q, ops[0]);
      (if ops[0].ProcessOp? && Allowed(q, ops[0]) && q.list == [] then 1 else 0)
      + EmptyTakes(Call(q, ops[0]), ops[1..])
  }

  lemma {:induction false} CallDepth(q: Queue, op: Op)
    requires Inv(q)
    ensures Call(q, op).depth == q.depth + if op.ProcessOp? && Allowed(q, op) && q.list == [] then 1 else 0
  {
    hide Wire, Feed, Start, Apply, CancelAll, OrderOk;
    match op
    case FeedOp(f) => ServeDepth(q, Feed(q.client, f));
    case ExpireOp => ServeDepth(q, Timeout(q.client));
    case FlushOp => ServeDepth(q.(reqs := CancelAll(q.reqs, q.list), list := [], size := 0), Stop(q.client));
    case ProcessOp => HeadIsRequest(q);
    case _ =>
  }

  lemma {:induction false} ServeDepth(q: Queue, t: Step)
    ensures Serve(q, t).depth == q.depth
  {
    hide Apply;
    ApplyDepth(q.(client := t.next), t.events, q.depth);
  }

  /** Over every run the lock is left held once for every time a request was taken from
      an empty list, and nothing ever makes up for it: from a free lock, the lock is
      free again if and only if that never happened, and whatever is called afterwards
      it is held no less. */
  lemma {:induction false} LockBalance(q: Queue, ops: seq<Op>, more: seq<Op>)
    requires Inv(q)
    ensures Calls(q, ops).depth == q.depth + EmptyTakes(q, ops)
    ensures q.depth == 0 ==> (Calls(q, ops).depth == 0 <==> EmptyTakes(q, ops) == 0)
    ensures Calls(Calls(q, ops), more).depth >= Calls(q, ops).depth
  {
    hide Inv, Call;
    DepthOverRun(q, ops);
    DepthOverRun(Calls(q, ops), more);
  }

  lemma {:induction false} DepthOverRun(q: Queue, ops: seq<Op>)
    requires Inv(q)
    ensures Calls(q, ops).depth == q.depth + EmptyTakes(q, ops)
    decreases |ops|
  {
    hide Inv, Call;
    if ops != [] {
      assert Valid(q.client) by { InvIsValid(q); }
      CallKeeps(q, ops[0]);
      CallDepth(q, ops[0]);
      DepthOverRun(Call(q, ops[0]), ops[1..]);
    }
  }

  lemma {:induction false} InvIsValid(q: Queue)
    requires Inv(q)
    ensures Valid(q.client)
  {
  }

  /** It does happen: the main loop finds a request, a flush empties the list before the
      lock is taken, and the lock stays held. */
  lemma {:induction false} FlushedBeforeTaken(q: Queue, id: nat)
    requires Inv(q) && !q.client.running && q.list == [] && q.limit > 0 && Allowed(q, StartOp(id))
    ensures HaveReq(Call(q, StartOp(id)))
    ensures Calls(q, [StartOp(id), FlushOp, ProcessOp]).depth == q.depth + 1
  {
    hide Wire, Flush, Process, OrderOk, ReqOk;
    var a := Call(q, StartOp(id));
    CallKeeps(q, StartOp(id));
    FlushKeeps(a);
    var b := Call(a, FlushOp);
    CallDepth(q, StartOp(id));
    CallDepth(a, FlushOp);
    CallDepth(b, ProcessOp);
    ThreeCalls(q, StartOp(id), FlushOp, ProcessOp);
  }

  lemma {:induction false} ThreeCalls(q: Queue, x: Op, y: Op, z: Op)
    requires Inv(q)
    ensures Inv(Call(q, x)) && Inv(Call(Call(q, x), y))
    ensures Calls(q, [x, y, z]) == Call(Call(Call(q, x), y), z)
  {
    hide Inv, Call;
    InvIsValid(q);
    CallKeeps(q, x);
    var a := Call(q, x);
    InvIsValid(a);
    CallKeeps(a, y);
    var b := Call(a, y);
    InvIsValid(b);
    CallKeeps(b, z);
    assert [x, y, z][1..] == [y, z] && [y, z][1..] == [z] && [z][1..] == [];
    assert Calls(Call(b, z), []) == Call(b, z);
    assert Calls(b, [z]) == Calls(Call(b, z), []);
    assert Calls(a, [y, z]) == Calls(b, [z]);
  }

  // -------------------------------------------------------------- the machine

  class ReqQueue {
    const limit: nat
    const client: SdoAsync
    var list: seq<nat>
    var size: nat
    var lockDepth: nat
    var reqs: map<nat, Req>
    ghost var accepted: seq<nat>
    ghost var started: seq<nat>

    ghost function View(): Queue
      reads this, client
    {
      Queue(list, size, limit, client.View(), lockDepth, reqs, accepted, started)
    }

    ghost predicate Good()
      reads this, client
    {
      client.Good() && Inv(View())
    }

    constructor (limit: nat, quirks: Quirks)
      ensures Good() && fresh(client) && list == [] && lockDepth == 0 && reqs == map[] && accepted == []
    {
      this.limit := limit;
      client := new SdoAsync(quirks);
      list, size, lockDepth, reqs := [], 0, 0, map[];
      accepted, started := [], [];
    }

    /** sdo_req_queue__enqueue. */
    method Append(id: nat) returns (ok: bool)
      requires id in reqs && !reqs[id].parent
      modifies this`size, this`list, this`reqs, this`accepted, this`lockDepth
      ensures ok == (old(size) < limit) && lockDepth == old(lockDepth)
      ensures ok ==> size == old(size) + 1 && list == old(list) + [id] && accepted == old(accepted) + [id]
      ensures ok ==> reqs == old(reqs)[id := old(reqs)[id].(parent := true)]
      ensures !ok ==> size == old(size) && list == old(list) && accepted == old(accepted) && reqs == old(reqs)
    {
      lockDepth := lockDepth + 1;
      if size >= limit {
        ok := false;
      } else {
        size := size + 1;
        reqs := reqs[id := reqs[id].(parent := true)];
        list := list + [id];
        accepted := accepted + [id];
        ok := true;
      }
      lockDepth := lockDepth - 1;
    }

    /** sdo_req_start. */
    method StartReq(id: nat) returns (ok: bool)
      requires Good() && id in reqs && !reqs[id].parent
      modifies this
      ensures Good() && View() == Enqueue(old(View()), id) && ok == (old(size) < limit)
    {
      hide Inv;
      ghost var q := View();
      EnqueueKeeps(q, id);
      reqs := reqs[id := reqs[id].(ref := reqs[id].ref + 1)];
      ok := Append(id);
      if !ok { reqs := reqs[id := reqs[id].(ref := reqs[id].ref - 1)]; }
      assert View() == Enqueue(q, id);
    }

    /** sdo_req_queue__dequeue: nothing, and the lock still held, if the list is empty. */
    method Dequeue() returns (id: nat)
      requires size == |list|
      modifies this`size, this`list, this`lockDepth
      ensures old(list) == [] ==> id == 0 && list == [] && size == 0 && lockDepth == old(lockDepth) + 1
      ensures old(list) != [] ==> id == old(list)[0] && list == old(list)[1..]
      ensures old(list) != [] ==> size == |list| && lockDepth == old(lockDepth)
    {
      lockDepth := lockDepth + 1;
      if list == [] { return 0; }
      id := list[0];
      size := size - 1;
      list := list[1..];
      lockDepth := lockDepth - 1;
    }

    /** sdo_req__process_queue. */
    method ProcessQueue() returns (sent: seq<CanFrame>)
      requires Good() && !client.running
      modifies this, client
      ensures Good() && View() == Process(old(View()))
      ensures old(list) == [] ==> sent == []
      ensures old(list) != [] ==>
        old(list)[0] in old(reqs) && sent == [Wire(client.quirks, Opening(old(reqs)[old(list)[0]]))]
    {
      hide Inv, Wire, Start, InfoOf, Valid;
      ghost var q := View();
      ProcessKeeps(q);
      HeadIsRequest(q);
      sent := [];
      lockDepth := lockDepth + 1;
      var id := Dequeue();
      if id != 0 {
        var r := reqs[id];
        var ok, events;
        OpeningSent(q.client, r, id);
        ok, sent, events := client.StartTransaction(InfoOf(r, id));
        reqs := reqs[id := r.(begun := r.begun + 1)];
        started := started + [id];
      }
      lockDepth := lockDepth - 1;
    }

    /** The client's calls of sdo_req__on_done and sdo_req__on_stop. */
    method Callbacks(events: seq<Event>)
      modifies this`reqs
      ensures View() == Apply(old(View()), events)
    {
      ghost var q := View();
      for i := 0 to |events|
        invariant Apply(View(), events[i..]) == Apply(q, events)
        invariant View() == q.(reqs := reqs)
      {
        assert events[i..][1..] == events[i + 1..];
        var id := events[i].context;
        if id in reqs {
          match events[i]
          case Done(_, status, code, data) => reqs := reqs[id := OnDone(reqs[id], status, code, data)];
          case Freed(_) => reqs := reqs[id := OnStop(reqs[id])];
        }
      }
    }

    method OnFrame(f: CanFrame) returns (sent: seq<CanFrame>)
      requires Good()
      modifies this, client
      ensures Good() && View() == Serve(old(View()), Feed(old(client.View()), f))
      ensures sent == Feed(old(client.View()), f).sent
    {
      hide Inv, Wire, Feed;
      FeedKeeps(View(), f);
      var ok, events;
      ok, sent, events := client.FeedFrame(f);
      Callbacks(events);
    }

    method OnTimeout() returns (sent: seq<CanFrame>)
      requires Good() && client.running
      modifies this, client
      ensures Good() && View() == Serve(old(View()), Timeout(old(client.View())))
      ensures old(client.job.context) in old(reqs)
      ensures sent == [Wire(client.quirks, ReqAbort(old(reqs)[old(client.job.context)].mux, AbortTimeout))]
    {
      hide Inv, Wire;
      ExpireKeeps(View());
      FlightIsRequest(View());
      var events;
      sent, events := client.OnTimeout();
      Callbacks(events);
    }

    /** sdo_req_queue_flush, with the loop of sdo_req__queue_clear. */
    method FlushQueue()
      requires Good()
      modifies this, client
      ensures Good() && View() == Flush(old(View()))
    {
      hide Inv, Wire;
      ghost var q := View();
      FlushKeeps(q);
      lockDepth := lockDepth + 1;
      while list != []
        invariant CancelAll(reqs, list) == CancelAll(q.reqs, q.list)
        invariant View() == q.(list := list, reqs := reqs, depth := q.depth + 1)
        invariant client.Good()
        decreases |list|
      {
        var id := list[0];
        list := list[1..];
        if id in reqs { reqs := reqs[id := Released(reqs[id].(status := Cancelled))]; }
      }
      size := 0;
      var ok, sent, events := client.StopTransaction();
      ApplyDepth(View(), events, q.depth);
      Callbacks(events);
      lockDepth := lockDepth - 1;
    }
  }

  /** A request is asked for, or its data offered, under its own index. */
  lemma {:induction false} OpeningSent(c: Client, r: Req, id: nat)
    requires !c.running
    ensures Start(c, InfoOf(r, id)).sent == [Wire(c.quirks, Opening(r))]
  {
    hide Wire;
  }

  lemma {:induction false} FlightIsRequest(q: Queue)
    requires Inv(q) && q.client.running
    ensures q.client.job.context in q.reqs
    ensures var r := q.reqs[q.client.job.context];
      q.client.job.mux == r.mux && q.client.job.kind == r.kind && (r.kind == Download ==> q.client.buffer == r.data)
  {
  }

  lemma {:induction false} HeadIsRequest(q: Queue)
    requires Inv(q)
    ensures q.size == |q.list| && (q.list != [] ==> q.list[0] in q.reqs && q.list[0] != 0)
  {
    if q.list != [] {
      assert q.list[0] in q.accepted;
      assert ReqOk(q, q.list[0]);
    }
  }

  /** The callbacks do not look at the lock. */
  lemma {:induction false} ApplyDepth(q: Queue, es: seq<Event>, depth: nat)
    ensures Apply(q.(depth := depth), es) == Apply(q, es).(depth := depth)
    decreases |es|
  {
    if es != [] {
      var id := es[0].context;
      if id !in q.reqs {
        ApplyDepth(q, es[1..], depth);
      } else {
        match es[0]
        case Done(_, status, code, data) =>
          ApplyDepth(With(q, id, OnDone(q.reqs[id], status, code, data)), es[1..], depth);
        case Freed(_) => ApplyDepth(With(q, id, OnStop(q.reqs[id])), es[1..], depth);
      }
    }
  }
}
