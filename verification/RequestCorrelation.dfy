/**
Requests and their responses. One side registers a waiter under a message id and sends the request; the
other side builds a responder for each request that arrives, and the responder sends at most one response.
The network keeps every message it was given and may deliver it late, never, or many times.
*/
module RequestCorrelation {
  import opened Counting
  import opened Runs

  /** What became of the sending half of a waiter's channel; `heard` tells whether the caller still waited. */
  datatype Sender = Pending | Consumed(payload: nat, responder: nat, heard: bool) | Dropped

  datatype Waiter = Waiter(id: nat, body: nat, sender: Sender, listening: bool)

  /** `origin` is the waiter whose request this is; nothing in the protocol depends on it. */
  datatype Request = Request(id: nat, body: nat, origin: nat)

  datatype Responder = Responder(request: Request, responded: bool)

  datatype Response = Response(id: nat, payload: nat, responder: nat)

  /** `failed` holds the waiters whose request could not be sent; `cleared` counts those before the last clear. */
  datatype State = State(
    pending: map<nat, nat>,
    waiters: seq<Waiter>,
    requests: set<Request>,
    responders: seq<Responder>,
    responses: set<Response>,
    failed: set<nat>,
    cleared: nat)

  datatype Step =
    | Register(id: nat, body: nat)
    | Send(waiter: nat)
    | FailSend(waiter: nat)
    | GiveUp(waiter: nat)
    | ReceiveRequest(request: Request)
    | Respond(responder: nat, payload: nat)
    | ReceiveResponse(response: Response)
    | Clear

  ghost predicate Init(s: State) {
    s == State(map[], [], {}, [], {}, {}, 0)
  }

  ghost predicate Enabled(s: State, step: Step) {
    match step
    case Register(_, _) => true
    case Send(w) => w < |s.waiters| && w !in s.failed
    case FailSend(w) => w < |s.waiters| && forall request :: request in s.requests ==> request.origin != w
    case GiveUp(w) => w < |s.waiters|
    case ReceiveRequest(request) => request in s.requests
    case Respond(r, _) => r < |s.responders|
    case ReceiveResponse(response) => response in s.responses
    case Clear => true
  }

  function Settle(waiters: seq<Waiter>, w: nat, sender: Sender): seq<Waiter> {
    if w < |waiters| then waiters[w := waiters[w].(sender := sender)] else waiters
  }

  /** A caller that has its answer, or knows that there will be none, does not listen any more anyhow. */
  function StopListening(waiters: seq<Waiter>, w: nat): seq<Waiter>
    requires w < |waiters|
  {
    if waiters[w].sender.Pending? then waiters[w := waiters[w].(listening := false)] else waiters
  }

  function DropPending(waiters: seq<Waiter>): seq<Waiter> {
    seq(|waiters|, w requires 0 <= w < |waiters| =>
      if waiters[w].sender.Pending? then waiters[w].(sender := Dropped) else waiters[w])
  }

  ghost function Exec(s: State, step: Step): State
    requires Enabled(s, step)
  {
    match step
    case Register(id, body) =>
      var others := if id in s.pending then Settle(s.waiters, s.pending[id], Dropped) else s.waiters;
      s.(waiters := others + [Waiter(id, body, Pending, true)], pending := s.pending[id := |s.waiters|])
    case Send(w) => s.(requests := s.requests + {Request(s.waiters[w].id, s.waiters[w].body, w)})
    // the caller gets the error and drops its end, but the waiter stays registered
    case FailSend(w) => s.(failed := s.failed + {w}, waiters := StopListening(s.waiters, w))
    case GiveUp(w) => s.(waiters := StopListening(s.waiters, w))
    case ReceiveRequest(request) => s.(responders := s.responders + [Responder(request, false)])
    case Respond(r, payload) =>
      var responder := s.responders[r];
      if responder.responded then s
      else
        s.(responders := s.responders[r := responder.(responded := true)],
           responses := s.responses + {Response(responder.request.id, payload, r)})
    case ReceiveResponse(response) =>
      if response.id in s.pending then
        var w := s.pending[response.id];
        var heard := w < |s.waiters| && s.waiters[w].listening;
        s.(pending := s.pending - {response.id},
           waiters := Settle(s.waiters, w, Consumed(response.payload, response.responder, heard)))
      else s
    case Clear => s.(pending := map[], waiters := DropPending(s.waiters), cleared := |s.waiters|)
  }

  ghost predicate Next(s: State, s': State) {
    exists step :: Enabled(s, step) && s' == Exec(s, step)
  }

  // ---------- the invariant ----------

  /** The pending table holds exactly the waiters that are pending, each under its own id. */
  ghost predicate TableOk(s: State) {
    && (forall id :: id in s.pending ==>
          s.pending[id] < |s.waiters| && s.waiters[s.pending[id]].id == id && s.waiters[s.pending[id]].sender.Pending?)
    && (forall w :: 0 <= w < |s.waiters| && s.waiters[w].sender.Pending? ==>
          s.waiters[w].id in s.pending && s.pending[s.waiters[w].id] == w)
  }

  ghost predicate Sent(s: State, request: Request) {
    && request.origin < |s.waiters| && request.origin !in s.failed
    && s.waiters[request.origin].id == request.id && s.waiters[request.origin].body == request.body
  }

  ghost predicate RequestsOk(s: State) {
    && (forall request :: request in s.requests ==> Sent(s, request))
    && (forall r :: 0 <= r < |s.responders| ==> s.responders[r].request in s.requests)
  }

  /** Each response is the only one of a responder that has responded. */
  ghost predicate ResponsesOk(s: State) {
    && (forall a :: a in s.responses ==>
          && a.responder < |s.responders|
          && s.responders[a.responder].responded && s.responders[a.responder].request.id == a.id)
    && (forall a, b :: a in s.responses && b in s.responses && a.responder == b.responder ==> a == b)
  }

  ghost predicate WaiterOk(s: State, waiter: Waiter) {
    waiter.sender.Consumed? ==> Response(waiter.id, waiter.sender.payload, waiter.sender.responder) in s.responses
  }

  ghost function IsPending(): Waiter -> nat {
    (w: Waiter) => if w.sender.Pending? then 1 else 0
  }

  ghost predicate Inv(s: State) {
    && TableOk(s)
    && RequestsOk(s)
    && ResponsesOk(s)
    && (forall w :: 0 <= w < |s.waiters| ==> WaiterOk(s, s.waiters[w]))
    && Sum(IsPending(), s.waiters) == |s.pending|
  }

  lemma RegisterKeepsTable(s: State, id: nat, body: nat)
    requires TableOk(s)
    ensures TableOk(Exec(s, Register(id, body)))
  {
  }

  lemma ReceiveKeepsTable(s: State, response: Response)
    requires TableOk(s) && Enabled(s, ReceiveResponse(response))
    ensures TableOk(Exec(s, ReceiveResponse(response)))
  {
  }

  lemma KeepsTable(s: State, step: Step)
    requires TableOk(s) && Enabled(s, step)
    ensures TableOk(Exec(s, step))
  {
    if step.Register? {
      RegisterKeepsTable(s, step.id, step.body);
    } else if step.ReceiveResponse? {
      ReceiveKeepsTable(s, step.response);
    } else if step.Clear? {
    } else {
    }
  }

  lemma KeepsRequests(s: State, step: Step)
    requires TableOk(s) && RequestsOk(s) && Enabled(s, step)
    ensures RequestsOk(Exec(s, step))
  {
    var s' := Exec(s, step);
    forall request | request in s.requests
      ensures Sent(s', request)
    {
    }
  }

  lemma KeepsResponses(s: State, step: Step)
    requires RequestsOk(s) && ResponsesOk(s) && Enabled(s, step)
    ensures ResponsesOk(Exec(s, step))
    ensures s.responses <= Exec(s, step).responses
  {
  }

  lemma KeepsWaiters(s: State, step: Step, w: nat)
    requires TableOk(s) && Enabled(s, step) && w < |Exec(s, step).waiters|
    requires forall v :: 0 <= v < |s.waiters| ==> WaiterOk(s, s.waiters[v])
    ensures WaiterOk(Exec(s, step), Exec(s, step).waiters[w])
  {
    if w < |s.waiters| {
      assert WaiterOk(s, s.waiters[w]);
    }
  }

  lemma {:induction false} SumAppend(waiters: seq<Waiter>, waiter: Waiter)
    ensures Sum(IsPending(), waiters + [waiter]) == Sum(IsPending(), waiters) + IsPending()(waiter)
  {
    if waiters != [] {
      assert (waiters + [waiter])[1..] == waiters[1..] + [waiter];
      SumAppend(waiters[1..], waiter);
    }
  }

  lemma RegisterKeepsCount(s: State, step: Step)
    requires TableOk(s) && Enabled(s, step) && step.Register?
    requires Sum(IsPending(), s.waiters) == |s.pending|
    ensures Sum(IsPending(), Exec(s, step).waiters) == |Exec(s, step).pending|
  {
    hide Sum, TableOk, Settle;
    var id, added := step.id, Waiter(step.id, step.body, Pending, true);
    if id in s.pending {
      OverwriteKeepsCount(s, id);
      SumAppend(Settle(s.waiters, s.pending[id], Dropped), added);
      assert s.pending[id := |s.waiters|].Keys == s.pending.Keys;
    } else {
      SumAppend(s.waiters, added);
      assert s.pending[id := |s.waiters|].Keys == s.pending.Keys + {id};
    }
  }

  /** A waiter that is overwritten no longer counts. */
  lemma OverwriteKeepsCount(s: State, id: nat)
    requires TableOk(s) && id in s.pending
    ensures Sum(IsPending(), Settle(s.waiters, s.pending[id], Dropped)) + 1 == Sum(IsPending(), s.waiters)
  {
    var w := s.pending[id];
    SumUpdate(IsPending(), s.waiters, w, s.waiters[w].(sender := Dropped));
  }

  lemma ReceiveKeepsCount(s: State, step: Step)
    requires TableOk(s) && Enabled(s, step) && step.ReceiveResponse?
    requires Sum(IsPending(), s.waiters) == |s.pending|
    ensures Sum(IsPending(), Exec(s, step).waiters) == |Exec(s, step).pending|
  {
    hide Sum;
    var id := step.response.id;
    if id in s.pending {
      var w := s.pending[id];
      var sender := Consumed(step.response.payload, step.response.responder, s.waiters[w].listening);
      SumUpdate(IsPending(), s.waiters, w, s.waiters[w].(sender := sender));
      assert s.pending.Keys == (s.pending - {id}).Keys + {id};
    }
  }

  lemma KeepsCount(s: State, step: Step)
    requires TableOk(s) && Enabled(s, step)
    requires Sum(IsPending(), s.waiters) == |s.pending|
    ensures Sum(IsPending(), Exec(s, step).waiters) == |Exec(s, step).pending|
  {
    if step.Register? {
      RegisterKeepsCount(s, step);
    } else if step.ReceiveResponse? {
      ReceiveKeepsCount(s, step);
    } else if step.GiveUp? || step.FailSend? {
      if s.waiters[step.waiter].sender.Pending? {
        SumUpdate(IsPending(), s.waiters, step.waiter, s.waiters[step.waiter].(listening := false));
      }
    } else if step.Clear? {
      SumZero(IsPending(), DropPending(s.waiters));
    }
  }

  lemma StepKeepsInv(s: State, step: Step)
    requires Inv(s) && Enabled(s, step)
    ensures Inv(Exec(s, step))
  {
    KeepsTable(s, step);
    KeepsRequests(s, step);
    KeepsResponses(s, step);
    KeepsCount(s, step);
    forall w | 0 <= w < |Exec(s, step).waiters|
      ensures WaiterOk(Exec(s, step), Exec(s, step).waiters[w])
    {
      KeepsWaiters(s, step, w);
    }
  }

  // ---------- every run ----------

  ghost predicate RequestRun(run: seq<State>) {
    IsRun(Init, Next, run)
  }

  lemma InvOfRun(run: seq<State>)
    requires RequestRun(run)
    ensures forall n :: 0 <= n < |run| ==> Inv(run[n])
  {
    forall s, s' | Inv(s) && Next(s, s')
      ensures Inv(s')
    {
      var step :| Enabled(s, step) && s' == Exec(s, step);
      StepKeepsInv(s, step);
    }
    InvariantOfRun(Init, Next, Inv, run);
  }

  /**
  Correlation. In every state of every run, a waiter that was resolved got the one response of a responder
  that was built for a sent request of the waiter's own id; each responder responded at most once.
  */
  lemma ResponsesCorrelate(run: seq<State>, n: nat, w: nat)
    requires RequestRun(run) && n < |run|
    requires w < |run[n].waiters| && run[n].waiters[w].sender.Consumed?
    ensures var s, waiter := run[n], run[n].waiters[w];
            var r := waiter.sender.responder;
            && r < |s.responders|
            && s.responders[r].responded
            && s.responders[r].request.id == waiter.id
            && Sent(s, s.responders[r].request)
            && (forall a :: a in s.responses && a.responder == r ==> a == Response(waiter.id, waiter.sender.payload, r))
  {
    InvOfRun(run);
    assert WaiterOk(run[n], run[n].waiters[w]);
  }

  // ---------- whose request a response answers ----------

  /**
  Every earlier waiter of this waiter's id has failed to send its request, if there is any: what a caller can know
  when it registers the waiter.
  */
  ghost predicate IdIsFree(s: State, w: nat)
    requires w < |s.waiters|
  {
    forall v :: 0 <= v < w && s.waiters[v].id == s.waiters[w].id ==> v in s.failed
  }

  /** The pending table holds the last waiter of each id, and no waiter was resolved by a later one's response. */
  ghost predicate OriginsOk(s: State) {
    && (forall id, v :: id in s.pending && s.pending[id] < v < |s.waiters| ==> s.waiters[v].id != id)
    && (forall w :: 0 <= w < |s.waiters| ==> OriginOk(s, w))
  }

  ghost predicate OriginOk(s: State, w: nat)
    requires w < |s.waiters|
  {
    s.waiters[w].sender.Consumed? ==>
      var r := s.waiters[w].sender.responder;
      r < |s.responders| && s.responders[r].request.origin <= w
  }

  lemma KeepsOrigins(s: State, step: Step)
    requires TableOk(s) && RequestsOk(s) && ResponsesOk(s) && OriginsOk(s) && Enabled(s, step)
    ensures OriginsOk(Exec(s, step))
  {
    var s' := Exec(s, step);
    KeepsLatest(s, step);
    forall w | 0 <= w < |s'.waiters|
      ensures OriginOk(s', w)
    {
      if w < |s.waiters| {
        assert OriginOk(s, w);
      }
      KeepsOrigin(s, step, w);
    }
  }

  lemma KeepsLatest(s: State, step: Step)
    requires TableOk(s) && Enabled(s, step)
    requires forall id, v :: id in s.pending && s.pending[id] < v < |s.waiters| ==> s.waiters[v].id != id
    ensures var s' := Exec(s, step);
      forall id, v :: id in s'.pending && s'.pending[id] < v < |s'.waiters| ==> s'.waiters[v].id != id
  {
  }

  lemma KeepsOrigin(s: State, step: Step, w: nat)
    requires TableOk(s) && RequestsOk(s) && ResponsesOk(s) && Enabled(s, step) && w < |Exec(s, step).waiters|
    requires forall id, v :: id in s.pending && s.pending[id] < v < |s.waiters| ==> s.waiters[v].id != id
    requires w < |s.waiters| ==> OriginOk(s, w)
    ensures OriginOk(Exec(s, step), w)
  {
    if step.ReceiveResponse? && step.response.id in s.pending {
      var request := s.responders[step.response.responder].request;
      assert Sent(s, request);
    } else {
    }
  }

  ghost predicate OriginInv(s: State) {
    Inv(s) && OriginsOk(s)
  }

  lemma OriginsOfRun(run: seq<State>, n: nat)
    requires RequestRun(run) && n < |run|
    ensures OriginInv(run[n])
  {
    hide TableOk, RequestsOk, ResponsesOk, WaiterOk, Sum, Exec, Enabled;
    forall s, s' | OriginInv(s) && Next(s, s')
      ensures OriginInv(s')
    {
      var step :| Enabled(s, step) && s' == Exec(s, step);
      StepKeepsInv(s, step);
      KeepsOrigins(s, step);
    }
    forall s | Init(s)
      ensures OriginInv(s)
    {
      InitHasInv(s);
    }
    InvariantOfRun(Init, Next, OriginInv, run);
  }

  lemma InitHasInv(s: State)
    requires Init(s)
    ensures OriginInv(s)
  {
  }

  /** A waiter whose id is free is resolved, if at all, with the response to its very own request. */
  lemma ResponseAnswersOwnRequest(run: seq<State>, n: nat, w: nat)
    requires RequestRun(run) && n < |run|
    requires w < |run[n].waiters| && run[n].waiters[w].sender.Consumed? && IdIsFree(run[n], w)
    ensures AnswersOwn(run[n], w)
  {
    ResponsesCorrelate(run, n, w);
    OriginsOfRun(run, n);
    assert OriginOk(run[n], w);
    var request := run[n].responders[run[n].waiters[w].sender.responder].request;
    assert Sent(run[n], request);
  }

  /** The responder that resolved this waiter was built for the request this waiter sent. */
  ghost predicate AnswersOwn(s: State, w: nat)
    requires w < |s.waiters| && s.waiters[w].sender.Consumed?
  {
    var r := s.waiters[w].sender.responder;
    r < |s.responders| && s.responders[r].request == Request(s.waiters[w].id, s.waiters[w].body, w)
  }

  /** `longer` goes on from where `run` ended. */
  ghost predicate Extends(run: seq<State>, longer: seq<State>) {
    RequestRun(longer) && |run| <= |longer| && longer[..|run|] == run
  }

  ghost predicate EndsWithOwnAnswer(longer: seq<State>, w: nat) {
    |longer| > 0 && w < |longer[|longer| - 1].waiters| && longer[|longer| - 1].waiters[w].sender.Consumed? ==>
      AnswersOwn(longer[|longer| - 1], w)
  }

  /**
  Exactly when a pending waiter can rely on its answer: however the run goes on, the waiter is resolved only
  with the response to its own request, if and only if no request of an earlier waiter of its id was or can still
  be sent.
  */
  lemma OwnAnswerExactlyWhenIdIsFree(run: seq<State>, w: nat)
    requires RequestRun(run) && w < |run[|run| - 1].waiters| && run[|run| - 1].waiters[w].sender.Pending?
    ensures (forall longer: seq<State> :: Extends(run, longer) ==> EndsWithOwnAnswer(longer, w)) <==>
            IdIsFree(run[|run| - 1], w)
  {
    hide Exec, Enabled, IdIsFree, AnswersOwn;
    var last := |run| - 1;
    if IdIsFree(run[last], w) {
      forall longer: seq<State> | Extends(run, longer)
        ensures EndsWithOwnAnswer(longer, w)
      {
        if w < |longer[|longer| - 1].waiters| && longer[|longer| - 1].waiters[w].sender.Consumed? {
          FreeIdStaysFree(longer, last, |longer| - 1, w);
          ResponseAnswersOwnRequest(longer, |longer| - 1, w);
        }
      }
    } else {
      var longer := OlderRequestIsAnswered(run, w);
      assert !EndsWithOwnAnswer(longer, w);
    }
  }

  lemma {:induction false} FailedStaysFailed(run: seq<State>, m: nat, n: nat)
    requires RequestRun(run) && m <= n < |run|
    ensures run[m].failed <= run[n].failed
    decreases n - m
  {
    hide RequestRun;
    if m < n {
      FailedStaysFailed(run, m, n - 1);
      StepAt(run, n - 1);
    }
  }

  lemma FreeIdStaysFree(run: seq<State>, m: nat, n: nat, w: nat)
    requires RequestRun(run) && m <= n < |run| && w < |run[m].waiters| && IdIsFree(run[m], w)
    ensures w < |run[n].waiters| && IdIsFree(run[n], w)
  {
    ResolvedAtMostOnce(run, m, n, w);
    FailedStaysFailed(run, m, n);
    forall v | 0 <= v < w
      ensures v < |run[n].waiters| && run[n].waiters[v].id == run[m].waiters[v].id
    {
      ResolvedAtMostOnce(run, m, n, v);
    }
  }

  lemma Continue(run: seq<State>, step: Step) returns (longer: seq<State>)
    requires RequestRun(run) && Enabled(run[|run| - 1], step)
    ensures RequestRun(longer)
    ensures longer[|longer| - 1] == Exec(run[|run| - 1], step)
    ensures |longer| == |run| + 1 && longer[..|run|] == run
  {
    longer := run + [Exec(run[|run| - 1], step)];
    forall i | 0 <= i < |longer| - 1
      ensures Next(longer[i], longer[i + 1])
    {
      assert i < |run| - 1 ==> Next(run[i], run[i + 1]);
    }
  }

  lemma GoOn(run: seq<State>, longer: seq<State>, step: Step) returns (longest: seq<State>)
    requires Extends(run, longer) && |longer| > 0 && Enabled(longer[|longer| - 1], step)
    ensures Extends(run, longest) && |longest| > 0 && longest[|longest| - 1] == Exec(longer[|longer| - 1], step)
  {
    longest := Continue(longer, step);
    assert longest[..|run|] == longest[..|longer|][..|run|];
  }

  /** The request of an earlier waiter of the id arrives while the later waiter is the pending one. */
  lemma OlderRequestArrives(run: seq<State>, v: nat) returns (longer: seq<State>)
    requires RequestRun(run) && v < |run[|run| - 1].waiters| && v !in run[|run| - 1].failed
    ensures Extends(run, longer) && |longer| > 0
    ensures var s := run[|run| - 1];
      var request := Request(s.waiters[v].id, s.waiters[v].body, v);
      longer[|longer| - 1]
      == s.(requests := s.requests + {request}, responders := s.responders + [Responder(request, false)])
  {
    var s := run[|run| - 1];
    hide RequestRun;
    longer := GoOn(run, run, Send(v));
    longer := GoOn(run, longer, ReceiveRequest(Request(s.waiters[v].id, s.waiters[v].body, v)));
  }

  /** If an earlier waiter of the id may still send, its request is answered while the later one is pending. */
  lemma OlderRequestIsAnswered(run: seq<State>, w: nat) returns (longer: seq<State>)
    requires RequestRun(run) && w < |run[|run| - 1].waiters| && run[|run| - 1].waiters[w].sender.Pending?
    requires !IdIsFree(run[|run| - 1], w)
    ensures Extends(run, longer)
    ensures var s := longer[|longer| - 1]; w < |s.waiters| && s.waiters[w].sender.Consumed? && !AnswersOwn(s, w)
  {
    var s := run[|run| - 1];
    var v :| 0 <= v < w && s.waiters[v].id == s.waiters[w].id && v !in s.failed;
    OriginsOfRun(run, |run| - 1);
    hide RequestRun;
    longer := OlderRequestArrives(run, v);
    longer := GoOn(run, longer, Respond(|s.responders|, 0));
    longer := GoOn(run, longer, ReceiveResponse(Response(s.waiters[v].id, 0, |s.responders|)));
  }

  // ---------- what becomes of a waiter ----------

  /** A waiter with its fate: overwritten by a later one of its id, cleared away, resolved, or none of these. */
  ghost predicate FateOk(s: State, w: nat)
    requires w < |s.waiters|
  {
    match s.waiters[w].sender
    case Pending => w >= s.cleared && forall v :: w < v < |s.waiters| ==> s.waiters[v].id != s.waiters[w].id
    case Dropped => w < s.cleared || exists v :: w < v < |s.waiters| && s.waiters[v].id == s.waiters[w].id
    case Consumed(_, _, heard) => heard == s.waiters[w].listening
  }

  ghost predicate FatesOk(s: State) {
    s.cleared <= |s.waiters| && forall w :: 0 <= w < |s.waiters| ==> FateOk(s, w)
  }

  lemma KeepsFates(s: State, step: Step)
    requires TableOk(s) && FatesOk(s) && Enabled(s, step)
    ensures FatesOk(Exec(s, step))
  {
    var s' := Exec(s, step);
    forall w | 0 <= w < |s'.waiters|
      ensures FateOk(s', w)
    {
      if w < |s.waiters| {
        assert FateOk(s, w);
        KeepsFate(s, step, w);
      }
    }
  }

  lemma KeepsFate(s: State, step: Step, w: nat)
    requires TableOk(s) && Enabled(s, step) && w < |s.waiters| && FateOk(s, w) && s.cleared <= |s.waiters|
    ensures w < |Exec(s, step).waiters| && FateOk(Exec(s, step), w)
  {
    var s' := Exec(s, step);
    if step.Register? {
      assert s'.waiters[|s.waiters|].id == step.id;
      if s.waiters[w].sender.Dropped? && w >= s.cleared {
        var v :| w < v < |s.waiters| && s.waiters[v].id == s.waiters[w].id;
        assert s'.waiters[v].id == s'.waiters[w].id;
      }
    } else {
      forall v | 0 <= v < |s.waiters|
        ensures s'.waiters[v].id == s.waiters[v].id
      {
      }
      if s.waiters[w].sender.Dropped? && w >= s.cleared {
        var v :| w < v < |s.waiters| && s.waiters[v].id == s.waiters[w].id;
        assert s'.waiters[v].id == s'.waiters[w].id;
      }
    }
  }

  /**
  A waiter stays pending until it is resolved, a later waiter takes its id, or the table is cleared, and each of these
  ends it. Its caller hears the answer exactly if it was still listening.
  */
  lemma WaiterFate(run: seq<State>, n: nat, w: nat)
    requires RequestRun(run) && n < |run| && w < |run[n].waiters|
    ensures var s := run[n];
      match s.waiters[w].sender
      case Pending => w >= s.cleared && forall v :: w < v < |s.waiters| ==> s.waiters[v].id != s.waiters[w].id
      case Dropped => w < s.cleared || exists v :: w < v < |s.waiters| && s.waiters[v].id == s.waiters[w].id
      case Consumed(_, _, heard) => heard <==> s.waiters[w].listening
  {
    hide TableOk, RequestsOk, ResponsesOk, WaiterOk, Sum, Exec, Enabled;
    var inv := (s: State) => Inv(s) && FatesOk(s);
    forall s, s' | inv(s) && Next(s, s')
      ensures inv(s')
    {
      var step :| Enabled(s, step) && s' == Exec(s, step);
      StepKeepsInv(s, step);
      KeepsFates(s, step);
    }
    forall s | Init(s)
      ensures inv(s)
    {
      InitHasInv(s);
    }
    InvariantOfRun(Init, Next, inv, run);
    assert inv(run[n]) && FateOk(run[n], w);
  }

  /** A table can be cleared at any time: every waiter that was pending then is dropped. */
  lemma ClearDropsPending(run: seq<State>) returns (longer: seq<State>)
    requires RequestRun(run)
    ensures Extends(run, longer) && |longer| == |run| + 1
    ensures var s, s' := run[|run| - 1], longer[|longer| - 1];
      && s'.pending == map[] && |s'.waiters| == |s.waiters|
      && forall w :: 0 <= w < |s.waiters| && s.waiters[w].sender.Pending? ==> s'.waiters[w].sender.Dropped?
  {
    longer := Continue(run, Clear);
  }

  /** A request that was not sent may fail to be sent: its caller does not listen any more, and nobody answers it. */
  lemma SendMayFail(run: seq<State>, w: nat) returns (longer: seq<State>)
    requires RequestRun(run) && w < |run[|run| - 1].waiters| && run[|run| - 1].waiters[w].sender.Pending?
    requires forall request :: request in run[|run| - 1].requests ==> request.origin != w
    ensures Extends(run, longer) && |longer| == |run| + 1
    ensures var s' := longer[|longer| - 1];
      && w < |s'.waiters| && s'.waiters[w].sender.Pending? && !s'.waiters[w].listening
      && s'.failed == run[|run| - 1].failed + {w} && s'.pending == run[|run| - 1].pending
      && forall further: seq<State> :: Extends(longer, further) ==> NeverAsked(further, w)
  {
    longer := Continue(run, FailSend(w));
    hide Exec, RequestRun;
    forall further: seq<State> | Extends(longer, further)
      ensures NeverAsked(further, w)
    {
      FailedNeverAsks(longer, further, w);
    }
  }

  /** At the end of the run no request of this waiter has been sent. */
  ghost predicate NeverAsked(run: seq<State>, w: nat) {
    |run| > 0 && forall request :: request in run[|run| - 1].requests ==> request.origin != w
  }

  lemma FailedNeverAsks(run: seq<State>, further: seq<State>, w: nat)
    requires |run| > 0 && Extends(run, further) && w in run[|run| - 1].failed
    ensures NeverAsked(further, w)
  {
    hide RequestRun;
    assert further[|run| - 1] == further[..|run|][|run| - 1];
    FailedStaysFailed(further, |run| - 1, |further| - 1);
    SentHasNotFailed(further, |further| - 1);
  }

  lemma SentHasNotFailed(run: seq<State>, n: nat)
    requires RequestRun(run) && n < |run|
    ensures forall request :: request in run[n].requests ==> request.origin !in run[n].failed
  {
    hide RequestRun, TableOk, ResponsesOk, WaiterOk;
    InvOfRun(run);
    forall request | request in run[n].requests
      ensures request.origin !in run[n].failed
    {
      assert Sent(run[n], request);
    }
  }

  lemma Begin() returns (run: seq<State>)
    ensures RequestRun(run) && run == [State(map[], [], {}, [], {}, {}, 0)]
  {
    run := [State(map[], [], {}, [], {}, {}, 0)];
  }

  /** A caller that has given up does not hear the answer that comes later; one that has not does. */
  lemma LateAnswerIsUnheard(gaveUp: bool) returns (run: seq<State>)
    ensures RequestRun(run)
    ensures run[|run| - 1].waiters == [Waiter(1, 10, Consumed(7, 0, !gaveUp), !gaveUp)]
  {
    hide RequestRun;
    var request, responder := Request(1, 10, 0), Responder(Request(1, 10, 0), false);
    run := Begin();
    run := Continue(run, Register(1, 10));
    assert run[|run| - 1] == State(map[1 := 0], [Waiter(1, 10, Pending, true)], {}, [], {}, {}, 0);
    if gaveUp {
      run := Continue(run, GiveUp(0));
    }
    run := Continue(run, Send(0));
    run := Continue(run, ReceiveRequest(request));
    assert run[|run| - 1]
        == State(map[1 := 0], [Waiter(1, 10, Pending, !gaveUp)], {request}, [responder], {}, {}, 0);
    run := Continue(run, Respond(0, 7));
    assert run[|run| - 1].responses == {Response(1, 7, 0)};
    run := Continue(run, ReceiveResponse(Response(1, 7, 0)));
  }

  ghost function IsConsumed(): Waiter -> nat {
    (w: Waiter) => if w.sender.Consumed? then 1 else 0
  }

  ghost function IsDropped(): Waiter -> nat {
    (w: Waiter) => if w.sender.Dropped? then 1 else 0
  }

  lemma {:induction false} Partition(waiters: seq<Waiter>)
    ensures Sum(IsPending(), waiters) + Sum(IsConsumed(), waiters) + Sum(IsDropped(), waiters) == |waiters|
  {
    if waiters != [] {
      Partition(waiters[1..]);
    }
  }

  /** Every waiter created is still pending, or was resolved, or was dropped by an overwrite or a clear. */
  lemma WaitersConserved(run: seq<State>, n: nat)
    requires RequestRun(run) && n < |run|
    ensures |run[n].waiters| == |run[n].pending| + Sum(IsConsumed(), run[n].waiters) + Sum(IsDropped(), run[n].waiters)
  {
    InvOfRun(run);
    Partition(run[n].waiters);
  }

  lemma StepKeepsSettled(s: State, step: Step, w: nat)
    requires TableOk(s) && Enabled(s, step) && w < |s.waiters|
    ensures var s' := Exec(s, step);
            && |s.waiters| <= |s'.waiters|
            && s'.waiters[w].id == s.waiters[w].id && s'.waiters[w].body == s.waiters[w].body
            && (!s.waiters[w].sender.Pending? ==> s'.waiters[w].sender == s.waiters[w].sender)
  {
  }

  lemma StepAt(run: seq<State>, n: nat)
    requires RequestRun(run) && n + 1 < |run|
    ensures Next(run[n], run[n + 1]) && TableOk(run[n])
  {
    InvOfRun(run);
  }

  /** A waiter is resolved at most once: what it was resolved with never changes afterwards. */
  lemma {:induction false} ResolvedAtMostOnce(run: seq<State>, m: nat, n: nat, w: nat)
    requires RequestRun(run) && m <= n < |run| && w < |run[m].waiters|
    ensures w < |run[n].waiters|
    ensures run[n].waiters[w].id == run[m].waiters[w].id && run[n].waiters[w].body == run[m].waiters[w].body
    ensures !run[m].waiters[w].sender.Pending? ==> run[n].waiters[w].sender == run[m].waiters[w].sender
  {
    hide RequestRun, Exec, Enabled, TableOk;
    if m < n {
      ResolvedAtMostOnce(run, m, n - 1, w);
      StepAt(run, n - 1);
      var step :| Enabled(run[n - 1], step) && run[n] == Exec(run[n - 1], step);
      StepKeepsSettled(run[n - 1], step, w);
    }
  }

  // ---------- where ids come from ----------

  const ID_COUNT: nat := 0x1_0000_0000

  /** The id that a wrapping 32-bit counter hands out after `k` others. */
  function AllocatedId(start: nat, k: nat): nat {
    (start + k) % ID_COUNT
  }

  /** A counter goes up by one, wrapping at 32 bits, and so repeats an id exactly after a multiple of 2^32 requests. */
  lemma CounterRepeatsExactly(start: nat, j: nat, k: nat)
    requires j <= k
    ensures AllocatedId(start, j) == AllocatedId(start, k) <==> (k - j) % 0x1_0000_0000 == 0
    ensures AllocatedId(start, k + 1) == (AllocatedId(start, k) + 1) % 0x1_0000_0000
  {
    var q := (start + j) / ID_COUNT;
    assert (start + k) % ID_COUNT == ((start + j) % ID_COUNT + (k - j) % ID_COUNT) % ID_COUNT;
  }

  /**
  Ids are reused in practice: `TransportClient::request` and `request_with_options` draw from separate
  counters that both start at 1, on one pending table. Here the first request of each is in flight, and
  the second waiter is resolved with the response to the other's request.
  */
  lemma TwoCountersCrossResponses() returns (run: seq<State>)
    ensures RequestRun(run)
    ensures var s := run[|run| - 1];
            && |s.waiters| == 2 && |s.responders| == 1
            && s.waiters[0].id == AllocatedId(1, 0) == s.waiters[1].id
            && s.waiters[0].sender == Dropped
            && s.waiters[1].sender == Consumed(7, 0, true)
            && s.responders[0].request == Request(1, s.waiters[0].body, 0)
            && s.waiters[0].body != s.waiters[1].body
  {
    hide RequestRun;
    run := Begin();
    run := Continue(run, Register(1, 10));
    run := Continue(run, Send(0));
    run := Continue(run, Register(1, 20));
    assert run[|run| - 1].waiters == [Waiter(1, 10, Dropped, true), Waiter(1, 20, Pending, true)];
    run := Continue(run, ReceiveRequest(Request(1, 10, 0)));
    run := Continue(run, Respond(0, 7));
    run := Continue(run, ReceiveResponse(Response(1, 7, 0)));
  }
}
