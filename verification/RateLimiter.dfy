/** The token-bucket limiter of the Gemini wrapper (examples/ai/gemini-wrapper/main.go:22-152) as one
    refill goroutine and any number of Acquire calls interleaving over channels. Every select is one
    step: it takes the case that is ready, or its default. */
module RateLimiter {
  import opened Common

  const QUEUE_SIZE: nat := 100

  /** Where an Acquire call stands. */
  datatype Caller =
    | NoToken           // the first select found the bucket empty
    | Waiting           // queued, in the final select
    | Granted           // returned true
    | Denied            // returned false: queue full, or timed out

  /** Where the refill goroutine stands. */
  datatype Refill =
    | Idle                    // in the outer select
    | Ticked                  // woken by the ticker, before looking at the queue
    | Holding(r: Id)          // took request r off the queue
    | Serving(r: Id)          // ... and a token off the bucket
    | PuttingBack             // the request's channel was full: token to be put back
    | Requeueing(r: Id)       // no token: request to be put back
    | Depositing              // the queue was empty: token to be added
    | Stopped

  /** `slots` are the requests whose one-slot channel holds a token. `served` (the requests a token was
      ever sent to), `direct`, `delivered`, `deposits` and `ticks` are history; time is in seconds and
      `next` is when the ticker fires next. */
  datatype State = State(
    tokens: nat,
    queue: seq<Id>,
    slots: set<Id>,
    served: set<Id>,
    callers: map<Id, Caller>,
    refill: Refill,
    pending: bool,
    clock: nat,
    next: nat,
    direct: nat,
    delivered: nat,
    deposits: nat,
    ticks: nat)

  /** 60/rpm in whole seconds. The ticker panics when it is not positive. */
  function Interval(rpm: nat): nat
    requires rpm > 0
  {
    60 / rpm
  }

  /** The constructor's default for a non-positive rpm. */
  function EffectiveRpm(rpm: int): (r: nat)
    ensures r > 0 && (rpm > 0 ==> r == rpm) && (rpm <= 0 ==> r == 10)
  {
    if rpm <= 0 then 10 else rpm
  }

  /** A ticker can be made exactly for 1 to 60 requests a minute; above that the goroutine panics. */
  lemma IntervalPositive(rpm: nat)
    requires rpm > 0
    ensures Interval(rpm) > 0 <==> rpm <= 60
  {
    if rpm <= 60 {
      assert 60 / rpm >= 1 by { QuotientAtLeastOne(60, rpm); }
    }
  }

  lemma QuotientAtLeastOne(a: nat, b: nat)
    requires 0 < b <= a
    ensures a / b >= 1
  {
  }

  /** Rounding the interval down to whole seconds never slows the refill below rpm a minute and always
      keeps it below twice that: 60/q lies in [rpm, 2 rpm). */
  lemma RateOvershoot(rpm: nat)
    requires 1 <= rpm <= 60
    ensures var q := Interval(rpm); rpm * q <= 60 < rpm * (q + 1) && 60 < 2 * rpm * q
    ensures var q := Interval(rpm); rpm as real <= 60.0 / q as real < 2.0 * rpm as real
  {
    var q := Interval(rpm);
    IntervalPositive(rpm);
    assert 60 == rpm * q + 60 % rpm;
    OneMoreTick(q, rpm);
    AtLeastOnce(rpm, q);
    QuotientBetween(rpm, 60, q);
  }

  lemma AtLeastOnce(a: nat, q: nat)
    requires q > 0
    ensures a * q >= a && 2 * a * q == 2 * (a * q)
  {
    assert a * (q - 1) >= 0;
  }

  lemma QuotientBetween(a: nat, n: nat, q: nat)
    requires q > 0 && a * q <= n < 2 * (a * q)
    ensures a as real <= n as real / q as real < 2.0 * a as real
  {
    var x, y := n as real / q as real, q as real;
    assert x * y == n as real;
    assert (a * q) as real == a as real * y;
    SmallerFactor(a as real, x, y);
    SmallerFactor(x, 2.0 * a as real, y);
  }

  lemma SmallerFactor(a: real, b: real, y: real)
    requires y > 0.0
    ensures a * y <= b * y ==> a <= b
    ensures a * y < b * y ==> a < b
  {
  }

  datatype Step =
    | TakeDirect(id: Id)      // Acquire: first select takes a token
    | FindEmpty(id: Id)       // Acquire: first select's default
    | Enqueue(id: Id)         // Acquire: joins the queue
    | Reject(id: Id)          // Acquire: queue full
    | Receive(id: Id)         // Acquire: token arrives on its channel
    | TimeOut(id: Id)         // Acquire: deadline passes first
    | Wake                    // refill: outer select takes a tick
    | TakeRequest             // refill: queue has a request
    | SeeEmptyQueue           // refill: queue empty
    | Deposit                 // refill: adds a token, or skips when the bucket is full
    | TakeToken               // refill: token for the request
    | SeeEmptyBucket          // refill: no token for the request
    | Deliver                 // refill: token into the request's channel
    | FindSlotFull            // refill: the channel is full
    | PutTokenBack            // refill: token back into the bucket, or dropped
    | PutRequestBack          // refill: request back into the queue, or dropped
    | Stop                    // refill: outer select takes the stop signal
    | Advance                 // a second passes; the ticker may fire

  function InitState(rpm: nat): State
    requires rpm > 0
  {
    State(rpm, [], {}, {}, map[], Idle, false, 0, Interval(rpm), 0, 0, 0, 0)
  }

  /** The constructor: it fills the bucket one token at a time. None is the panic of a zero interval. */
  method NewRateLimiter(rpm: int) returns (r: Option<State>)
    ensures r == if rpm <= 60 then Some(InitState(EffectiveRpm(rpm))) else None
  {
    var effective := if rpm <= 0 then 10 else rpm;
    IntervalPositive(effective);
    var refillRate := 60 / effective;
    var tokens := 0;
    for i := 0 to effective
      invariant tokens == i
    {
      tokens := tokens + 1;
    }
    if refillRate <= 0 {
      return None;
    }
    r := Some(State(tokens, [], {}, {}, map[], Idle, false, 0, refillRate, 0, 0, 0, 0));
  }

  predicate Enabled(s: State, step: Step) {
    match step
    case TakeDirect(id) => id !in s.callers && s.tokens > 0
    case FindEmpty(id) => id !in s.callers && s.tokens == 0
    case Enqueue(id) => id in s.callers && s.callers[id].NoToken? && |s.queue| < QUEUE_SIZE
    case Reject(id) => id in s.callers && s.callers[id].NoToken? && |s.queue| >= QUEUE_SIZE
    case Receive(id) => id in s.callers && s.callers[id].Waiting? && id in s.slots
    case TimeOut(id) => id in s.callers && s.callers[id].Waiting?
    case Wake => s.refill.Idle? && s.pending
    case TakeRequest => s.refill.Ticked? && s.queue != []
    case SeeEmptyQueue => s.refill.Ticked? && s.queue == []
    case Deposit => s.refill.Depositing?
    case TakeToken => s.refill.Holding? && s.tokens > 0
    case SeeEmptyBucket => s.refill.Holding? && s.tokens == 0
    case Deliver => s.refill.Serving? && s.refill.r !in s.slots
    case FindSlotFull => s.refill.Serving? && s.refill.r in s.slots
    case PutTokenBack => s.refill.PuttingBack?
    case PutRequestBack => s.refill.Requeueing?
    case Stop => s.refill.Idle?
    case Advance => true
  }

  function Apply(rpm: nat, s: State, step: Step): State
    requires rpm > 0 && Enabled(s, step)
  {
    match step
    case TakeDirect(id) => s.(tokens := s.tokens - 1, direct := s.direct + 1, callers := s.callers[id := Granted])
    case FindEmpty(id) => s.(callers := s.callers[id := NoToken])
    case Enqueue(id) => s.(queue := s.queue + [id], callers := s.callers[id := Waiting])
    case Reject(id) => s.(callers := s.callers[id := Denied])
    case Receive(id) => s.(slots := s.slots - {id}, callers := s.callers[id := Granted])
    case TimeOut(id) => s.(callers := s.callers[id := Denied])
    case Wake => s.(pending := false, refill := Ticked)
    case TakeRequest => s.(queue := s.queue[1..], refill := Holding(s.queue[0]))
    case SeeEmptyQueue => s.(refill := Depositing)
    case Deposit =>
      if s.tokens < rpm then s.(tokens := s.tokens + 1, deposits := s.deposits + 1, refill := Idle)
      else s.(refill := Idle)
    case TakeToken => s.(tokens := s.tokens - 1, refill := Serving(s.refill.r))
    case SeeEmptyBucket => s.(refill := Requeueing(s.refill.r))
    case Deliver => s.(slots := s.slots + {s.refill.r}, served := s.served + {s.refill.r}, delivered := s.delivered + 1,
                       refill := Idle)
    case FindSlotFull => s.(refill := PuttingBack)
    case PutTokenBack => s.(tokens := if s.tokens < rpm then s.tokens + 1 else s.tokens, refill := Idle)
    case PutRequestBack =>
      if |s.queue| < QUEUE_SIZE then s.(queue := s.queue + [s.refill.r], refill := Idle)
      else s.(refill := Idle)
    case Stop => s.(refill := Stopped)
    case Advance =>
      if s.clock + 1 == s.next
      then s.(clock := s.clock + 1, next := s.next + Interval(rpm), pending := true, ticks := s.ticks + 1)
      else s.(clock := s.clock + 1)
  }

  /** A run: tr[0], then one state per step. */
  ghost predicate Chain(rpm: nat, tr: seq<State>, steps: seq<Step>)
    requires rpm > 0
  {
    && |tr| == |steps| + 1
    && forall i :: 0 <= i < |steps| ==> Enabled(tr[i], steps[i]) && tr[i + 1] == Apply(rpm, tr[i], steps[i])
  }

  ghost predicate Run(rpm: nat, tr: seq<State>, steps: seq<Step>) {
    1 <= rpm <= 60 && Chain(rpm, tr, steps) && tr[0] == InitState(rpm)
  }

  lemma ChainPrefix(rpm: nat, tr: seq<State>, steps: seq<Step>, n: nat)
    requires rpm > 0 && Chain(rpm, tr, steps) && n <= |steps|
    ensures Chain(rpm, tr[..n + 1], steps[..n])
  {
  }

  // ---------------------------------------------------------------------------------------------
  // Invariants
  // ---------------------------------------------------------------------------------------------

  function HeldTokens(s: State): nat {
    if s.refill.Serving? || s.refill.PuttingBack? then 1 else 0
  }

  function HeldRequest(s: State): set<Id> {
    if s.refill.Holding? || s.refill.Serving? || s.refill.Requeueing? then {s.refill.r} else {}
  }

  /** The request has gone past the step that queues it. */
  ghost predicate Queued(s: State, r: Id) {
    r in s.callers && !s.callers[r].NoToken?
  }

  /** Requests in the queue or in refill's hand are distinct and none has been served. */
  ghost predicate RequestsInv(s: State) {
    && Distinct(s.queue)
    && (forall i :: 0 <= i < |s.queue| ==>
          s.queue[i] !in HeldRequest(s) && s.queue[i] !in s.served && Queued(s, s.queue[i]))
    && (forall r :: r in HeldRequest(s) ==> r !in s.served && Queued(s, r))
    && (forall r :: r in s.served ==> Queued(s, r))
    && s.slots <= s.served && s.delivered == |s.served|
    && !s.refill.PuttingBack?
  }

  ghost predicate TokensInv(rpm: nat, s: State) {
    && s.tokens + HeldTokens(s) <= rpm
    && s.tokens + s.direct + s.delivered + HeldTokens(s) == rpm + s.deposits
  }

  ghost predicate Inv(rpm: nat, s: State) {
    RequestsInv(s) && TokensInv(rpm, s)
  }

  predicate ByCaller(step: Step) {
    step.TakeDirect? || step.FindEmpty? || step.Enqueue? || step.Reject? || step.Receive? || step.TimeOut?
  }

  lemma RequestsInvCaller(rpm: nat, s: State, step: Step)
    requires rpm > 0 && RequestsInv(s) && Enabled(s, step) && ByCaller(step)
    ensures RequestsInv(Apply(rpm, s, step))
  {
    var s' := Apply(rpm, s, step);
    assert forall r :: Queued(s, r) ==> Queued(s', r);
  }

  lemma RequestsInvTake(rpm: nat, s: State)
    requires rpm > 0 && RequestsInv(s) && Enabled(s, TakeRequest)
    ensures RequestsInv(Apply(rpm, s, TakeRequest))
  {
    var s' := Apply(rpm, s, TakeRequest);
    assert forall i :: 0 <= i < |s.queue| - 1 ==> s'.queue[i] == s.queue[i + 1];
  }

  lemma RequestsInvPutBack(rpm: nat, s: State)
    requires rpm > 0 && RequestsInv(s) && Enabled(s, PutRequestBack)
    ensures RequestsInv(Apply(rpm, s, PutRequestBack))
  {
    var r := s.refill.r;
    assert r in HeldRequest(s);
    assert forall i :: 0 <= i < |s.queue| ==> s.queue[i] != r;
  }

  lemma RequestsInvDeliver(rpm: nat, s: State)
    requires rpm > 0 && RequestsInv(s) && Enabled(s, Deliver)
    ensures RequestsInv(Apply(rpm, s, Deliver))
  {
    assert s.refill.r in HeldRequest(s);
  }

  lemma RequestsInvRefill(rpm: nat, s: State, step: Step)
    requires rpm > 0 && RequestsInv(s) && Enabled(s, step)
    requires !ByCaller(step) && !step.TakeRequest? && !step.PutRequestBack? && !step.Deliver?
    ensures RequestsInv(Apply(rpm, s, step))
  {
    var s' := Apply(rpm, s, step);
    assert s'.queue == s.queue && s'.callers == s.callers && s'.served == s.served && HeldRequest(s') <= HeldRequest(s);
  }

  lemma RequestsInvStep(rpm: nat, s: State, step: Step)
    requires rpm > 0 && RequestsInv(s) && Enabled(s, step)
    ensures RequestsInv(Apply(rpm, s, step))
  {
    if ByCaller(step) {
      RequestsInvCaller(rpm, s, step);
    } else if step.TakeRequest? {
      RequestsInvTake(rpm, s);
    } else if step.PutRequestBack? {
      RequestsInvPutBack(rpm, s);
    } else if step.Deliver? {
      RequestsInvDeliver(rpm, s);
    } else {
      RequestsInvRefill(rpm, s, step);
    }
  }

  lemma TokensInvStep(rpm: nat, s: State, step: Step)
    requires rpm > 0 && TokensInv(rpm, s) && !s.refill.PuttingBack? && Enabled(s, step)
    requires step.Deliver? || step.FindSlotFull? ==> s.refill.r !in s.slots
    ensures TokensInv(rpm, Apply(rpm, s, step))
  {
  }

  lemma {:induction false} InvHolds(rpm: nat, tr: seq<State>, steps: seq<Step>)
    requires Run(rpm, tr, steps)
    ensures Inv(rpm, tr[|steps|])
    decreases |steps|
  {
    if steps != [] {
      var n := |steps| - 1;
      InvHolds(rpm, tr[..n + 1], steps[..n]);
      RequestsInvStep(rpm, tr[n], steps[n]);
      TokensInvStep(rpm, tr[n], steps[n]);
    }
  }

  /** Conservation: the tokens in the bucket, taken directly, delivered to requests and in refill's
      hand are the initial ones plus the deposits. */
  lemma TokensConserved(rpm: nat, tr: seq<State>, steps: seq<Step>)
    requires Run(rpm, tr, steps)
    ensures var s := tr[|steps|]; s.tokens + s.direct + s.delivered + HeldTokens(s) == rpm + s.deposits
    ensures tr[|steps|].tokens <= rpm
  {
    InvHolds(rpm, tr, steps);
  }

  /** A request's channel never holds a token when refill serves it, so the branch that puts a token
      back is unreachable. */
  lemma PutBackUnreachable(rpm: nat, tr: seq<State>, steps: seq<Step>)
    requires Run(rpm, tr, steps)
    ensures !Enabled(tr[|steps|], FindSlotFull) && !Enabled(tr[|steps|], PutTokenBack)
  {
    InvHolds(rpm, tr, steps);
  }

  /** A request is served at most once: once a token was sent to it, it is never again in the queue or
      in refill's hand, and the deliveries are as many as the requests served. */
  lemma ServedOnce(rpm: nat, tr: seq<State>, steps: seq<Step>, r: Id)
    requires Run(rpm, tr, steps)
    ensures r in tr[|steps|].served ==> r !in tr[|steps|].queue && r !in HeldRequest(tr[|steps|])
    ensures tr[|steps|].delivered == |tr[|steps|].served|
  {
    InvHolds(rpm, tr, steps);
  }

  /** At most a hundred requests are queued, and a call is turned away at once only when they are. */
  lemma {:induction false} QueueBounded(rpm: nat, tr: seq<State>, steps: seq<Step>)
    requires Run(rpm, tr, steps)
    ensures |tr[|steps|].queue| <= 100
    ensures forall id :: Enabled(tr[|steps|], Reject(id)) ==> |tr[|steps|].queue| == 100
    decreases |steps|
  {
    if steps != [] {
      QueueBounded(rpm, tr[..|steps|], steps[..|steps| - 1]);
    }
  }

  // ---------------------------------------------------------------------------------------------
  // Where tokens end up
  // ---------------------------------------------------------------------------------------------

  /** The callers that returned true. */
  ghost function GrantedCallers(s: State): set<Id> {
    set id | id in s.callers && s.callers[id].Granted?
  }

  /** The callers whose token lies in their channel while they still wait. */
  ghost function Arrived(s: State): set<Id> {
    set id | id in s.slots && id in s.callers && s.callers[id].Waiting?
  }

  /** The callers that gave up and whose channel holds a token all the same: nobody will ever take it. */
  ghost function Leaked(s: State): set<Id> {
    set id | id in s.slots && id in s.callers && s.callers[id].Denied?
  }

  /** The caller is in the final select or past it without a token. */
  ghost predicate Ungranted(s: State, r: Id) {
    r in s.callers && (s.callers[r].Waiting? || s.callers[r].Denied?)
  }

  /** Whoever is queued, in refill's hand or has a token arrived is in the final select or has given up. */
  ghost predicate OwnersOk(s: State) {
    forall r :: r in s.slots || r in s.queue || r in HeldRequest(s) ==> Ungranted(s, r)
  }

  /** Tokens that left the bucket were granted or lie in a channel. */
  ghost predicate CountOk(s: State) {
    |GrantedCallers(s)| + |s.slots| == s.direct + s.delivered
  }

  lemma GrantedStays(s: State, s': State)
    requires forall id :: (id in s'.callers && s'.callers[id].Granted?) <==> (id in s.callers && s.callers[id].Granted?)
    ensures GrantedCallers(s') == GrantedCallers(s)
  {
  }

  lemma GrantedGrows(s: State, id: Id, s': State)
    requires s'.callers == s.callers[id := Granted] && !(id in s.callers && s.callers[id].Granted?)
    ensures |GrantedCallers(s')| == |GrantedCallers(s)| + 1
  {
    assert GrantedCallers(s') == GrantedCallers(s) + {id};
  }

  lemma CountGrant(rpm: nat, s: State, step: Step)
    requires rpm > 0 && CountOk(s) && Enabled(s, step) && (step.TakeDirect? || step.Receive?)
    ensures CountOk(Apply(rpm, s, step))
  {
    GrantedGrows(s, step.id, Apply(rpm, s, step));
  }

  /** All other callers' steps leave the granted ones and the channels alone. */
  lemma CountCaller(rpm: nat, s: State, step: Step)
    requires rpm > 0 && CountOk(s) && Enabled(s, step) && ByCaller(step) && !step.TakeDirect? && !step.Receive?
    ensures CountOk(Apply(rpm, s, step))
  {
    GrantedStays(s, Apply(rpm, s, step));
  }

  lemma CountRefill(rpm: nat, s: State, step: Step)
    requires rpm > 0 && CountOk(s) && Enabled(s, step) && !ByCaller(step)
    ensures CountOk(Apply(rpm, s, step))
  {
    var s' := Apply(rpm, s, step);
    assert s'.callers == s.callers;
    GrantedStays(s, s');
  }

  lemma CountStep(rpm: nat, s: State, step: Step)
    requires rpm > 0 && CountOk(s) && Enabled(s, step)
    ensures CountOk(Apply(rpm, s, step))
  {
    if step.TakeDirect? || step.Receive? {
      CountGrant(rpm, s, step);
    } else if ByCaller(step) {
      CountCaller(rpm, s, step);
    } else {
      CountRefill(rpm, s, step);
    }
  }

  lemma OwnersGrant(rpm: nat, s: State, step: Step)
    requires rpm > 0 && RequestsInv(s) && OwnersOk(s) && Enabled(s, step) && (step.TakeDirect? || step.Receive?)
    ensures OwnersOk(Apply(rpm, s, step))
  {
    var s' := Apply(rpm, s, step);
    forall r | r in s'.slots || r in s'.queue || r in HeldRequest(s') ensures Ungranted(s', r) {
      assert Ungranted(s, r) && r != step.id;
    }
  }

  lemma OwnersCaller(rpm: nat, s: State, step: Step)
    requires rpm > 0 && OwnersOk(s) && Enabled(s, step) && ByCaller(step) && !step.TakeDirect? && !step.Receive?
    ensures OwnersOk(Apply(rpm, s, step))
  {
    var s' := Apply(rpm, s, step);
    forall r | r in s'.slots || r in s'.queue || r in HeldRequest(s') ensures Ungranted(s', r) {
      assert Ungranted(s, r) || (step.Enqueue? && r == step.id);
    }
  }

  /** Refill only passes requests on. */
  lemma OwnersRefill(rpm: nat, s: State, step: Step)
    requires rpm > 0 && OwnersOk(s) && Enabled(s, step) && !ByCaller(step)
    ensures OwnersOk(Apply(rpm, s, step))
  {
    var s' := Apply(rpm, s, step);
    forall r | r in s'.slots || r in s'.queue || r in HeldRequest(s')
      ensures r in s.slots || r in s.queue || r in HeldRequest(s)
    {
      PassedOn(rpm, s, step, r);
    }
  }

  lemma PassedOn(rpm: nat, s: State, step: Step, r: Id)
    requires rpm > 0 && Enabled(s, step) && !ByCaller(step)
    ensures var s' := Apply(rpm, s, step);
            r in s'.slots || r in s'.queue || r in HeldRequest(s')
            ==> r in s.slots || r in s.queue || r in HeldRequest(s)
  {
  }

  lemma OwnersStep(rpm: nat, s: State, step: Step)
    requires rpm > 0 && RequestsInv(s) && OwnersOk(s) && Enabled(s, step)
    ensures OwnersOk(Apply(rpm, s, step))
  {
    if step.TakeDirect? || step.Receive? {
      OwnersGrant(rpm, s, step);
    } else if ByCaller(step) {
      OwnersCaller(rpm, s, step);
    } else {
      OwnersRefill(rpm, s, step);
    }
  }

  lemma {:induction false} OwnersAndCount(rpm: nat, tr: seq<State>, steps: seq<Step>)
    requires Run(rpm, tr, steps)
    ensures OwnersOk(tr[|steps|]) && CountOk(tr[|steps|])
    decreases |steps|
  {
    if steps != [] {
      var n := |steps| - 1;
      OwnersAndCount(rpm, tr[..n + 1], steps[..n]);
      InvHolds(rpm, tr[..n + 1], steps[..n]);
      OwnersStep(rpm, tr[n], steps[n]);
      CountStep(rpm, tr[n], steps[n]);
    } else {
      assert GrantedCallers(tr[0]) == {};
    }
  }

  /** Every token there ever was is in the bucket, in refill's hand, with a caller that returned true, in the
      channel of one still waiting, or in the channel of one that gave up. */
  lemma TokensAccountedFor(rpm: nat, tr: seq<State>, steps: seq<Step>)
    requires Run(rpm, tr, steps)
    ensures var s := tr[|steps|];
            s.tokens + HeldTokens(s) + |GrantedCallers(s)| + |Arrived(s)| + |Leaked(s)| == rpm + s.deposits
  {
    var s := tr[|steps|];
    InvHolds(rpm, tr, steps);
    OwnersAndCount(rpm, tr, steps);
    assert s.slots == Arrived(s) + Leaked(s) && Arrived(s) !! Leaked(s);
  }

  /** Whose token a step leaks: refill delivers to a caller that has given up, or a caller gives up with its
      token arrived. */
  ghost function NewlyLeaked(s: State, step: Step): set<Id> {
    match step
    case Deliver =>
      if s.refill.Serving? && s.refill.r in s.callers && s.callers[s.refill.r].Denied? then {s.refill.r} else {}
    case TimeOut(id) => if id in s.slots then {id} else {}
    case _ => {}
  }

  /** A leaked token stays leaked, and no other step leaks one: no branch puts it back. */
  lemma LeaksExactly(rpm: nat, tr: seq<State>, steps: seq<Step>, step: Step)
    requires Run(rpm, tr, steps) && Enabled(tr[|steps|], step)
    ensures var s := tr[|steps|]; Leaked(Apply(rpm, s, step)) == Leaked(s) + NewlyLeaked(s, step)
  {
    InvHolds(rpm, tr, steps);
    OwnersAndCount(rpm, tr, steps);
    if ByCaller(step) {
      LeaksByCaller(rpm, tr[|steps|], step);
    } else {
      LeaksByRefill(rpm, tr[|steps|], step);
    }
  }

  lemma LeaksByCaller(rpm: nat, s: State, step: Step)
    requires rpm > 0 && OwnersOk(s) && Enabled(s, step) && ByCaller(step)
    ensures Leaked(Apply(rpm, s, step)) == Leaked(s) + NewlyLeaked(s, step)
  {
    var s' := Apply(rpm, s, step);
    forall r ensures r in Leaked(s') <==> r in Leaked(s) || r in NewlyLeaked(s, step) {
      assert r in s.slots ==> Ungranted(s, r);
    }
  }

  lemma LeaksByRefill(rpm: nat, s: State, step: Step)
    requires rpm > 0 && OwnersOk(s) && Enabled(s, step) && !ByCaller(step)
    ensures Leaked(Apply(rpm, s, step)) == Leaked(s) + NewlyLeaked(s, step)
  {
    var s' := Apply(rpm, s, step);
    assert s'.callers == s.callers;
    if !step.Deliver? {
      assert s'.slots == s.slots;
    }
  }

  // ---------------------------------------------------------------------------------------------
  // Starvation
  // ---------------------------------------------------------------------------------------------

  /** Tokens handed out so far. */
  function Handed(s: State): nat {
    s.direct + s.delivered
  }

  /** The bucket is empty and no token is on its way: refill has stopped, or a request is queued or in
      its hand, so that it will never find the queue empty. */
  ghost predicate Starved(s: State) {
    && s.tokens == 0
    && HeldTokens(s) == 0
    && !s.refill.Depositing?
    && (s.refill.Stopped? || s.queue != [] || HeldRequest(s) != {})
  }

  lemma StarvedStep(rpm: nat, s: State, step: Step)
    requires rpm > 0 && Starved(s) && Enabled(s, step)
    ensures Starved(Apply(rpm, s, step)) && Handed(Apply(rpm, s, step)) == Handed(s)
    ensures Apply(rpm, s, step).deposits == s.deposits
  {
  }

  lemma {:induction false} StarvedForever(rpm: nat, tr: seq<State>, steps: seq<Step>)
    requires rpm > 0 && Chain(rpm, tr, steps) && Starved(tr[0])
    ensures Starved(tr[|steps|]) && Handed(tr[|steps|]) == Handed(tr[0]) && tr[|steps|].deposits == tr[0].deposits
    decreases |steps|
  {
    if steps != [] {
      var n := |steps| - 1;
      ChainPrefix(rpm, tr, steps, n);
      StarvedForever(rpm, tr[..n + 1], steps[..n]);
      StarvedStep(rpm, tr[n], steps[n]);
    }
  }

  ghost predicate CanStillHand(rpm: nat, s: State)
    requires rpm > 0
  {
    exists tr: seq<State>, steps: seq<Step> :: Chain(rpm, tr, steps) && tr[0] == s && Handed(tr[|steps|]) > Handed(s)
  }

  lemma CanHandFrom(rpm: nat, s: State, step: Step)
    requires rpm > 0 && Enabled(s, step) && CanStillHand(rpm, Apply(rpm, s, step))
             && Handed(Apply(rpm, s, step)) >= Handed(s)
    ensures CanStillHand(rpm, s)
  {
    var s' := Apply(rpm, s, step);
    var tr: seq<State>, steps: seq<Step> :| Chain(rpm, tr, steps) && tr[0] == s' && Handed(tr[|steps|]) > Handed(s');
    ChainJoin(rpm, [s, s'], [step], tr, steps);
    var tr', steps' := [s, s'] + tr[1..], [step] + steps;
    assert Chain(rpm, tr', steps') && tr'[0] == s && tr'[|steps'|] == tr[|steps|];
  }

  /** A call nobody has made yet. */
  lemma {:induction false} FreshId(ids: set<Id>) returns (id: Id)
    ensures forall x :: x in ids ==> x < id
  {
    id := 0;
    if ids != {} {
      var x :| x in ids;
      id := FreshId(ids - {x});
      assert forall y :: y in ids ==> y == x || y in ids - {x};
      if x >= id {
        id := x + 1;
      }
    }
  }

  lemma TokenCanBeTaken(rpm: nat, s: State)
    requires rpm > 0 && s.tokens > 0
    ensures CanStillHand(rpm, s)
  {
    var id := FreshId(s.callers.Keys);
    var s' := Apply(rpm, s, TakeDirect(id));
    assert Chain(rpm, [s, s'], [TakeDirect(id)]);
    assert [s, s'][|[TakeDirect(id)]|] == s';
  }

  lemma DepositCanBeTaken(rpm: nat, s: State)
    requires rpm > 0 && s.refill.Depositing?
    ensures CanStillHand(rpm, s)
  {
    TokenCanBeTaken(rpm, Apply(rpm, s, Deposit));
    CanHandFrom(rpm, s, Deposit);
  }

  lemma ServingCanFinish(rpm: nat, s: State)
    requires rpm > 0 && s.refill.Serving? && s.refill.r !in s.slots
    ensures CanStillHand(rpm, s)
  {
    var s' := Apply(rpm, s, Deliver);
    assert Chain(rpm, [s, s'], [Deliver]);
    assert [s, s'][|[Deliver]|] == s';
  }

  lemma {:induction false} TickComes(rpm: nat, s: State)
    requires 1 <= rpm <= 60 && s.refill.Idle? && s.queue == [] && s.clock < s.next
    ensures CanStillHand(rpm, s)
    decreases s.next - s.clock, if s.pending then 0 else 1
  {
    if s.pending {
      var s1 := Apply(rpm, s, Wake);
      var s2 := Apply(rpm, s1, SeeEmptyQueue);
      DepositCanBeTaken(rpm, s2);
      CanHandFrom(rpm, s1, SeeEmptyQueue);
      CanHandFrom(rpm, s, Wake);
    } else {
      var s' := Apply(rpm, s, Advance);
      if s.clock + 1 == s.next {
        var s1 := Apply(rpm, s', Wake);
        DepositCanBeTaken(rpm, Apply(rpm, s1, SeeEmptyQueue));
        CanHandFrom(rpm, s1, SeeEmptyQueue);
        CanHandFrom(rpm, s', Wake);
      } else {
        TickComes(rpm, s');
      }
      CanHandFrom(rpm, s, Advance);
    }
  }

  ghost predicate ClockInv(s: State) {
    s.clock < s.next
  }

  lemma ClockInvStep(rpm: nat, s: State, step: Step)
    requires 1 <= rpm <= 60 && ClockInv(s) && Enabled(s, step)
    ensures ClockInv(Apply(rpm, s, step))
  {
    IntervalPositive(rpm);
  }

  lemma {:induction false} ClockInvHolds(rpm: nat, tr: seq<State>, steps: seq<Step>)
    requires Run(rpm, tr, steps)
    ensures ClockInv(tr[|steps|])
    decreases |steps|
  {
    IntervalPositive(rpm);
    if steps != [] {
      var n := |steps| - 1;
      ClockInvHolds(rpm, tr[..n + 1], steps[..n]);
      ClockInvStep(rpm, tr[n], steps[n]);
    }
  }

  /** Starvation is exactly the end of the limiter: from a reachable state no run hands out another
      token if and only if the state is starved. */
  lemma StarvedIffDead(rpm: nat, tr: seq<State>, steps: seq<Step>)
    requires Run(rpm, tr, steps)
    ensures Starved(tr[|steps|]) <==> !CanStillHand(rpm, tr[|steps|])
  {
    var s := tr[|steps|];
    InvHolds(rpm, tr, steps);
    ClockInvHolds(rpm, tr, steps);
    if Starved(s) {
      forall tr', steps' | Chain(rpm, tr', steps') && tr'[0] == s ensures Handed(tr'[|steps'|]) == Handed(s) {
        StarvedForever(rpm, tr', steps');
      }
    } else if s.tokens > 0 {
      TokenCanBeTaken(rpm, s);
    } else if s.refill.Depositing? {
      DepositCanBeTaken(rpm, s);
    } else if s.refill.Serving? {
      ServingCanFinish(rpm, s);
    } else if s.refill.Ticked? {
      DepositCanBeTaken(rpm, Apply(rpm, s, SeeEmptyQueue));
      CanHandFrom(rpm, s, SeeEmptyQueue);
    } else {
      TickComes(rpm, s);
    }
  }

  /** n immediate takes, by callers numbered from `first` on. */
  lemma {:induction false} TakeMany(rpm: nat, s: State, first: nat, n: nat) returns (tr: seq<State>, steps: seq<Step>)
    requires rpm > 0 && n <= s.tokens && forall id :: id in s.callers ==> id < first
    ensures |steps| == n && Chain(rpm, tr, steps) && tr[0] == s
    ensures tr[n] == s.(tokens := s.tokens - n, direct := s.direct + n, callers := tr[n].callers)
    ensures forall id :: id in tr[n].callers ==> id < first + n
  {
    if n == 0 {
      tr, steps := [s], [];
    } else {
      tr, steps := TakeMany(rpm, s, first, n - 1);
      var step := TakeDirect(first + n - 1);
      tr, steps := tr + [Apply(rpm, tr[n - 1], step)], steps + [step];
    }
  }

  /** n immediate takes from the initial state. */
  lemma DrainBucket(rpm: nat, n: nat) returns (tr: seq<State>, steps: seq<Step>)
    requires 1 <= rpm <= 60 && n <= rpm
    ensures Run(rpm, tr, steps) && tr[|steps|].tokens == rpm - n
    ensures tr[|steps|].refill.Idle? && tr[|steps|].queue == [] && (forall id :: id in tr[|steps|].callers ==> id < n)
    ensures |steps| == n && tr[|steps|].clock == 0 && tr[|steps|].next == Interval(rpm) && !tr[|steps|].pending
    ensures tr[|steps|].slots == {} && tr[|steps|].served == {}
  {
    tr, steps := TakeMany(rpm, InitState(rpm), 0, n);
  }

  /** For every rpm that a ticker can be made for, rpm + 1 calls starve the limiter for good: the calls
      that wait from then on can only time out. */
  lemma StarvationReachable(rpm: nat) returns (tr: seq<State>, steps: seq<Step>)
    requires 1 <= rpm <= 60
    ensures Run(rpm, tr, steps) && Starved(tr[|steps|]) && |steps| == rpm + 2
  {
    tr, steps := DrainBucket(rpm, rpm);
    var s := tr[|steps|];
    var s1 := Apply(rpm, s, FindEmpty(rpm));
    var s2 := Apply(rpm, s1, Enqueue(rpm));
    tr, steps := tr + [s1, s2], steps + [FindEmpty(rpm), Enqueue(rpm)];
    assert s2.queue == [rpm];
  }

  /** A token is leaked at every rate: a caller that found the bucket empty queues after a deposit, gives up,
      and is served at the next tick all the same. */
  lemma LeakReachable(rpm: nat) returns (tr: seq<State>, steps: seq<Step>)
    requires 1 <= rpm <= 60
    ensures Run(rpm, tr, steps) && Leaked(tr[|steps|]) != {}
  {
    IntervalPositive(rpm);
    var tr1, steps1 := DrainBucket(rpm, rpm);
    var tr2, steps2 := GivesUp(rpm, tr1[|steps1|]);
    var tr3, steps3 := ServedTooLate(rpm, tr2[|steps2|]);
    ChainJoin(rpm, tr1, steps1, tr2, steps2);
    tr, steps := tr1 + tr2[1..], steps1 + steps2;
    ChainJoin(rpm, tr, steps, tr3, steps3);
    tr, steps := tr + tr3[1..], steps + steps3;
  }

  /** Caller rpm finds the bucket empty, a tick later it queues, and it gives up. */
  lemma GivesUp(rpm: nat, s: State) returns (tr: seq<State>, steps: seq<Step>)
    requires 1 <= rpm <= 60 && s.tokens == 0 && s.refill.Idle? && s.queue == [] && !s.pending && s.slots == {}
    requires rpm !in s.callers && s.clock + Interval(rpm) == s.next && Interval(rpm) > 0
    ensures Chain(rpm, tr, steps) && tr[0] == s
    ensures var s' := tr[|steps|];
            && s'.tokens == 1 && s'.refill.Idle? && s'.queue == [rpm] && s'.slots == {} && !s'.pending
            && rpm in s'.callers && s'.callers[rpm].Denied? && s'.clock + Interval(rpm) == s'.next
  {
    var a := Apply(rpm, s, FindEmpty(rpm));
    var wait, waitSteps := Wait(rpm, a, Interval(rpm));
    ChainJoin(rpm, [s, a], [FindEmpty(rpm)], wait, waitSteps);
    tr, steps := [s, a] + wait[1..], [FindEmpty(rpm)] + waitSteps;
    var tail, tailSteps := DepositThenGiveUp(rpm, tr[|steps|]);
    ChainJoin(rpm, tr, steps, tail, tailSteps);
    tr, steps := tr + tail[1..], steps + tailSteps;
  }

  lemma DepositThenGiveUp(rpm: nat, b: State) returns (tr: seq<State>, steps: seq<Step>)
    requires 1 <= rpm <= 60 && b.tokens == 0 && b.refill.Idle? && b.queue == [] && b.pending && b.slots == {}
    requires rpm in b.callers && b.callers[rpm].NoToken?
    ensures Chain(rpm, tr, steps) && tr[0] == b
    ensures var s' := tr[|steps|];
            && s'.tokens == 1 && s'.refill.Idle? && s'.queue == [rpm] && s'.slots == {} && !s'.pending
            && rpm in s'.callers && s'.callers[rpm].Denied? && s'.clock == b.clock && s'.next == b.next
  {
    var b1 := Apply(rpm, b, Wake);
    var b2 := Apply(rpm, b1, SeeEmptyQueue);
    var b3 := Apply(rpm, b2, Deposit);
    var b4 := Apply(rpm, b3, Enqueue(rpm));
    tr := [b, b1, b2, b3, b4, Apply(rpm, b4, TimeOut(rpm))];
    steps := [Wake, SeeEmptyQueue, Deposit, Enqueue(rpm), TimeOut(rpm)];
  }

  /** A tick later refill serves it. */
  lemma ServedTooLate(rpm: nat, s: State) returns (tr: seq<State>, steps: seq<Step>)
    requires 1 <= rpm <= 60 && s.tokens == 1 && s.refill.Idle? && s.queue == [rpm] && s.slots == {} && !s.pending
    requires rpm in s.callers && s.callers[rpm].Denied? && s.clock + Interval(rpm) == s.next && Interval(rpm) > 0
    ensures Chain(rpm, tr, steps) && tr[0] == s && rpm in Leaked(tr[|steps|])
  {
    tr, steps := Wait(rpm, s, Interval(rpm));
    var b := tr[|steps|];
    var b1 := Apply(rpm, b, Wake);
    var b2 := Apply(rpm, b1, TakeRequest);
    var b3 := Apply(rpm, b2, TakeToken);
    var tail, tailSteps := [b, b1, b2, b3, Apply(rpm, b3, Deliver)], [Wake, TakeRequest, TakeToken, Deliver];
    ChainJoin(rpm, tr, steps, tail, tailSteps);
    tr, steps := tr + tail[1..], steps + tailSteps;
  }

  // ---------------------------------------------------------------------------------------------
  // Rate
  // ---------------------------------------------------------------------------------------------

  /** Ticks refill still has to act on: one waiting in the ticker's channel, one being acted on. */
  function Backlog(s: State): nat {
    (if s.pending then 1 else 0) + (if s.refill.Ticked? || s.refill.Depositing? then 1 else 0)
  }

  lemma DepositsStep(rpm: nat, s: State, step: Step)
    requires rpm > 0 && Enabled(s, step)
    ensures var s' := Apply(rpm, s, step);
            s'.deposits + Backlog(s') - s'.ticks <= s.deposits + Backlog(s) - s.ticks
  {
  }

  lemma {:induction false} DepositsBounded(rpm: nat, tr: seq<State>, steps: seq<Step>)
    requires rpm > 0 && Chain(rpm, tr, steps)
    ensures tr[|steps|].deposits - tr[0].deposits <= Backlog(tr[0]) + (tr[|steps|].ticks - tr[0].ticks)
    ensures tr[|steps|].deposits + Backlog(tr[|steps|]) - tr[|steps|].ticks
            <= tr[0].deposits + Backlog(tr[0]) - tr[0].ticks
    decreases |steps|
  {
    if steps != [] {
      var n := |steps| - 1;
      ChainPrefix(rpm, tr, steps, n);
      DepositsBounded(rpm, tr[..n + 1], steps[..n]);
      DepositsStep(rpm, tr[n], steps[n]);
    }
  }

  lemma OneMoreTick(k: int, q: int)
    ensures (k + 1) * q == k * q + q
  {
  }

  /** The ticker has fired every q seconds from s to s'. */
  ghost predicate TickedApart(q: nat, s: State, s': State) {
    && s.clock <= s'.clock < s'.next && s.ticks <= s'.ticks
    && s'.next == s.next + (s'.ticks - s.ticks) * q
    && s'.next <= Max(s.next, s'.clock + q)
  }

  lemma TickStep(rpm: nat, s0: State, s: State, step: Step)
    requires 1 <= rpm <= 60 && TickedApart(Interval(rpm), s0, s) && Enabled(s, step)
    ensures TickedApart(Interval(rpm), s0, Apply(rpm, s, step))
  {
    IntervalPositive(rpm);
    if step.Advance? {
      OneMoreTick(s.ticks - s0.ticks, Interval(rpm));
    }
  }

  /** The ticker fires q seconds apart. */
  lemma {:induction false} TicksApart(rpm: nat, tr: seq<State>, steps: seq<Step>)
    requires 1 <= rpm <= 60 && Chain(rpm, tr, steps) && tr[0].clock < tr[0].next
    ensures TickedApart(Interval(rpm), tr[0], tr[|steps|])
    decreases |steps|
  {
    if steps != [] {
      var n := |steps| - 1;
      ChainPrefix(rpm, tr, steps, n);
      TicksApart(rpm, tr[..n + 1], steps[..n]);
      TickStep(rpm, tr[0], tr[n], steps[n]);
    }
  }

  lemma TicksInWindow(k: nat, q: nat, first: nat, start: nat, end: nat)
    requires q > 0 && start < first && start <= end
    requires first + k * q <= Max(first, end + q)
    ensures k <= (end - start) / q + 1
  {
    if k > 0 {
      assert k * q >= q by { assert (k - 1) * q >= 0; }
      assert first + k * q <= end + q;
      assert (k - 1) * q < end - start;
      QuotientAtLeast(end - start, q, k - 1);
    }
  }

  lemma QuotientAtLeast(a: nat, q: nat, m: nat)
    requires q > 0 && m * q <= a
    ensures m <= a / q
  {
    assert a == (a / q) * q + a % q;
    assert (a / q + 1) * q == (a / q) * q + q;
    LessFactor(m, a / q + 1, q);
  }

  lemma LessFactor(x: int, y: int, q: nat)
    ensures x * q < y * q ==> x < y
  {
    if x >= y {
      assert (x - y) * q >= 0;
      assert x * q == (x - y) * q + y * q;
    }
  }

  /** In any window of W seconds of any run, at most rpm + W/q + 1 tokens are handed out, plus the
      ticks that refill had not finished acting on when the window opened (at most two). */
  lemma TakesInWindow(rpm: nat, tr: seq<State>, steps: seq<Step>, i: nat)
    requires Run(rpm, tr, steps) && i <= |steps|
    ensures var s, s', q := tr[i], tr[|steps|], Interval(rpm);
            && q > 0 && s.clock <= s'.clock
            && Handed(s') - Handed(s) <= rpm + (s'.clock - s.clock) / q + 1 + Backlog(s)
  {
    var s, s', q := tr[i], tr[|steps|], Interval(rpm);
    IntervalPositive(rpm);
    ChainPrefix(rpm, tr, steps, i);
    InvHolds(rpm, tr, steps);
    InvHolds(rpm, tr[..i + 1], steps[..i]);
    ClockInvHolds(rpm, tr[..i + 1], steps[..i]);
    var tail, rest := tr[i..], steps[i..];
    assert Chain(rpm, tail, rest) by {
      forall j | 0 <= j < |rest| ensures Enabled(tail[j], rest[j]) && tail[j + 1] == Apply(rpm, tail[j], rest[j]) {
        assert tail[j] == tr[i + j] && rest[j] == steps[i + j] && tail[j + 1] == tr[i + j + 1];
      }
    }
    assert tail[0] == s && tail[|rest|] == s';
    DepositsBounded(rpm, tail, rest);
    TicksApart(rpm, tail, rest);
    TicksInWindow(s'.ticks - s.ticks, q, s.next, s.clock, s'.clock);
  }

  lemma ChainJoin(rpm: nat, tr1: seq<State>, steps1: seq<Step>, tr2: seq<State>, steps2: seq<Step>)
    requires rpm > 0 && Chain(rpm, tr1, steps1) && Chain(rpm, tr2, steps2) && tr2[0] == tr1[|steps1|]
    ensures Chain(rpm, tr1 + tr2[1..], steps1 + steps2)
    ensures (tr1 + tr2[1..])[|steps1 + steps2|] == tr2[|steps2|] && (tr1 + tr2[1..])[0] == tr1[0]
    ensures (tr1 + tr2[1..])[|steps1|] == tr2[0]
  {
    var tr, steps, n := tr1 + tr2[1..], steps1 + steps2, |steps1|;
    forall i | 0 <= i < |steps| ensures Enabled(tr[i], steps[i]) && tr[i + 1] == Apply(rpm, tr[i], steps[i]) {
      if i < n {
        assert tr[i] == tr1[i] && tr[i + 1] == tr1[i + 1] && steps[i] == steps1[i];
      } else {
        assert tr[i] == tr2[i - n] && tr[i + 1] == tr2[i - n + 1] && steps[i] == steps2[i - n];
      }
    }
  }

  /** Refill, about to deposit into a full bucket and with a tick waiting, meets two callers. */
  lemma TwoTakes(rpm: nat, d: State) returns (tr: seq<State>, steps: seq<Step>)
    requires rpm > 0 && d.tokens == rpm && d.pending && d.refill == Depositing && d.callers == map[] && d.queue == []
    ensures Chain(rpm, tr, steps) && tr[0] == d
    ensures var s := tr[|steps|];
            && s.clock == d.clock && Handed(s) == Handed(d) + 2 && s.tokens == rpm
            && s.callers == map[1 := Granted, 2 := Granted]
  {
    steps := [TakeDirect(1), Deposit, Wake, SeeEmptyQueue, TakeDirect(2), Deposit];
    var e1 := Apply(rpm, d, TakeDirect(1));
    var e2 := Apply(rpm, e1, Deposit);
    var e3 := Apply(rpm, e2, Wake);
    var e4 := Apply(rpm, e3, SeeEmptyQueue);
    var e5 := Apply(rpm, e4, TakeDirect(2));
    tr := [d, e1, e2, e3, e4, e5, Apply(rpm, e5, Deposit)];
  }

  /** Refill falls behind by two ticks while the bucket is full. */
  lemma LateByTwo(rpm: nat) returns (tr: seq<State>, steps: seq<Step>)
    requires 1 <= rpm <= 60
    ensures Run(rpm, tr, steps)
    ensures var d := tr[|steps|];
            d.tokens == rpm && d.pending && d.refill == Depositing && d.callers == map[] && d.queue == []
  {
    var q := Interval(rpm);
    IntervalPositive(rpm);
    tr, steps := Wait(rpm, InitState(rpm), q);
    var b := Apply(rpm, tr[q], Wake);
    var c := Apply(rpm, b, SeeEmptyQueue);
    var woken := [tr[q], b, c];
    ChainJoin(rpm, tr, steps, woken, [Wake, SeeEmptyQueue]);
    tr, steps := tr + woken[1..], steps + [Wake, SeeEmptyQueue];
    var late, lateSteps := Wait(rpm, c, q);
    ChainJoin(rpm, tr, steps, late, lateSteps);
    tr, steps := tr + late[1..], steps + lateSteps;
  }

  /** The backlog term is needed at every rate: within one and the same second rpm + 2 tokens go out when
      refill is late by two ticks, one more than a window of no length allows without that term. */
  lemma LateRefillExceeds(rpm: nat) returns (tr: seq<State>, steps: seq<Step>, i: nat)
    requires 1 <= rpm <= 60
    ensures Run(rpm, tr, steps) && i <= |steps|
    ensures var s, s' := tr[i], tr[|steps|];
            s'.clock == s.clock && Handed(s') - Handed(s) == rpm + 2
  {
    tr, steps := LateByTwo(rpm);
    i := |steps|;
    var two, twoSteps := TwoTakes(rpm, tr[i]);
    ChainJoin(rpm, tr, steps, two, twoSteps);
    var all, allSteps := TakeMany(rpm, two[|twoSteps|], 3, rpm);
    tr, steps := tr + two[1..], steps + twoSteps;
    ChainJoin(rpm, tr, steps, all, allSteps);
    tr, steps := tr + all[1..], steps + allSteps;
  }

  /** n seconds pass, nothing else happens. */
  lemma {:induction false} Wait(rpm: nat, s: State, n: nat) returns (tr: seq<State>, steps: seq<Step>)
    requires rpm > 0 && s.clock + n <= s.next
    ensures |steps| == n && Chain(rpm, tr, steps) && tr[0] == s
    ensures var s' := tr[n];
            s' == if s.clock + n == s.next && n > 0
                  then s.(clock := s.clock + n, next := s.next + Interval(rpm), pending := true, ticks := s.ticks + 1)
                  else s.(clock := s.clock + n)
  {
    if n == 0 {
      tr, steps := [s], [];
    } else {
      tr, steps := Wait(rpm, s, n - 1);
      tr, steps := tr + [Apply(rpm, tr[n - 1], Advance)], steps + [Advance];
    }
  }
}
