/** SubmitAnswer and FinalizeMatch on one match as interleaved small steps over the shared store
    (internal/match/state.go, internal/match/service.go): try-acquire on a lock register with a
    30-second lease, reads, writes, compare-and-delete unlock, and a clock that may advance anywhere. */
module MatchProtocol {
  import opened Common
  import opened Scoring
  import opened MatchRecords

  const LEASE: int := 30 * SECOND

  datatype Op = SubmitOp(user: Id, s: Submission) | FinalizeOp

  /** How one record was handled: the clock that was read, and whether the store took the write. */
  datatype Env = Env(now: int, stored: bool)

  /** A call in progress. The lock value is a fresh UUID per call, so the call's id stands for it.
      `timeout` is what the match-summary lookup gave, or the fallback. */
  datatype Call =
    | Ready(op: Op)
    | Refused
    | Section(op: Op, expiry: int, timeout: int, snap: map<Id, PlayerState>, done: map<Id, Env>)
    | Released

  datatype Holder = Holder(call: Id, expiry: int)

  datatype EndedSection = EndedSection(call: Id, op: Op, timeout: int, done: map<Id, Env>)

  /** `acquired` and `log` are history: the order of acquisitions, and the sections that ended. */
  datatype State = State(
    clock: int,
    lock: Option<Holder>,
    store: map<Id, PlayerState>,
    calls: map<Id, Call>,
    acquired: seq<Id>,
    log: seq<EndedSection>)

  datatype Params = Params(c: Config, qs: seq<PackItem>)

  ghost predicate Held(s: State) {
    s.lock.Some? && s.clock < s.lock.value.expiry
  }

  /** The record a call writes over the one it read, if any. */
  ghost function Written(p: Params, op: Op, u: Id, rec: PlayerState, now: int, timeout: int): Option<PlayerState> {
    match op
    case SubmitOp(user, sub) =>
      if u != user then None
      else (match Submit(p.c, rec, p.qs, sub, now, timeout)
            case Accepted(st) => Some(st)
            case Rejected(_) => None)
    case FinalizeOp => Some(Finalize(p.c, rec, p.qs, now, timeout))
  }

  /** `LockFails` is a SETNX without an answer; `Abandon` ends a section and leaves the lock to its lease, as
      a crashed caller or a lost unlock script does. */
  datatype Step =
    | Arrive(id: Id, op: Op)
    | Tick(d: nat)
    | Acquire(id: Id, timeout: int)
    | LockFails(id: Id)
    | Read(id: Id, u: Id)
    | Process(id: Id, u: Id, stored: bool)
    | Release(id: Id)
    | Abandon(id: Id)

  ghost predicate Enabled(s: State, step: Step) {
    match step
    case Arrive(id, op) => id !in s.calls
    case Tick(d) => true
    case Acquire(id, _) => id in s.calls && s.calls[id].Ready?
    case LockFails(id) => id in s.calls && s.calls[id].Ready?
    case Read(id, u) =>
      && id in s.calls && s.calls[id].Section? && s.calls[id].done == map[]
      && u in s.store && u !in s.calls[id].snap
      && (s.calls[id].op.SubmitOp? ==> s.calls[id].op.user == u)
    case Process(id, u, _) =>
      && id in s.calls && s.calls[id].Section? && u in s.calls[id].snap && u !in s.calls[id].done
    case Release(id) =>
      && id in s.calls && s.calls[id].Section? && s.calls[id].done.Keys == s.calls[id].snap.Keys
    case Abandon(id) => id in s.calls && s.calls[id].Section?
  }

  ghost function Apply(p: Params, s: State, step: Step): State
    requires Enabled(s, step)
  {
    match step
    case Arrive(id, op) => s.(calls := s.calls[id := Ready(op)])
    case Tick(d) => s.(clock := s.clock + d)
    case Acquire(id, timeout) =>
      if Held(s) then s.(calls := s.calls[id := Refused])
      else s.(lock := Some(Holder(id, s.clock + LEASE)),
              calls := s.calls[id := Section(s.calls[id].op, s.clock + LEASE, timeout, map[], map[])],
              acquired := s.acquired + [id])
    case LockFails(id) => s.(calls := s.calls[id := Refused])
    case Read(id, u) =>
      s.(calls := s.calls[id := s.calls[id].(snap := s.calls[id].snap[u := s.store[u]])])
    case Process(id, u, stored) =>
      var k := s.calls[id];
      var w := Written(p, k.op, u, k.snap[u], s.clock, k.timeout);
      s.(store := if stored && w.Some? then s.store[u := w.value] else s.store,
         calls := s.calls[id := k.(done := k.done[u := Env(s.clock, stored)])])
    case Release(id) =>
      var k := s.calls[id];
      s.(lock := if Held(s) && s.lock.value.call == id then None else s.lock,
         calls := s.calls[id := Released],
         log := s.log + [EndedSection(id, k.op, k.timeout, k.done)])
    case Abandon(id) =>
      var k := s.calls[id];
      s.(calls := s.calls[id := Released], log := s.log + [EndedSection(id, k.op, k.timeout, k.done)])
  }

  ghost predicate Init(s: State) {
    s.lock == None && s.calls == map[] && s.acquired == [] && s.log == []
  }

  /** A run: states tr[0..|steps|], each obtained from the one before by its step. */
  ghost predicate Run(p: Params, tr: seq<State>, steps: seq<Step>) {
    && |tr| == |steps| + 1
    && Init(tr[0])
    && (forall i :: 0 <= i < |steps| ==> Enabled(tr[i], steps[i]) && tr[i + 1] == Apply(p, tr[i], steps[i]))
  }

  lemma RunPrefix(p: Params, tr: seq<State>, steps: seq<Step>)
    requires Run(p, tr, steps) && |steps| > 0
    ensures Run(p, tr[..|steps|], steps[..|steps| - 1])
  {
  }

  // ---------------------------------------------------------------------------------------------
  // Leases: every run
  // ---------------------------------------------------------------------------------------------

  ghost predicate LeaseInv(s: State) {
    forall id :: id in s.calls && s.calls[id].Section? && s.clock < s.calls[id].expiry ==>
      s.lock == Some(Holder(id, s.calls[id].expiry))
  }

  lemma LeaseInvStep(p: Params, s: State, step: Step)
    requires LeaseInv(s) && Enabled(s, step)
    ensures LeaseInv(Apply(p, s, step))
  {
  }

  lemma {:induction false} LeaseInvHolds(p: Params, tr: seq<State>, steps: seq<Step>)
    requires Run(p, tr, steps)
    ensures LeaseInv(tr[|steps|])
    decreases |steps|
  {
    if steps != [] {
      var n := |steps| - 1;
      RunPrefix(p, tr, steps);
      LeaseInvHolds(p, tr[..n + 1], steps[..n]);
      LeaseInvStep(p, tr[n], steps[n]);
    }
  }

  /** At most one call holds an unexpired lease, in every reachable state: two calls overlap inside
      their sections only when one of them has overrun its lease. */
  lemma AtMostOneLease(p: Params, tr: seq<State>, steps: seq<Step>, a: Id, b: Id)
    requires Run(p, tr, steps)
    requires var s := tr[|steps|];
             && a in s.calls && s.calls[a].Section? && b in s.calls && s.calls[b].Section? && a != b
    ensures var s := tr[|steps|]; s.clock >= s.calls[a].expiry || s.clock >= s.calls[b].expiry
  {
    LeaseInvHolds(p, tr, steps);
  }

  /** An unexpired lease survives every step but its holder's own release and the passing of time: no
      other call's stale unlock, acquisition attempt or write can take it away. */
  lemma LeaseNotStolen(p: Params, tr: seq<State>, steps: seq<Step>, step: Step, a: Id)
    requires Run(p, tr, steps)
    requires var s := tr[|steps|];
             a in s.calls && s.calls[a].Section? && s.clock < s.calls[a].expiry && Enabled(s, step)
    requires !step.Tick? && step != Release(a)
    ensures var s := tr[|steps|];
            Held(Apply(p, s, step)) && Apply(p, s, step).lock == Some(Holder(a, s.calls[a].expiry))
  {
    LeaseInvHolds(p, tr, steps);
  }

  /** The lock that a call took stays its own until it releases it or its time is up. */
  lemma {:induction false} LockKept(p: Params, tr: seq<State>, steps: seq<Step>, k: nat, n: nat, a: Id)
    requires Run(p, tr, steps) && k < n <= |steps| && steps[k].Acquire? && steps[k].id == a && !Held(tr[k])
    requires tr[n].clock < tr[k].clock + LEASE && forall j :: k < j < n ==> steps[j] != Release(a)
    ensures tr[n].lock == Some(Holder(a, tr[k].clock + LEASE))
    decreases n
  {
    if k + 1 < n {
      LockKept(p, tr, steps, k, n - 1, a);
    }
  }

  /** Whoever tries within thirty seconds of a granted acquisition that was not released is refused, whatever
      else has happened, a crash of the holder included. */
  lemma ThirtySecondsExclusive(p: Params, tr: seq<State>, steps: seq<Step>, k: nat, m: nat)
    requires Run(p, tr, steps) && k < m < |steps| && steps[k].Acquire? && !Held(tr[k])
    requires tr[m].clock < tr[k].clock + 30_000_000_000 && steps[m].Acquire?
    requires forall j :: k < j < m ==> steps[j] != Release(steps[k].id)
    ensures tr[k + 1].calls[steps[k].id].Section? && tr[m + 1].calls[steps[m].id].Refused?
    ensures tr[m + 1].lock == tr[m].lock && tr[m + 1].store == tr[m].store
  {
    LockKept(p, tr, steps, k, m, steps[k].id);
  }

  /** A lock that is there was granted at some step and ends with that call's lease. */
  lemma {:induction false} LockFrom(p: Params, tr: seq<State>, steps: seq<Step>, n: nat) returns (k: nat)
    requires Run(p, tr, steps) && n <= |steps| && tr[n].lock.Some?
    ensures k < n && steps[k].Acquire? && !Held(tr[k]) && tr[n].lock.value == Holder(steps[k].id, tr[k].clock + LEASE)
    decreases n
  {
    if tr[n - 1].lock == tr[n].lock {
      k := LockFrom(p, tr, steps, n - 1);
    } else {
      k := n - 1;
    }
  }

  /** Once thirty seconds have passed since every granted acquisition, the next one is granted, whether or not
      the others have released the lock. */
  lemma FreeAfterThirtySeconds(p: Params, tr: seq<State>, steps: seq<Step>, m: nat)
    requires Run(p, tr, steps) && m < |steps| && steps[m].Acquire?
    requires forall k :: 0 <= k < m && steps[k].Acquire? && !Held(tr[k]) ==>
               tr[k].clock + 30_000_000_000 <= tr[m].clock
    ensures tr[m + 1].calls[steps[m].id].Section?
  {
    if Held(tr[m]) {
      var k := LockFrom(p, tr, steps, m);
    }
  }

  // ---------------------------------------------------------------------------------------------
  // Answer lists: every run, even one that overruns a lease
  // ---------------------------------------------------------------------------------------------

  ghost predicate RecordsOk(p: Params, s: State) {
    && (forall u :: u in s.store ==> OrdersOk(s.store[u].answers, |p.qs|))
    && (forall id, u :: id in s.calls && s.calls[id].Section? && u in s.calls[id].snap ==>
          OrdersOk(s.calls[id].snap[u].answers, |p.qs|))
  }

  lemma WrittenOk(p: Params, op: Op, u: Id, rec: PlayerState, now: int, timeout: int)
    requires Numbered(p.qs) && OrdersOk(rec.answers, |p.qs|)
    ensures var w := Written(p, op, u, rec, now, timeout);
            w.Some? ==> OrdersOk(w.value.answers, |p.qs|) && rec.answers <= w.value.answers
  {
    match op
    case SubmitOp(_, sub) => SubmitKeepsOrders(p.c, rec, p.qs, sub, now, timeout);
    case FinalizeOp => FinalizeCloses(p.c, rec, p.qs, now, timeout);
  }

  lemma RecordsOkStep(p: Params, s: State, step: Step)
    requires Numbered(p.qs) && RecordsOk(p, s) && Enabled(s, step)
    ensures RecordsOk(p, Apply(p, s, step))
  {
    if step.Process? {
      var k := s.calls[step.id];
      WrittenOk(p, k.op, step.u, k.snap[step.u], s.clock, k.timeout);
    }
  }

  /** In every reachable state a player's answers have distinct orders drawn from 1..n. */
  lemma {:induction false} OrdersAlwaysOk(p: Params, tr: seq<State>, steps: seq<Step>)
    requires Run(p, tr, steps) && Numbered(p.qs)
    requires forall u :: u in tr[0].store ==> tr[0].store[u].answers == []
    ensures RecordsOk(p, tr[|steps|])
    decreases |steps|
  {
    if steps != [] {
      var n := |steps| - 1;
      RunPrefix(p, tr, steps);
      OrdersAlwaysOk(p, tr[..n + 1], steps[..n]);
      RecordsOkStep(p, tr[n], steps[n]);
    }
  }

  // ---------------------------------------------------------------------------------------------
  // The sequential run
  // ---------------------------------------------------------------------------------------------

  /** One section executed alone: every record it handled is replaced by what it writes. */
  ghost function Effect(p: Params, store: map<Id, PlayerState>, k: EndedSection): map<Id, PlayerState> {
    map u | u in store ::
      if u in k.done && k.done[u].stored && Written(p, k.op, u, store[u], k.done[u].now, k.timeout).Some?
      then Written(p, k.op, u, store[u], k.done[u].now, k.timeout).value
      else store[u]
  }

  /** The sections of a log executed one after the other. */
  ghost function Replay(p: Params, store: map<Id, PlayerState>, log: seq<EndedSection>): map<Id, PlayerState> {
    if log == [] then store else Effect(p, Replay(p, store, log[..|log| - 1]), log[|log| - 1])
  }

  ghost function CallsOf(log: seq<EndedSection>): seq<Id> {
    seq(|log|, i requires 0 <= i < |log| => log[i].call)
  }

  /** No call is inside its section past its lease. */
  ghost predicate InLease(s: State) {
    forall id :: id in s.calls && s.calls[id].Section? ==> s.clock < s.calls[id].expiry
  }

  ghost predicate Quiet(s: State) {
    forall id :: id in s.calls ==> !s.calls[id].Section?
  }

  /** The store is the sequential run of the ended sections, plus the work of the one in progress. */
  ghost predicate SeqInv(p: Params, store0: map<Id, PlayerState>, s: State) {
    var base := Replay(p, store0, s.log);
    && (Quiet(s) ==> s.store == base && s.acquired == CallsOf(s.log))
    && (forall id :: id in s.calls && s.calls[id].Section? ==>
          var k := s.calls[id];
          && s.store == Effect(p, base, EndedSection(id, k.op, k.timeout, k.done))
          && s.acquired == CallsOf(s.log) + [id]
          && k.done.Keys <= k.snap.Keys <= base.Keys
          && (forall u :: u in k.snap ==> k.snap[u] == base[u]))
  }

  lemma EffectNothing(p: Params, store: map<Id, PlayerState>, call: Id, op: Op, timeout: int)
    ensures Effect(p, store, EndedSection(call, op, timeout, map[])) == store
  {
  }

  /** The single section of a leased state is the lock's. */
  lemma OneSection(s: State, a: Id)
    requires LeaseInv(s) && InLease(s) && a in s.calls && s.calls[a].Section?
    ensures Held(s) && s.lock.value.call == a
    ensures forall id :: id in s.calls && s.calls[id].Section? ==> id == a
  {
  }

  lemma SeqStepAcquire(p: Params, store0: map<Id, PlayerState>, s: State, step: Step)
    requires LeaseInv(s) && InLease(s) && SeqInv(p, store0, s) && Enabled(s, step) && step.Acquire?
    ensures SeqInv(p, store0, Apply(p, s, step))
  {
    var s' := Apply(p, s, step);
    if Held(s) {
      if a :| a in s.calls && s.calls[a].Section? {
        assert a in s'.calls && s'.calls[a] == s.calls[a];
      }
    } else {
      if a :| a in s.calls && s.calls[a].Section? {
        OneSection(s, a);
        assert false;
      }
      assert Quiet(s);
      assert s'.calls[step.id].Section?;
      EffectNothing(p, s.store, step.id, s.calls[step.id].op, step.timeout);
    }
  }

  lemma SeqStepRead(p: Params, store0: map<Id, PlayerState>, s: State, step: Step)
    requires LeaseInv(s) && InLease(s) && SeqInv(p, store0, s) && Enabled(s, step) && step.Read?
    ensures SeqInv(p, store0, Apply(p, s, step))
  {
    var k := s.calls[step.id];
    OneSection(s, step.id);
    EffectNothing(p, Replay(p, store0, s.log), step.id, k.op, k.timeout);
    assert !Quiet(Apply(p, s, step)) by {
      assert Apply(p, s, step).calls[step.id].Section?;
    }
  }

  lemma SeqStepProcess(p: Params, store0: map<Id, PlayerState>, s: State, step: Step)
    requires LeaseInv(s) && InLease(s) && SeqInv(p, store0, s) && Enabled(s, step) && step.Process?
    ensures SeqInv(p, store0, Apply(p, s, step))
  {
    var k := s.calls[step.id];
    OneSection(s, step.id);
    var s' := Apply(p, s, step);
    var base := Replay(p, store0, s.log);
    assert k.snap[step.u] == base[step.u];
    EffectOneMore(p, base, EndedSection(step.id, k.op, k.timeout, k.done), step.u, Env(s.clock, step.stored));
    assert s'.calls[step.id].Section?;
  }

  /** Handling one more record changes the effect at that record only. */
  lemma EffectOneMore(p: Params, base: map<Id, PlayerState>, k: EndedSection, u: Id, env: Env)
    requires u in base && u !in k.done
    ensures var w, e := Written(p, k.op, u, base[u], env.now, k.timeout), Effect(p, base, k);
            Effect(p, base, k.(done := k.done[u := env])) == if env.stored && w.Some? then e[u := w.value] else e
  {
  }

  lemma SeqStepRelease(p: Params, store0: map<Id, PlayerState>, s: State, step: Step)
    requires LeaseInv(s) && InLease(s) && SeqInv(p, store0, s) && Enabled(s, step) && (step.Release? || step.Abandon?)
    ensures SeqInv(p, store0, Apply(p, s, step))
  {
    OneSection(s, step.id);
    var s' := Apply(p, s, step);
    assert s'.log[..|s.log|] == s.log;
    assert CallsOf(s'.log) == CallsOf(s.log) + [step.id];
    assert Quiet(s');
  }

  lemma SeqStepOther(p: Params, store0: map<Id, PlayerState>, s: State, step: Step)
    requires SeqInv(p, store0, s) && Enabled(s, step) && (step.Arrive? || step.Tick? || step.LockFails?)
    ensures SeqInv(p, store0, Apply(p, s, step))
  {
    var s' := Apply(p, s, step);
    if Quiet(s') {
      forall id | id in s.calls ensures !s.calls[id].Section? {
        assert s'.calls[id] == s.calls[id] || s.calls[id].Ready?;
      }
    }
  }

  lemma SeqStep(p: Params, store0: map<Id, PlayerState>, s: State, step: Step)
    requires LeaseInv(s) && InLease(s) && SeqInv(p, store0, s) && Enabled(s, step)
    ensures SeqInv(p, store0, Apply(p, s, step))
  {
    match step
    case Acquire(_, _) => SeqStepAcquire(p, store0, s, step);
    case Read(_, _) => SeqStepRead(p, store0, s, step);
    case Process(_, _, _) => SeqStepProcess(p, store0, s, step);
    case Release(_) => SeqStepRelease(p, store0, s, step);
    case Abandon(_) => SeqStepRelease(p, store0, s, step);
    case _ => SeqStepOther(p, store0, s, step);
  }

  lemma {:induction false} SeqInvHolds(p: Params, tr: seq<State>, steps: seq<Step>)
    requires Run(p, tr, steps)
    requires forall i :: 0 <= i < |steps| ==> InLease(tr[i])
    ensures SeqInv(p, tr[0].store, tr[|steps|])
    decreases |steps|
  {
    if steps != [] {
      var n := |steps| - 1;
      RunPrefix(p, tr, steps);
      SeqInvHolds(p, tr[..n + 1], steps[..n]);
      LeaseInvHolds(p, tr[..n + 1], steps[..n]);
      SeqStep(p, tr[0].store, tr[n], steps[n]);
    } else {
      assert CallsOf([]) == [];
    }
  }

  /** When every section ends within its lease, any interleaving leaves the store of the sequential
      run of the sections in lock-acquisition order. */
  lemma Serializable(p: Params, tr: seq<State>, steps: seq<Step>)
    requires Run(p, tr, steps) && Quiet(tr[|steps|])
    requires forall i :: 0 <= i <= |steps| ==> InLease(tr[i])
    ensures tr[|steps|].store == Replay(p, tr[0].store, tr[|steps|].log)
    ensures CallsOf(tr[|steps|].log) == tr[|steps|].acquired
  {
    SeqInvHolds(p, tr, steps);
  }

  // ---------------------------------------------------------------------------------------------
  // What the sequential run keeps
  // ---------------------------------------------------------------------------------------------

  ghost predicate StoreOk(p: Params, store: map<Id, PlayerState>) {
    forall u :: u in store ==> OrdersOk(store[u].answers, |p.qs|)
  }

  lemma EffectGrows(p: Params, store: map<Id, PlayerState>, k: EndedSection)
    requires Numbered(p.qs) && StoreOk(p, store)
    ensures var e := Effect(p, store, k);
            && e.Keys == store.Keys && StoreOk(p, e)
            && (forall u :: u in store ==> store[u].answers <= e[u].answers)
  {
    forall u | u in store && u in k.done
      ensures var w := Written(p, k.op, u, store[u], k.done[u].now, k.timeout);
              w.Some? ==> OrdersOk(w.value.answers, |p.qs|) && store[u].answers <= w.value.answers
    {
      WrittenOk(p, k.op, u, store[u], k.done[u].now, k.timeout);
    }
  }

  /** Replaying a log keeps the players and leaves well-formed answer lists. */
  lemma {:induction false} ReplayOk(p: Params, store: map<Id, PlayerState>, log: seq<EndedSection>)
    requires Numbered(p.qs) && StoreOk(p, store)
    ensures Replay(p, store, log).Keys == store.Keys && StoreOk(p, Replay(p, store, log))
    decreases |log|
  {
    if log != [] {
      var m := |log| - 1;
      ReplayOk(p, store, log[..m]);
      EffectGrows(p, Replay(p, store, log[..m]), log[m]);
    }
  }

  /** Each player's answers in `b` continue those in `a`. */
  ghost predicate Continues(a: map<Id, PlayerState>, b: map<Id, PlayerState>) {
    a.Keys == b.Keys && forall u :: u in a ==> a[u].answers <= b[u].answers
  }

  lemma ReplayContinues(p: Params, store: map<Id, PlayerState>, log: seq<EndedSection>)
    requires Numbered(p.qs) && StoreOk(p, store) && log != []
    ensures Continues(Replay(p, store, log[..|log| - 1]), Replay(p, store, log))
  {
    var m := |log| - 1;
    ReplayOk(p, store, log[..m]);
    EffectGrows(p, Replay(p, store, log[..m]), log[m]);
  }

  lemma ContinuesOn(a: map<Id, PlayerState>, b: map<Id, PlayerState>, c: map<Id, PlayerState>)
    requires Continues(a, b) && Continues(b, c)
    ensures Continues(a, c)
  {
  }

  lemma {:induction false} PrefixContinues(p: Params, store: map<Id, PlayerState>, log: seq<EndedSection>, n: nat)
    requires Numbered(p.qs) && StoreOk(p, store) && n <= |log|
    ensures Continues(Replay(p, store, log[..n]), Replay(p, store, log))
    decreases |log|
  {
    if n == |log| {
      assert log[..n] == log;
    } else {
      var front := log[..|log| - 1];
      assert front[..n] == log[..n];
      PrefixContinues(p, store, front, n);
      ReplayContinues(p, store, log);
      ContinuesOn(Replay(p, store, log[..n]), Replay(p, store, front), Replay(p, store, log));
    }
  }

  /** Answers are only ever appended: what a prefix of the log left is a prefix of what the log leaves. */
  lemma ReplayGrows(p: Params, store: map<Id, PlayerState>, log: seq<EndedSection>, n: nat)
    requires Numbered(p.qs) && StoreOk(p, store) && n <= |log|
    ensures var a, b := Replay(p, store, log[..n]), Replay(p, store, log);
            && a.Keys == b.Keys == store.Keys && StoreOk(p, a) && StoreOk(p, b)
            && (forall u :: u in a ==> a[u].answers <= b[u].answers)
  {
    ReplayOk(p, store, log);
    ReplayOk(p, store, log[..n]);
    PrefixContinues(p, store, log, n);
  }

  /** The k-th section of the log was a submission that was accepted and stored. */
  ghost predicate AcceptedAt(p: Params, store: map<Id, PlayerState>, log: seq<EndedSection>, k: nat) {
    && k < |log| && log[k].op.SubmitOp?
    && var u := log[k].op.user;
       var before := Replay(p, store, log[..k]);
       && u in log[k].done && log[k].done[u].stored && u in before
       && Submit(p.c, before[u], p.qs, log[k].op.s, log[k].done[u].now, log[k].timeout).Accepted?
  }

  /** What the k-th section found for its user, and what it left if it was accepted. */
  ghost function AnswersAfter(p: Params, store: map<Id, PlayerState>, log: seq<EndedSection>, k: nat): seq<Answer>
    requires AcceptedAt(p, store, log, k)
  {
    var u := log[k].op.user;
    Submit(p.c, Replay(p, store, log[..k])[u], p.qs, log[k].op.s, log[k].done[u].now, log[k].timeout).state.answers
  }

  lemma AcceptedStaysInLog(p: Params, store: map<Id, PlayerState>, log: seq<EndedSection>, k: nat)
    requires Numbered(p.qs) && StoreOk(p, store) && AcceptedAt(p, store, log, k)
    ensures log[k].op.user in Replay(p, store, log)
    ensures AnswersAfter(p, store, log, k) <= Replay(p, store, log)[log[k].op.user].answers
  {
    assert log[..k + 1][..k] == log[..k] && log[..k + 1][k] == log[k];
    ReplayGrows(p, store, log, k + 1);
    assert AnswersAfter(p, store, log, k) == Replay(p, store, log[..k + 1])[log[k].op.user].answers;
  }

  /** No accepted answer is lost: it is in the stored record ever after, at the place it was given. */
  lemma AcceptedAnswerKept(p: Params, tr: seq<State>, steps: seq<Step>, k: nat)
    requires Run(p, tr, steps) && Quiet(tr[|steps|]) && Numbered(p.qs)
    requires forall i :: 0 <= i <= |steps| ==> InLease(tr[i])
    requires forall u :: u in tr[0].store ==> tr[0].store[u].answers == []
    requires AcceptedAt(p, tr[0].store, tr[|steps|].log, k)
    ensures var u := tr[|steps|].log[k].op.user;
            && u in tr[|steps|].store
            && AnswersAfter(p, tr[0].store, tr[|steps|].log, k) <= tr[|steps|].store[u].answers
  {
    Serializable(p, tr, steps);
    AcceptedStaysInLog(p, tr[0].store, tr[|steps|].log, k);
  }

  lemma EffectKeepsClosed(p: Params, store: map<Id, PlayerState>, k: EndedSection, u: Id)
    requires Numbered(p.qs) && u in store && Closed(store[u].answers, |p.qs|)
    ensures Effect(p, store, k)[u].answers == store[u].answers
  {
    if u in k.done {
      match k.op
      case SubmitOp(_, sub) => ClosedRejectsSubmissions(p.c, store[u], p.qs, sub, k.done[u].now, k.timeout);
      case FinalizeOp => FinalizeTwice(p.c, store[u], p.qs, k.done[u].now, k.timeout);
    }
  }

  lemma {:induction false} ReplayKeepsClosed(p: Params, store: map<Id, PlayerState>, log: seq<EndedSection>, n: nat,
                                             u: Id)
    requires Numbered(p.qs) && StoreOk(p, store) && n <= |log| && u in store
    requires u in Replay(p, store, log[..n]) && Closed(Replay(p, store, log[..n])[u].answers, |p.qs|)
    ensures u in Replay(p, store, log) && Replay(p, store, log)[u].answers == Replay(p, store, log[..n])[u].answers
    decreases |log|
  {
    if n < |log| {
      var m := |log| - 1;
      assert log[..m][..n] == log[..n];
      ReplayKeepsClosed(p, store, log[..m], n, u);
      EffectKeepsClosed(p, Replay(p, store, log[..m]), log[m], u);
    } else {
      assert log[..n] == log;
    }
  }

  /** The k-th section of the log was a finalization that stored u's record. */
  ghost predicate FinalizedAt(store: map<Id, PlayerState>, log: seq<EndedSection>, k: nat, u: Id) {
    k < |log| && log[k].op.FinalizeOp? && u in store && u in log[k].done && log[k].done[u].stored
  }

  ghost predicate IsSubmitBy(op: Op, u: Id) {
    op.SubmitOp? && op.user == u
  }

  lemma FinalizeEffect(p: Params, store: map<Id, PlayerState>, k: EndedSection, u: Id)
    requires Numbered(p.qs) && u in store && OrdersOk(store[u].answers, |p.qs|)
    requires k.op.FinalizeOp? && u in k.done && k.done[u].stored
    ensures Closed(Effect(p, store, k)[u].answers, |p.qs|)
  {
    FinalizeCloses(p.c, store[u], p.qs, k.done[u].now, k.timeout);
  }

  lemma ClosedInLog(p: Params, store: map<Id, PlayerState>, log: seq<EndedSection>, k: nat, u: Id)
    requires Numbered(p.qs) && StoreOk(p, store) && FinalizedAt(store, log, k, u)
    ensures u in Replay(p, store, log[..k + 1]) && u in Replay(p, store, log)
    ensures Closed(Replay(p, store, log)[u].answers, |p.qs|)
    ensures Replay(p, store, log)[u].answers == Replay(p, store, log[..k + 1])[u].answers
  {
    ReplayGrows(p, store, log, k);
    assert log[..k + 1][..k] == log[..k] && log[..k + 1][k] == log[k];
    FinalizeEffect(p, Replay(p, store, log[..k]), log[k], u);
    ReplayKeepsClosed(p, store, log, k + 1, u);
  }

  lemma NoneAcceptedLater(p: Params, store: map<Id, PlayerState>, log: seq<EndedSection>, k: nat, j: nat, u: Id)
    requires Numbered(p.qs) && StoreOk(p, store) && FinalizedAt(store, log, k, u)
    requires k < j < |log| && IsSubmitBy(log[j].op, u)
    ensures !AcceptedAt(p, store, log, j)
  {
    ClosedInLog(p, store, log[..j], k, u);
    if u in log[j].done {
      ClosedRejectsSubmissions(p.c, Replay(p, store, log[..j])[u], p.qs, log[j].op.s, log[j].done[u].now,
                               log[j].timeout);
    }
  }

  /** Once a finalization has stored a player's record, that record answers every question exactly
      once and its answer list never changes again: all later submissions are refused, and later
      finalizations change nothing in it. */
  lemma FinalizedForever(p: Params, tr: seq<State>, steps: seq<Step>, k: nat, u: Id)
    requires Run(p, tr, steps) && Quiet(tr[|steps|]) && Numbered(p.qs)
    requires forall i :: 0 <= i <= |steps| ==> InLease(tr[i])
    requires forall v :: v in tr[0].store ==> tr[0].store[v].answers == []
    requires FinalizedAt(tr[0].store, tr[|steps|].log, k, u)
    ensures u in tr[|steps|].store && Closed(tr[|steps|].store[u].answers, |p.qs|)
    ensures u in Replay(p, tr[0].store, tr[|steps|].log[..k + 1])
    ensures tr[|steps|].store[u].answers == Replay(p, tr[0].store, tr[|steps|].log[..k + 1])[u].answers
    ensures forall j :: k < j < |tr[|steps|].log| && IsSubmitBy(tr[|steps|].log[j].op, u) ==>
              !AcceptedAt(p, tr[0].store, tr[|steps|].log, j)
  {
    var store0, log := tr[0].store, tr[|steps|].log;
    Serializable(p, tr, steps);
    ClosedInLog(p, store0, log, k, u);
    forall j | k < j < |log| && IsSubmitBy(log[j].op, u)
      ensures !AcceptedAt(p, store0, log, j)
    {
      NoneAcceptedLater(p, store0, log, k, j, u);
    }
  }

  // ---------------------------------------------------------------------------------------------
  // When an answer is lost: every run, within leases or not
  // ---------------------------------------------------------------------------------------------

  /** The answer is in the user's stored record. */
  ghost predicate Holds(s: State, u: Id, a: Answer) {
    u in s.store && a in s.store[u].answers
  }

  /** The record that a step stores for the user, if it stores one. */
  ghost function StoredBy(p: Params, s: State, step: Step, u: Id): Option<PlayerState> {
    if Enabled(s, step) && step.Process? && step.u == u && step.stored
    then Written(p, s.calls[step.id].op, u, s.calls[step.id].snap[u], s.clock, s.calls[step.id].timeout)
    else None
  }

  /** Step w, after step t, stores a record of the user without the answer, made from a snapshot that its call
      read before step t. */
  ghost predicate StaleWrite(p: Params, tr: seq<State>, steps: seq<Step>, t: nat, w: nat, u: Id, a: Answer)
    requires |tr| == |steps| + 1
  {
    && t < w < |steps| && StoredBy(p, tr[w], steps[w], u).Some? && a !in StoredBy(p, tr[w], steps[w], u).value.answers
    && exists r :: 0 <= r < t && steps[r] == Read(steps[w].id, u)
  }

  /** A section's snapshot is what the store held when the section read it. */
  lemma {:induction false} SnapshotRead(p: Params, tr: seq<State>, steps: seq<Step>, id: Id, u: Id) returns (r: nat)
    requires Run(p, tr, steps)
    requires var s := tr[|steps|]; id in s.calls && s.calls[id].Section? && u in s.calls[id].snap
    ensures r < |steps| && steps[r] == Read(id, u)
    ensures u in tr[r].store && tr[|steps|].calls[id].snap[u] == tr[r].store[u]
    decreases |steps|
  {
    var n := |steps| - 1;
    if steps[n] == Read(id, u) {
      r := n;
    } else {
      SnapshotStays(p, tr[n], steps[n], id, u);
      RunPrefix(p, tr, steps);
      r := SnapshotRead(p, tr[..n + 1], steps[..n], id, u);
    }
  }

  lemma SnapshotStays(p: Params, s: State, step: Step, id: Id, u: Id)
    requires Enabled(s, step) && step != Read(id, u)
    requires var s' := Apply(p, s, step); id in s'.calls && s'.calls[id].Section? && u in s'.calls[id].snap
    ensures id in s.calls && s.calls[id].Section? && u in s.calls[id].snap
    ensures s.calls[id].snap[u] == Apply(p, s, step).calls[id].snap[u]
  {
  }

  /** The first state after step t that no longer holds the answer. */
  lemma {:induction false} FirstLoss(tr: seq<State>, t: nat, n: nat, u: Id, a: Answer) returns (m: nat)
    requires t + 1 < |tr| && Holds(tr[t + 1], u, a) && t < n < |tr| && !Holds(tr[n], u, a)
    ensures t + 1 < m <= n && !Holds(tr[m], u, a) && forall k :: t < k < m ==> Holds(tr[k], u, a)
    decreases n
  {
    if k :| t < k < n && !Holds(tr[k], u, a) {
      m := FirstLoss(tr, t, k, u, a);
    } else {
      m := n;
    }
  }

  /** Only a stored write of the user's record can take an answer out of it. */
  lemma LossIsWrite(p: Params, s: State, step: Step, u: Id, a: Answer)
    requires Enabled(s, step) && Holds(s, u, a) && !Holds(Apply(p, s, step), u, a)
    ensures StoredBy(p, s, step, u).Some? && a !in StoredBy(p, s, step, u).value.answers
  {
  }

  lemma LossHasStaleWrite(p: Params, tr: seq<State>, steps: seq<Step>, t: nat, n: nat, u: Id, a: Answer)
    requires Run(p, tr, steps) && Numbered(p.qs)
    requires forall v :: v in tr[0].store ==> tr[0].store[v].answers == []
    requires t < |steps| && Holds(tr[t + 1], u, a) && t < n <= |steps| && !Holds(tr[n], u, a)
    ensures exists w :: StaleWrite(p, tr, steps, t, w, u, a)
  {
    var m := FirstLoss(tr, t, n, u, a);
    var w := m - 1;
    var s := tr[w];
    LossIsWrite(p, s, steps[w], u, a);
    PrefixRun(p, tr, steps, w);
    OrdersAlwaysOk(p, tr[..w + 1], steps[..w]);
    var id := steps[w].id;
    var k := s.calls[id];
    WrittenOk(p, k.op, u, k.snap[u], s.clock, k.timeout);
    var r := SnapshotRead(p, tr[..w + 1], steps[..w], id, u);
    assert a !in k.snap[u].answers;
    ReadBefore(p, tr, steps, t, r, u, a);
    assert StaleWrite(p, tr, steps, t, w, u, a);
  }

  lemma {:induction false} PrefixRun(p: Params, tr: seq<State>, steps: seq<Step>, n: nat)
    requires Run(p, tr, steps) && n <= |steps|
    ensures Run(p, tr[..n + 1], steps[..n])
  {
  }

  /** A read that missed the answer came before step t, if it came before the answer was first lost. */
  lemma ReadBefore(p: Params, tr: seq<State>, steps: seq<Step>, t: nat, r: nat, u: Id, a: Answer)
    requires Run(p, tr, steps) && t < |steps| && r < |steps| && steps[r].Read? && Holds(tr[t + 1], u, a)
    requires u in tr[r].store && a !in tr[r].store[u].answers
    requires t < r ==> Holds(tr[r], u, a)
    ensures r < t
  {
    assert tr[r + 1].store == tr[r].store;
  }

  /** In any run whatever, an answer that is in the stored record after step t is lost at some later time
      exactly when a later step stores a record without it, made from a snapshot read before step t. */
  lemma AnswerLostIff(p: Params, tr: seq<State>, steps: seq<Step>, t: nat, u: Id, a: Answer)
    requires Run(p, tr, steps) && Numbered(p.qs)
    requires forall v :: v in tr[0].store ==> tr[0].store[v].answers == []
    requires t < |steps| && Holds(tr[t + 1], u, a)
    ensures (exists n :: t < n <= |steps| && !Holds(tr[n], u, a))
            <==> exists w :: StaleWrite(p, tr, steps, t, w, u, a)
  {
    if n :| t < n <= |steps| && !Holds(tr[n], u, a) {
      LossHasStaleWrite(p, tr, steps, t, n, u, a);
    }
    if w :| StaleWrite(p, tr, steps, t, w, u, a) {
      assert !Holds(tr[w + 1], u, a);
    }
  }

  // ---------------------------------------------------------------------------------------------
  // The lease is needed
  // ---------------------------------------------------------------------------------------------

  const PACK: Params := Params(DEFAULT_CONFIG, [PackItem(1, "a", "a", "x"), PackItem(2, "b", "b", "x")])
  const BLANK: PlayerState := PlayerState(7, false, "", None, Queued, None, None, None, [])
  const FIRST: Submission := Submission("a", "", 0)
  const SECOND_ONE: Submission := Submission("b", "", 0)

  /** A submission of either question to the blank record at t = 30 s, past its time limit. */
  lemma BlankSubmit(i: nat)
    requires i < 2
    ensures var sub := if i == 0 then FIRST else SECOND_ONE;
            var st := BLANK.(answers := [AnswerFor(DEFAULT_CONFIG, PACK.qs[i], sub, [], LEASE, 0)]);
            && Submit(PACK.c, BLANK, PACK.qs, sub, LEASE, 0) == Accepted(st)
            && Written(PACK, SubmitOp(7, sub), 7, BLANK, LEASE, 0) == Some(st)
            && st.answers[0].order == i + 1
  {
  }

  ghost predicate Chain(p: Params, tr: seq<State>, steps: seq<Step>) {
    |tr| == |steps| + 1
    && forall i :: 0 <= i < |steps| ==> Enabled(tr[i], steps[i]) && tr[i + 1] == Apply(p, tr[i], steps[i])
  }

  lemma ChainJoin(p: Params, tr1: seq<State>, steps1: seq<Step>, tr2: seq<State>, steps2: seq<Step>)
    requires Chain(p, tr1, steps1) && Chain(p, tr2, steps2) && tr2[0] == tr1[|steps1|]
    ensures Chain(p, tr1 + tr2[1..], steps1 + steps2)
    ensures (tr1 + tr2[1..])[|steps1 + steps2|] == tr2[|steps2|] && (tr1 + tr2[1..])[0] == tr1[0]
  {
  }

  /** Call 1 reads and stalls for the length of its lease; call 2 acquires the expired lock and reads. */
  lemma OverrunOpens() returns (tr: seq<State>, steps: seq<Step>)
    ensures Chain(PACK, tr, steps) && |steps| == 7 && Init(tr[0]) && tr[0].store == map[7 := BLANK]
    ensures tr[7] == State(LEASE, Some(Holder(2, 2 * LEASE)), map[7 := BLANK],
                           map[1 := Section(SubmitOp(7, FIRST), LEASE, 0, map[7 := BLANK], map[]),
                               2 := Section(SubmitOp(7, SECOND_ONE), 2 * LEASE, 0, map[7 := BLANK], map[])],
                           [1, 2], [])
  {
    var tr1, steps1 := OneReads();
    var s := tr1[4];
    var steps2 := [Tick(LEASE), Acquire(2, 0), Read(2, 7)];
    var s1 := Apply(PACK, s, steps2[0]);
    var s2 := Apply(PACK, s1, steps2[1]);
    var tr2 := [s, s1, s2, Apply(PACK, s2, steps2[2])];
    ChainJoin(PACK, tr1, steps1, tr2, steps2);
    tr, steps := tr1 + tr2[1..], steps1 + steps2;
  }

  /** Two calls arrive; call 1 acquires the lock and reads. */
  lemma OneReads() returns (tr: seq<State>, steps: seq<Step>)
    ensures Chain(PACK, tr, steps) && |steps| == 4 && Init(tr[0]) && tr[0].store == map[7 := BLANK]
    ensures tr[4] == State(0, Some(Holder(1, LEASE)), map[7 := BLANK],
                           map[1 := Section(SubmitOp(7, FIRST), LEASE, 0, map[7 := BLANK], map[]),
                               2 := Ready(SubmitOp(7, SECOND_ONE))],
                           [1], [])
  {
    steps := [Arrive(1, SubmitOp(7, FIRST)), Arrive(2, SubmitOp(7, SECOND_ONE)), Acquire(1, 0), Read(1, 7)];
    var s0 := State(0, None, map[7 := BLANK], map[], [], []);
    var s1 := Apply(PACK, s0, steps[0]);
    var s2 := Apply(PACK, s1, steps[1]);
    var s3 := Apply(PACK, s2, steps[2]);
    tr := [s0, s1, s2, s3, Apply(PACK, s3, steps[3])];
  }

  /** A call that has read the blank record writes and releases. */
  lemma WriteAndRelease(s: State, id: Id, w: PlayerState) returns (tr: seq<State>, steps: seq<Step>)
    requires id in s.calls && s.calls[id].Section? && s.calls[id].done == map[] && s.calls[id].snap == map[7 := BLANK]
    requires Written(PACK, s.calls[id].op, 7, BLANK, s.clock, s.calls[id].timeout) == Some(w)
    ensures Chain(PACK, tr, steps) && |steps| == 2 && tr[0] == s
    ensures tr[2].clock == s.clock && tr[2].store == s.store[7 := w] && tr[2].calls == s.calls[id := Released]
    ensures tr[2].log == s.log + [EndedSection(id, s.calls[id].op, s.calls[id].timeout, map[7 := Env(s.clock, true)])]
  {
    steps := [Process(id, 7, true), Release(id)];
    var s1 := Apply(PACK, s, steps[0]);
    assert s1.calls[id].done == map[7 := Env(s.clock, true)];
    tr := [s, s1, Apply(PACK, s1, steps[1])];
  }

  /** The lease condition is needed: in this run a call overruns its lease, and an answer that was
      accepted and stored is gone when both calls have ended. */
  lemma OverrunLosesAnswer() returns (tr: seq<State>, steps: seq<Step>)
    ensures Run(PACK, tr, steps) && Quiet(tr[|steps|]) && Numbered(PACK.qs)
    ensures forall u :: u in tr[0].store ==> tr[0].store[u].answers == []
    ensures var log := tr[|steps|].log;
            && AcceptedAt(PACK, tr[0].store, log, 0)
            && |AnswersAfter(PACK, tr[0].store, log, 0)| == 1
            && log[0].op.user in tr[|steps|].store
            && AnswersAfter(PACK, tr[0].store, log, 0)[0].order
               !in Orders(tr[|steps|].store[log[0].op.user].answers)
  {
    var tr1, steps1 := OverrunOpens();
    BlankSubmit(0);
    BlankSubmit(1);
    var a := Written(PACK, SubmitOp(7, FIRST), 7, BLANK, LEASE, 0).value;
    var b := Written(PACK, SubmitOp(7, SECOND_ONE), 7, BLANK, LEASE, 0).value;
    var tr2, steps2 := WriteAndRelease(tr1[7], 2, b);
    var tr3, steps3 := WriteAndRelease(tr2[2], 1, a);
    ChainJoin(PACK, tr1, steps1, tr2, steps2);
    tr, steps := tr1 + tr2[1..], steps1 + steps2;
    ChainJoin(PACK, tr, steps, tr3, steps3);
    tr, steps := tr + tr3[1..], steps + steps3;
    var log := tr[11].log;
    assert log[..0] == [];
    assert Replay(PACK, tr[0].store, log[..0]) == tr[0].store;
  }
}
