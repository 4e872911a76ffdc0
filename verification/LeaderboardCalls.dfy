/** RecordResult holds no lock across its windows (internal/leaderboard/service.go:139-143), so calls
    interleave window by window. The order of the windows still bounds what they show. */
module LeaderboardCalls {
  import opened Common
  import opened Leaderboard

  /** A call to RecordResult: the windows before `next` are updated; `failed` ends it. */
  datatype Call = Call(entry: Entry, next: nat, failed: bool)

  /** The calls begun so far, in order of their beginning. */
  datatype State = State(store: Store, calls: seq<Call>)

  datatype Step =
    | Begin(req: Request)
    | UpdateNext(c: nat, ok: bool)
    | PrivateRoom(roomCode: string, req: Request, ok: bool)

  /** `own` are the service's windows and `prefix` its key prefix. */
  datatype Board = Board(prefix: string, own: seq<string>)

  ghost predicate AtMost(a: Totals, b: Totals) {
    a.score <= b.score && a.wins <= b.wins && a.games <= b.games && a.correct <= b.correct && a.questions <= b.questions
  }

  /** Requests as FinalizeMatch builds them: the service's own windows, no negative count or score. */
  ghost predicate Plain(req: Request) {
    req.score >= 0 && req.correctCount >= 0 && req.questionCount >= 0 && req.windows == []
  }

  ghost predicate Enabled(b: Board, s: State, step: Step) {
    match step
    case Begin(req) => req.eligible && Plain(req)
    case UpdateNext(c, _) => c < |s.calls| && !s.calls[c].failed && s.calls[c].next < |b.own|
    case PrivateRoom(_, _, _) => true
  }

  ghost function Apply(b: Board, s: State, step: Step): State
    requires Enabled(b, s, step)
  {
    match step
    case Begin(req) => s.(calls := s.calls + [Call(EntryOf(req), 0, false)])
    case UpdateNext(c, ok) =>
      var k := s.calls[c];
      if ok
      then State(BumpAll(b.prefix, s.store, [Update(b.own[k.next], k.entry)]), s.calls[c := k.(next := k.next + 1)])
      else s.(calls := s.calls[c := k.(failed := true)])
    case PrivateRoom(code, req, ok) => s.(store := BumpAll(b.prefix, s.store, PrivateUpdates(code, req, ok)))
  }

  ghost predicate Run(b: Board, tr: seq<State>, steps: seq<Step>) {
    && |tr| == |steps| + 1 && tr[0] == State(EMPTY, [])
    && forall i :: 0 <= i < |steps| ==> Enabled(b, tr[i], steps[i]) && tr[i + 1] == Apply(b, tr[i], steps[i])
  }

  // ---------------------------------------------------------------------------------------------
  // What calls between two windows still owe
  // ---------------------------------------------------------------------------------------------

  const NOTHING: Totals := Totals(0, 0, 0, 0, 0)

  /** What one call has put into window i and not yet into the later window j. */
  ghost function Owed(k: Call, i: nat, j: nat, u: Uuid): Totals {
    if i < k.next <= j && k.entry.userId == u then EntryTotals(k.entry) else NOTHING
  }

  ghost function AllOwed(calls: seq<Call>, i: nat, j: nat, u: Uuid): Totals {
    if calls == [] then NOTHING
    else
      var n := |calls| - 1;
      Plus(AllOwed(calls[..n], i, j, u), Owed(calls[n], i, j, u))
  }

  lemma OwedBegin(calls: seq<Call>, k: Call, i: nat, j: nat, u: Uuid)
    requires k.next == 0
    ensures AllOwed(calls + [k], i, j, u) == AllOwed(calls, i, j, u)
  {
    var all := calls + [k];
    assert all[..|all| - 1] == calls && all[|all| - 1] == k;
    PlusLaws(AllOwed(calls, i, j, u), NOTHING, NOTHING);
  }

  /** A call that moves on changes the sum by its own part. */
  lemma {:induction false} OwedMoves(calls: seq<Call>, c: nat, k: Call, i: nat, j: nat, u: Uuid)
    requires c < |calls|
    ensures Plus(AllOwed(calls[c := k], i, j, u), Owed(calls[c], i, j, u))
            == Plus(AllOwed(calls, i, j, u), Owed(k, i, j, u))
    decreases |calls|
  {
    var n := |calls| - 1;
    if c == n {
      assert calls[c := k][..n] == calls[..n];
    } else {
      OwedMoves(calls[..n], c, k, i, j, u);
      assert calls[c := k][..n] == calls[..n][c := k];
    }
  }

  ghost predicate EntriesOk(calls: seq<Call>) {
    forall c :: 0 <= c < |calls| ==> AtMost(NOTHING, EntryTotals(calls[c].entry))
  }

  lemma {:induction false} OwedNotNegative(calls: seq<Call>, i: nat, j: nat, u: Uuid)
    requires EntriesOk(calls)
    ensures AtMost(NOTHING, AllOwed(calls, i, j, u))
    decreases |calls|
  {
    if calls != [] {
      OwedNotNegative(calls[..|calls| - 1], i, j, u);
    }
  }

  // ---------------------------------------------------------------------------------------------
  // The invariant
  // ---------------------------------------------------------------------------------------------

  /** No window is named like a private room, and none is listed twice. */
  ghost predicate WindowsOk(own: seq<string>) {
    Distinct(own) && forall k, code :: 0 <= k < |own| ==> own[k] != PRIVATE + code
  }

  ghost predicate Balanced(b: Board, s: State, i: nat, j: nat, u: Uuid)
    requires i < j < |b.own|
  {
    Shown(b.prefix, s.store, b.own[i], u) == Plus(Shown(b.prefix, s.store, b.own[j], u), AllOwed(s.calls, i, j, u))
  }

  lemma OneUpdate(prefix: string, s: Store, x: Update, w: string, u: Uuid)
    ensures Shown(prefix, BumpAll(prefix, s, [x]), w, u)
            == Plus(Shown(prefix, s, w, u),
                    if x.window == w && x.entry.userId == u then EntryTotals(x.entry) else NOTHING)
  {
    assert [x][..0] == [] && BumpAll(prefix, s, []) == s;
    BumpAllShown(prefix, s, [x], w, u);
    AddOrNot(Shown(prefix, BumpAll(prefix, s, [x]), w, u), Shown(prefix, s, w, u),
             x.window == w && x.entry.userId == u, EntryTotals(x.entry));
  }

  lemma AddOrNot(after: Totals, before: Totals, hit: bool, x: Totals)
    requires after == if hit then Plus(before, x) else before
    ensures after == Plus(before, if hit then x else NOTHING)
  {
  }

  lemma PrivateShown(b: Board, s: Store, code: string, req: Request, ok: bool, w: string, u: Uuid)
    requires w != PRIVATE + code
    ensures Shown(b.prefix, BumpAll(b.prefix, s, PrivateUpdates(code, req, ok)), w, u) == Shown(b.prefix, s, w, u)
  {
    if req.eligible && ok {
      OneUpdate(b.prefix, s, Update(PRIVATE + code, EntryOf(req)), w, u);
      AddOrNot(Shown(b.prefix, s, w, u), Shown(b.prefix, s, w, u), false, NOTHING);
    }
  }

  /** What a call's next update adds to window i. */
  ghost function Added(k: Call, i: nat, u: Uuid): Totals {
    if k.next == i && k.entry.userId == u then EntryTotals(k.entry) else NOTHING
  }

  lemma ShownAdded(b: Board, s: Store, k: Call, i: nat, u: Uuid)
    requires Distinct(b.own) && i < |b.own| && k.next < |b.own|
    ensures Shown(b.prefix, BumpAll(b.prefix, s, [Update(b.own[k.next], k.entry)]), b.own[i], u)
            == Plus(Shown(b.prefix, s, b.own[i], u), Added(k, i, u))
  {
    OneUpdate(b.prefix, s, Update(b.own[k.next], k.entry), b.own[i], u);
    assert b.own[k.next] == b.own[i] <==> k.next == i;
  }

  lemma AddedIsOwed(k: Call, i: nat, j: nat, u: Uuid)
    requires i < j
    ensures Plus(Added(k, i, u), Owed(k, i, j, u)) == Plus(Added(k, j, u), Owed(k.(next := k.next + 1), i, j, u))
  {
  }

  lemma BalancedUpdate(b: Board, s: State, c: nat, i: nat, j: nat, u: Uuid)
    requires WindowsOk(b.own) && i < j < |b.own| && Enabled(b, s, UpdateNext(c, true)) && Balanced(b, s, i, j, u)
    ensures Balanced(b, Apply(b, s, UpdateNext(c, true)), i, j, u)
  {
    var k := s.calls[c];
    var k' := k.(next := k.next + 1);
    ShownAdded(b, s.store, k, i, u);
    ShownAdded(b, s.store, k, j, u);
    OwedMoves(s.calls, c, k', i, j, u);
    AddedIsOwed(k, i, j, u);
    Carry(Shown(b.prefix, s.store, b.own[i], u), Shown(b.prefix, s.store, b.own[j], u), AllOwed(s.calls, i, j, u),
          AllOwed(s.calls[c := k'], i, j, u), Owed(k, i, j, u), Owed(k', i, j, u), Added(k, i, u), Added(k, j, u));
  }

  lemma Carry(a: Totals, b: Totals, sum: Totals, sum': Totals, owed: Totals, owed': Totals, da: Totals, db: Totals)
    requires a == Plus(b, sum) && Plus(sum', owed) == Plus(sum, owed') && Plus(da, owed) == Plus(db, owed')
    ensures Plus(a, da) == Plus(Plus(b, db), sum')
  {
  }

  lemma BalancedStep(b: Board, s: State, step: Step, i: nat, j: nat, u: Uuid)
    requires WindowsOk(b.own) && i < j < |b.own| && Enabled(b, s, step) && Balanced(b, s, i, j, u)
    ensures Balanced(b, Apply(b, s, step), i, j, u)
  {
    match step
    case Begin(req) =>
      OwedBegin(s.calls, Call(EntryOf(req), 0, false), i, j, u);
    case UpdateNext(c, ok) =>
      if ok {
        BalancedUpdate(b, s, c, i, j, u);
      } else {
        OwedMoves(s.calls, c, s.calls[c].(failed := true), i, j, u);
      }
    case PrivateRoom(code, req, ok) =>
      assert b.own[i] != PRIVATE + code && b.own[j] != PRIVATE + code;
      PrivateShown(b, s.store, code, req, ok, b.own[i], u);
      PrivateShown(b, s.store, code, req, ok, b.own[j], u);
  }

  lemma StartBalanced(b: Board, i: nat, j: nat, u: Uuid)
    requires i < j < |b.own|
    ensures Balanced(b, State(EMPTY, []), i, j, u)
  {
  }

  lemma {:induction false} EntriesAlwaysOk(b: Board, tr: seq<State>, steps: seq<Step>)
    requires Run(b, tr, steps)
    ensures EntriesOk(tr[|steps|].calls)
    decreases |steps|
  {
    if steps != [] {
      var n := |steps| - 1;
      EntriesAlwaysOk(b, tr[..n + 1], steps[..n]);
    }
  }

  lemma {:induction false} BalancedHolds(b: Board, tr: seq<State>, steps: seq<Step>, i: nat, j: nat, u: Uuid)
    requires WindowsOk(b.own) && i < j < |b.own| && Run(b, tr, steps)
    ensures Balanced(b, tr[|steps|], i, j, u)
    decreases |steps|
  {
    if steps == [] {
      StartBalanced(b, i, j, u);
    } else {
      var n := |steps| - 1;
      BalancedHolds(b, tr[..n + 1], steps[..n], i, j, u);
      BalancedStep(b, tr[n], steps[n], i, j, u);
    }
  }

  /** Whatever calls interleave and wherever they fail, a window shows exactly what a later one shows
      and, on top, the results of the calls that are between the two or failed there. */
  lemma WindowsDifferByOwed(b: Board, tr: seq<State>, steps: seq<Step>, i: nat, j: nat, u: Uuid)
    requires WindowsOk(b.own) && i < j < |b.own| && Run(b, tr, steps)
    ensures var s := tr[|steps|];
            Shown(b.prefix, s.store, b.own[i], u)
            == Plus(Shown(b.prefix, s.store, b.own[j], u), AllOwed(s.calls, i, j, u))
  {
    BalancedHolds(b, tr, steps, i, j, u);
  }

  /** So a window never exceeds one listed before it, in any state of any interleaving. */
  lemma LaterWindowsLagBehind(b: Board, tr: seq<State>, steps: seq<Step>, i: nat, j: nat, u: Uuid)
    requires WindowsOk(b.own) && i < j < |b.own| && Run(b, tr, steps)
    ensures var s := tr[|steps|].store; AtMost(Shown(b.prefix, s, b.own[j], u), Shown(b.prefix, s, b.own[i], u))
  {
    BalancedHolds(b, tr, steps, i, j, u);
    EntriesAlwaysOk(b, tr, steps);
    OwedNotNegative(tr[|steps|].calls, i, j, u);
  }

  lemma DefaultWindowsOk()
    ensures WindowsOk(DEFAULT_WINDOWS)
  {
    forall k: nat, code | k < |DEFAULT_WINDOWS| ensures DEFAULT_WINDOWS[k] != PRIVATE + code {
      DefaultWindowsNotPrivate(k, code);
    }
    assert DEFAULT_WINDOWS[0][0] == 'd' && DEFAULT_WINDOWS[1][0] == 'w' && DEFAULT_WINDOWS[2][0] == 'm'
           && DEFAULT_WINDOWS[3][0] == 'a';
  }

  /** For the default windows no condition on names is left: daily is never behind weekly, weekly never
      behind monthly, monthly never behind all-time. */
  lemma DefaultWindowsLagBehind(prefix: string, tr: seq<State>, steps: seq<Step>, i: nat, j: nat, u: Uuid)
    requires i < j < |DEFAULT_WINDOWS| && Run(Board(prefix, DEFAULT_WINDOWS), tr, steps)
    ensures var s := tr[|steps|].store;
            AtMost(Shown(prefix, s, DEFAULT_WINDOWS[j], u), Shown(prefix, s, DEFAULT_WINDOWS[i], u))
  {
    DefaultWindowsOk();
    LaterWindowsLagBehind(Board(prefix, DEFAULT_WINDOWS), tr, steps, i, j, u);
  }

  // ---------------------------------------------------------------------------------------------
  // Calls one after the other
  // ---------------------------------------------------------------------------------------------

  lemma OneMoreStep(b: Board, tr: seq<State>, steps: seq<Step>, step: Step) returns (tr': seq<State>, steps': seq<Step>)
    requires Run(b, tr, steps) && Enabled(b, tr[|steps|], step)
    ensures Run(b, tr', steps') && tr'[|steps'|] == Apply(b, tr[|steps|], step)
  {
    tr', steps' := tr + [Apply(b, tr[|steps|], step)], steps + [step];
  }

  /** The first m windows of one call, updated without anything in between. */
  lemma {:induction false} FirstWindows(b: Board, tr: seq<State>, steps: seq<Step>, req: Request, m: nat)
    returns (tr': seq<State>, steps': seq<Step>)
    requires Run(b, tr, steps) && req.eligible && Plain(req) && m <= |b.own|
    ensures Run(b, tr', steps')
    ensures var s := tr'[|steps'|];
            && s.calls == tr[|steps|].calls + [Call(EntryOf(req), m, false)]
            && s.store == BumpAll(b.prefix, tr[|steps|].store, ResultUpdates(b.own, req, m))
    decreases m
  {
    var s := tr[|steps|];
    if m == 0 {
      tr', steps' := OneMoreStep(b, tr, steps, Begin(req));
    } else {
      tr', steps' := FirstWindows(b, tr, steps, req, m - 1);
      tr', steps' := OneMoreStep(b, tr', steps', UpdateNext(|s.calls|, true));
      UpdatesStep(b.own, req, m);
      var us, next := ResultUpdates(b.own, req, m - 1), [Update(b.own[m - 1], EntryOf(req))];
      assert ResultUpdates(b.own, req, m) == us + next;
      BumpAllAppend(b.prefix, s.store, us, next);
    }
  }

  /** Calls one after the other are one of the interleavings: they leave the same store. */
  lemma {:induction false} OneByOne(b: Board, run: seq<Event>) returns (tr: seq<State>, steps: seq<Step>)
    requires forall k :: 0 <= k < |run| && run[k].Result? ==> Plain(run[k].req)
    ensures Run(b, tr, steps) && tr[|steps|].store == StoreAfter(b.prefix, b.own, run)
    decreases |run|
  {
    if run == [] {
      tr, steps := [State(EMPTY, [])], [];
    } else {
      var n := |run| - 1;
      tr, steps := OneByOne(b, run[..n]);
      assert run == run[..n] + [run[n]];
      StoreStep(b.prefix, b.own, run[..n], run[n]);
      match run[n]
      case Result(req, failAt) =>
        if req.eligible {
          tr, steps := FirstWindows(b, tr, steps, req, Min(failAt, |b.own|));
        }
      case PrivateResult(code, req, ok) =>
        tr, steps := OneMoreStep(b, tr, steps, PrivateRoom(code, req, ok));
    }
  }

  /** So calls one after the other, each failing where it may, keep the order of the windows too. */
  lemma LaterWindowsLag(b: Board, run: seq<Event>, i: nat, j: nat, u: Uuid)
    requires WindowsOk(b.own) && i < j < |b.own|
    requires forall k :: 0 <= k < |run| && run[k].Result? ==> Plain(run[k].req)
    ensures var s := StoreAfter(b.prefix, b.own, run);
            AtMost(Shown(b.prefix, s, b.own[j], u), Shown(b.prefix, s, b.own[i], u))
  {
    var tr, steps := OneByOne(b, run);
    LaterWindowsLagBehind(b, tr, steps, i, j, u);
  }
}
