/** What SubmitAnswer and FinalizeMatch do to one player's record (internal/match/service.go), and
    what follows for the answer list, over all inputs and all runs. */
module MatchRecords {
  import opened Common
  import opened Scoring

  datatype PackItem = PackItem(order: int, id: string, token: string, correctAnswer: string)

  datatype Status = Queued | Active | Completed | LeftEarly | TimedOut

  datatype PlayerState = PlayerState(
    userId: Id,
    isGuest: bool,
    username: string,
    leftAt: Option<int>,
    status: Status,
    finalScore: Option<int>,
    accuracy: Option<real>,
    streakBonusPct: Option<real>,
    answers: seq<Answer>)

  const SECOND: int := 1_000_000_000
  const DEFAULT_TIMEOUT: int := 15 * SECOND

  /** Packs number their questions 1, 2, 3, ... */
  ghost predicate Numbered(qs: seq<PackItem>) {
    forall i :: 0 <= i < |qs| ==> qs[i].order == i + 1
  }

  ghost function Orders(a: seq<Answer>): set<int> {
    set i | 0 <= i < |a| :: a[i].order
  }

  /** Each answered question is in the pack, and none is answered twice. */
  ghost predicate OrdersOk(a: seq<Answer>, n: nat) {
    && (forall i, j :: 0 <= i < j < |a| ==> a[i].order != a[j].order)
    && (forall i :: 0 <= i < |a| ==> 1 <= a[i].order <= n)
  }

  /** Every question of an n-question pack has exactly one answer. */
  ghost predicate Closed(a: seq<Answer>, n: nat) {
    && OrdersOk(a, n)
    && (forall k :: 1 <= k <= n ==> k in Orders(a))
  }

  // ---------------------------------------------------------------------------------------------
  // Submission
  // ---------------------------------------------------------------------------------------------

  /** The first question carrying the token. */
  function FindByToken(qs: seq<PackItem>, token: string): (r: Option<PackItem>)
    ensures r.None? <==> forall i :: 0 <= i < |qs| ==> qs[i].token != token
    ensures r.Some? ==> exists i :: 0 <= i < |qs| && qs[i] == r.value && qs[i].token == token
                                    && forall j :: 0 <= j < i ==> qs[j].token != token
  {
    if qs == [] then None
    else if qs[0].token == token then Some(qs[0])
    else
      var r := FindByToken(qs[1..], token);
      assert r.Some? ==> exists i :: 0 <= i < |qs| && qs[i] == r.value && qs[i].token == token
                                     && forall j :: 0 <= j < i ==> qs[j].token != token by {
        if r.Some? {
          var i :| 0 <= i < |qs[1..]| && qs[1..][i] == r.value && qs[1..][i].token == token
                   && forall j :: 0 <= j < i ==> qs[1..][j].token != token;
          assert qs[i + 1] == r.value;
          assert forall j :: 1 <= j < i + 1 ==> qs[j] == qs[1..][j - 1];
        }
      }
      assert forall i :: 1 <= i < |qs| ==> qs[i] == qs[1..][i - 1];
      r
  }

  datatype Submission = Submission(token: string, answer: string, submittedAt: int)

  datatype SubmitResult = Accepted(state: PlayerState) | Rejected(reason: string)

  function AnswerFor(c: Config, q: PackItem, s: Submission, before: seq<Answer>, now: int, timeout: int): Answer {
    var isCorrect := s.answer == q.correctAnswer;
    Answer(q.order, s.token, s.answer, s.submittedAt, isCorrect,
           Score(c, isCorrect, Remaining(timeout, now, s.submittedAt), timeout, TrailingRun(before)))
  }

  function Submit(c: Config, st: PlayerState, qs: seq<PackItem>, s: Submission, now: int, timeout: int): SubmitResult {
    if qs == [] then Rejected("questions not found")
    else
      var q := FindByToken(qs, s.token);
      if q.None? then Rejected("invalid question token")
      else if exists i :: 0 <= i < |st.answers| && st.answers[i].order == q.value.order
      then Rejected("question already answered")
      else Accepted(st.(answers := st.answers + [AnswerFor(c, q.value, s, st.answers, now, timeout)]))
  }

  /** A submission is accepted exactly when its token names a question, the first one with that token, whose
      order is not answered yet. It then appends one answer of that order, scored with the streak before it;
      distinct orders from the pack stay so. */
  lemma SubmitKeepsOrders(c: Config, st: PlayerState, qs: seq<PackItem>, s: Submission, now: int, timeout: int)
    requires Numbered(qs) && OrdersOk(st.answers, |qs|)
    ensures var r := Submit(c, st, qs, s, now, timeout);
            && (r.Accepted? <==> exists i :: IsTarget(qs, s.token, i) && qs[i].order !in Orders(st.answers))
            && (r.Accepted? ==>
                  && OrdersOk(r.state.answers, |qs|) && |r.state.answers| == |st.answers| + 1
                  && st.answers <= r.state.answers && r.state == st.(answers := r.state.answers)
                  && var x := r.state.answers[|st.answers|];
                     && x.token == s.token && x.answer == s.answer && x.submittedAt == s.submittedAt
                     && exists i :: IsTarget(qs, s.token, i) && x.order == qs[i].order
                                 && (x.isCorrect <==> s.answer == qs[i].correctAnswer)
                                 && x.scoreEarned == Score(c, x.isCorrect, Remaining(timeout, now, s.submittedAt),
                                                           timeout, TrailingRun(st.answers)))
  {
    var q := FindByToken(qs, s.token);
    if q.Some? {
      var i :|
        && 0 <= i < |qs| && qs[i] == q.value && qs[i].token == s.token
        && forall j :: 0 <= j < i ==> qs[j].token != s.token;
      assert IsTarget(qs, s.token, i);
    }
  }

  /** What a refused submission is told: no pack, no such question, or a question that has its answer. */
  lemma SubmitRefuses(c: Config, st: PlayerState, qs: seq<PackItem>, s: Submission, now: int, timeout: int)
    ensures var r := Submit(c, st, qs, s, now, timeout);
            && (qs == [] ==> r == Rejected("questions not found"))
            && (qs != [] && (forall i :: 0 <= i < |qs| ==> qs[i].token != s.token) ==>
                  r == Rejected("invalid question token"))
            && forall i :: IsTarget(qs, s.token, i) && qs[i].order in Orders(st.answers) ==>
                 r == Rejected("question already answered")
  {
    forall i | IsTarget(qs, s.token, i) && qs[i].order in Orders(st.answers)
      ensures Submit(c, st, qs, s, now, timeout) == Rejected("question already answered")
    {
      assert FindByToken(qs, s.token).Some?;
      var k :| 0 <= k < |st.answers| && st.answers[k].order == qs[i].order;
    }
  }

  /** The first question with the token. */
  ghost predicate IsTarget(qs: seq<PackItem>, token: string, i: int) {
    0 <= i < |qs| && qs[i].token == token && forall j :: 0 <= j < i ==> qs[j].token != token
  }

  // ---------------------------------------------------------------------------------------------
  // Finalization
  // ---------------------------------------------------------------------------------------------

  /** A wrong, empty answer for every question whose order is not among the answered ones. */
  function Padding(answered: set<int>, qs: seq<PackItem>, now: int): seq<Answer> {
    if qs == [] then []
    else (if qs[0].order in answered then [] else [Answer(qs[0].order, qs[0].token, "", now, false, 0)])
         + Padding(answered, qs[1..], now)
  }

  ghost function Padded(a: seq<Answer>, qs: seq<PackItem>, now: int): seq<Answer> {
    a + Padding(Orders(a), qs, now)
  }

  ghost function Finalize(c: Config, st: PlayerState, qs: seq<PackItem>, now: int, timeout: int): PlayerState {
    var a := Padded(st.answers, qs, now);
    var f := Final(c, a, now, timeout);
    st.(answers := a, finalScore := Some(f.total), accuracy := Some(f.accuracy),
        streakBonusPct := Some(f.streakPct),
        status := if st.leftAt.Some? then LeftEarly else Completed)
  }

  lemma {:induction false} PaddingIsWrong(answered: set<int>, qs: seq<PackItem>, now: int)
    ensures AllWrong(Padding(answered, qs, now))
  {
    if qs != [] {
      PaddingIsWrong(answered, qs[1..], now);
    }
  }

  /** The answers are in strictly rising order, within the bounds, and only to unanswered questions. */
  ghost predicate Rising(p: seq<Answer>, answered: set<int>, lo: int, hi: int) {
    && (forall i, j :: 0 <= i < j < |p| ==> p[i].order < p[j].order)
    && (forall i :: 0 <= i < |p| ==> lo <= p[i].order < hi && p[i].order !in answered)
  }

  ghost predicate Covers(p: seq<Answer>, answered: set<int>, lo: int, hi: int) {
    forall k :: lo <= k < hi && k !in answered ==> k in Orders(p)
  }

  lemma RisingPrepend(x: Answer, p: seq<Answer>, answered: set<int>, hi: int)
    requires Rising(p, answered, x.order + 1, hi) && x.order < hi && x.order !in answered
    ensures Rising([x] + p, answered, x.order, hi)
  {
    var all := [x] + p;
    assert forall i :: 1 <= i < |all| ==> all[i] == p[i - 1];
  }

  lemma CoversPrepend(x: Answer, p: seq<Answer>, answered: set<int>, hi: int)
    requires Covers(p, answered, x.order + 1, hi)
    ensures Covers([x] + p, answered, x.order, hi)
  {
    var all := [x] + p;
    forall k | x.order <= k < hi && k !in answered ensures k in Orders(all) {
      if k == x.order {
        assert all[0].order == k;
      } else {
        var i :| 0 <= i < |p| && p[i].order == k;
        assert all[i + 1].order == k;
      }
    }
  }

  lemma NothingMissing(p: seq<Answer>, answered: set<int>, lo: int, hi: int)
    requires Rising(p, answered, lo + 1, hi) && Covers(p, answered, lo + 1, hi) && lo in answered
    ensures Rising(p, answered, lo, hi) && Covers(p, answered, lo, hi)
  {
  }

  lemma PaddingStep(answered: set<int>, qs: seq<PackItem>, now: int)
    requires qs != []
    ensures var rest := Padding(answered, qs[1..], now);
            Padding(answered, qs, now) == if qs[0].order in answered then rest
                                          else [Answer(qs[0].order, qs[0].token, "", now, false, 0)] + rest
  {
    assert [] + Padding(answered, qs[1..], now) == Padding(answered, qs[1..], now);
  }

  lemma NumberedTail(qs: seq<PackItem>, lo: int)
    requires qs != [] && forall i :: 0 <= i < |qs| ==> qs[i].order == lo + i
    ensures forall i :: 0 <= i < |qs[1..]| ==> qs[1..][i].order == lo + 1 + i
  {
    assert forall i :: 0 <= i < |qs| - 1 ==> qs[1..][i] == qs[i + 1];
  }

  /** The padding holds exactly the missing orders of the questions numbered lo .. lo+|qs|-1, once each. */
  lemma {:induction false} PaddingOrders(answered: set<int>, qs: seq<PackItem>, lo: int, now: int)
    requires forall i :: 0 <= i < |qs| ==> qs[i].order == lo + i
    ensures var p := Padding(answered, qs, now);
            Rising(p, answered, lo, lo + |qs|) && Covers(p, answered, lo, lo + |qs|)
    decreases |qs|
  {
    if qs != [] {
      NumberedTail(qs, lo);
      PaddingOrders(answered, qs[1..], lo + 1, now);
      if qs[0].order in answered {
        PaddingWithoutFirst(answered, qs, lo, now);
      } else {
        PaddingWithFirst(answered, qs, lo, now);
      }
    }
  }

  lemma PaddingWithoutFirst(answered: set<int>, qs: seq<PackItem>, lo: int, now: int)
    requires qs != [] && qs[0].order == lo && lo in answered
    requires var rest := Padding(answered, qs[1..], now);
             Rising(rest, answered, lo + 1, lo + |qs|) && Covers(rest, answered, lo + 1, lo + |qs|)
    ensures var p := Padding(answered, qs, now);
            Rising(p, answered, lo, lo + |qs|) && Covers(p, answered, lo, lo + |qs|)
  {
    PaddingStep(answered, qs, now);
    NothingMissing(Padding(answered, qs[1..], now), answered, lo, lo + |qs|);
  }

  lemma PaddingWithFirst(answered: set<int>, qs: seq<PackItem>, lo: int, now: int)
    requires qs != [] && qs[0].order == lo && lo !in answered
    requires var rest := Padding(answered, qs[1..], now);
             Rising(rest, answered, lo + 1, lo + |qs|) && Covers(rest, answered, lo + 1, lo + |qs|)
    ensures var p := Padding(answered, qs, now);
            Rising(p, answered, lo, lo + |qs|) && Covers(p, answered, lo, lo + |qs|)
  {
    PaddingStep(answered, qs, now);
    var x, rest := Answer(lo, qs[0].token, "", now, false, 0), Padding(answered, qs[1..], now);
    RisingPrepend(x, rest, answered, lo + |qs|);
    CoversPrepend(x, rest, answered, lo + |qs|);
  }

  /** The answer that finalization gives in a player's place. */
  ghost predicate IsMissed(x: Answer, qs: seq<PackItem>, lo: int, now: int) {
    && lo <= x.order < lo + |qs| && x.token == qs[x.order - lo].token
    && x.answer == "" && x.submittedAt == now && !x.isCorrect && x.scoreEarned == 0
  }

  lemma {:induction false} PaddingIsMissed(answered: set<int>, qs: seq<PackItem>, lo: int, now: int)
    requires forall i :: 0 <= i < |qs| ==> qs[i].order == lo + i
    ensures forall x :: x in Padding(answered, qs, now) ==> IsMissed(x, qs, lo, now)
    decreases |qs|
  {
    if qs != [] {
      NumberedTail(qs, lo);
      PaddingIsMissed(answered, qs[1..], lo + 1, now);
      PaddingStep(answered, qs, now);
      forall x | x in Padding(answered, qs[1..], now) ensures IsMissed(x, qs, lo, now) {
        assert IsMissed(x, qs[1..], lo + 1, now) && qs[1..][x.order - lo - 1] == qs[x.order - lo];
      }
    }
  }

  /** A finalized player is Completed, unless the player had left: then LeftEarly. Nothing else about the player
      changes, and every answer added is an empty, wrong one to a question of the pack. */
  lemma FinalizeFields(c: Config, st: PlayerState, qs: seq<PackItem>, now: int, timeout: int)
    requires Numbered(qs)
    ensures var f := Finalize(c, st, qs, now, timeout);
            && (f.status == Completed <==> st.leftAt.None?) && (f.status == LeftEarly <==> st.leftAt.Some?)
            && f.userId == st.userId && f.username == st.username && f.isGuest == st.isGuest && f.leftAt == st.leftAt
            && st.answers <= f.answers && forall x :: x in f.answers[|st.answers|..] ==> IsMissed(x, qs, 1, now)
  {
    var pad := Padding(Orders(st.answers), qs, now);
    PaddingIsMissed(Orders(st.answers), qs, 1, now);
    assert (st.answers + pad)[|st.answers|..] == pad;
  }

  lemma {:induction false} PaddingEmpty(answered: set<int>, qs: seq<PackItem>, now: int)
    requires forall i :: 0 <= i < |qs| ==> qs[i].order in answered
    ensures Padding(answered, qs, now) == []
  {
    if qs != [] {
      PaddingEmpty(answered, qs[1..], now);
    }
  }

  ghost function Range(n: nat): (r: set<int>)
    ensures |r| == n
    ensures forall k :: k in r <==> 1 <= k <= n
  {
    if n == 0 then {} else Range(n - 1) + {n}
  }

  /** A duplicate-free list of orders that covers 1..n has n of them. */
  lemma ClosedLength(a: seq<Answer>, n: nat)
    requires Closed(a, n)
    ensures |a| == n
  {
    var os := seq(|a|, i requires 0 <= i < |a| => a[i].order);
    DistinctCount(os);
    assert Elements(os) == Orders(a) by {
      forall k | k in Orders(a) ensures k in Elements(os) {
        var i :| 0 <= i < |a| && a[i].order == k;
        assert os[i] == k;
      }
    }
    assert Elements(os) == Range(n);
  }

  /** Appending answers with new orders keeps the orders distinct and adds theirs. */
  lemma AppendOrders(a: seq<Answer>, p: seq<Answer>, n: nat)
    requires OrdersOk(a, n) && OrdersOk(p, n)
    requires forall i :: 0 <= i < |p| ==> p[i].order !in Orders(a)
    ensures OrdersOk(a + p, n)
    ensures Orders(a) <= Orders(a + p) && Orders(p) <= Orders(a + p)
  {
    var ap := a + p;
    forall i | 0 <= i < |a| ensures ap[i] == a[i] && a[i].order in Orders(a) {
    }
    forall i | 0 <= i < |p| ensures ap[|a| + i] == p[i] {
    }
    forall i, j | 0 <= i < j < |ap| ensures ap[i].order != ap[j].order {
      if i < |a| <= j {
        assert ap[j] == p[j - |a|];
      }
    }
  }

  /** Finalization closes the match: every question has exactly one answer, and the earlier answers
      are kept in front, in order. */
  lemma FinalizeCloses(c: Config, st: PlayerState, qs: seq<PackItem>, now: int, timeout: int)
    requires Numbered(qs) && OrdersOk(st.answers, |qs|)
    ensures var a := Finalize(c, st, qs, now, timeout).answers;
            Closed(a, |qs|) && |a| == |qs| && st.answers <= a && CorrectCount(a) == CorrectCount(st.answers)
  {
    var p := Padding(Orders(st.answers), qs, now);
    PaddingOrders(Orders(st.answers), qs, 1, now);
    PaddingIsWrong(Orders(st.answers), qs, now);
    PaddingKeepsCounts(st.answers, p);
    AppendOrders(st.answers, p, |qs|);
    ClosedLength(st.answers + p, |qs|);
  }

  /** No status flag closes a match, but a closed answer list does: every later submission is refused. */
  lemma ClosedRejectsSubmissions(c: Config, st: PlayerState, qs: seq<PackItem>, s: Submission, now: int, timeout: int)
    requires Numbered(qs) && Closed(st.answers, |qs|)
    ensures Submit(c, st, qs, s, now, timeout).Rejected?
  {
    var q := FindByToken(qs, s.token);
    if q.Some? {
      var i :| 0 <= i < |qs| && qs[i] == q.value;
      assert q.value.order in Orders(st.answers);
    }
  }

  /** A second finalization leaves the answer list as it is. */
  lemma FinalizeTwice(c: Config, st: PlayerState, qs: seq<PackItem>, now: int, timeout: int)
    requires Numbered(qs) && Closed(st.answers, |qs|)
    ensures Finalize(c, st, qs, now, timeout).answers == st.answers
  {
    PaddingEmpty(Orders(st.answers), qs, now);
  }

  /** Padding moves neither the total nor the streak percentage, and makes the engine's accuracy the
      quotient that the leaderboard derives on its own from correct answers and question count. */
  lemma PaddingAgreesWithLeaderboard(c: Config, st: PlayerState, qs: seq<PackItem>, now: int, timeout: int)
    requires Numbered(qs) && OrdersOk(st.answers, |qs|)
    ensures var f := Finalize(c, st, qs, now, timeout);
            && f.finalScore == Some(Final(c, st.answers, now, timeout).total)
            && f.streakBonusPct == Some(Final(c, st.answers, now, timeout).streakPct)
            && f.accuracy == Some(if |qs| > 0 then CorrectCount(f.answers) as real / |qs| as real else 0.0)
            && CorrectCount(f.answers) == CorrectCount(st.answers)
  {
    FinalizeCloses(c, st, qs, now, timeout);
    PaddingIsWrong(Orders(st.answers), qs, now);
    PaddingKeepsFinal(c, st.answers, Padding(Orders(st.answers), qs, now), now, timeout);
  }

  // ---------------------------------------------------------------------------------------------
  // Tokens, and what a repeated question does to a match
  // ---------------------------------------------------------------------------------------------

  datatype Question = Question(id: string, answer: string)

  /** What a token signs. */
  function Payload(id: string, answer: string): string {
    id + ":" + answer
  }

  /** signQuestionToken: an uninterpreted code of the payload, or the bare id without a key. */
  function SignToken(key: Option<string -> string>, id: string, answer: string): string {
    match key
    case None => id
    case Some(hmac) => hmac(Payload(id, answer))
  }

  /** The code tells the payloads of these questions apart. */
  ghost predicate CollisionFree(hmac: string -> string, qs: seq<Question>) {
    forall i, j :: 0 <= i < j < |qs| && hmac(Payload(qs[i].id, qs[i].answer)) == hmac(Payload(qs[j].id, qs[j].answer))
      ==> Payload(qs[i].id, qs[i].answer) == Payload(qs[j].id, qs[j].answer)
  }

  function PackOf(key: Option<string -> string>, qs: seq<Question>): seq<PackItem> {
    seq(|qs|,
        i requires 0 <= i < |qs| => PackItem(i + 1, qs[i].id, SignToken(key, qs[i].id, qs[i].answer), qs[i].answer))
  }

  method BuildPackItems(key: Option<string -> string>, qs: seq<Question>) returns (items: seq<PackItem>)
    ensures items == PackOf(key, qs) && Numbered(items)
  {
    items := [];
    for i := 0 to |qs|
      invariant items == PackOf(key, qs)[..i]
    {
      items := items + [PackItem(i + 1, qs[i].id, SignToken(key, qs[i].id, qs[i].answer), qs[i].answer)];
    }
  }

  /** Ids without a colon can be read back from a payload. */
  lemma PayloadTellsId(i1: string, a1: string, i2: string, a2: string)
    requires ':' !in i1 && ':' !in i2 && Payload(i1, a1) == Payload(i2, a2)
    ensures i1 == i2
  {
    var p := Payload(i1, a1);
    assert p[|i1|] == ':' && p[|i2|] == ':';
    assert forall k :: 0 <= k < |i1| ==> p[k] == i1[k];
    assert forall k :: 0 <= k < |i2| ==> p[k] == i2[k];
    assert |i1| == |i2|;
  }

  /** With distinct ids the tokens of a pack are distinct: without a key always, and with a key if no id holds
      a colon, as no UUID does, and the code does not collide on the pack. */
  lemma TokensDistinct(key: Option<string -> string>, qs: seq<Question>)
    requires forall i, j :: 0 <= i < j < |qs| ==> qs[i].id != qs[j].id
    requires key.Some? ==> CollisionFree(key.value, qs) && forall i :: 0 <= i < |qs| ==> ':' !in qs[i].id
    ensures var p := PackOf(key, qs); forall i, j :: 0 <= i < j < |p| ==> p[i].token != p[j].token
  {
    if key.Some? {
      forall i, j | 0 <= i < j < |qs| ensures PackOf(key, qs)[i].token != PackOf(key, qs)[j].token {
        if Payload(qs[i].id, qs[i].answer) == Payload(qs[j].id, qs[j].answer) {
          PayloadTellsId(qs[i].id, qs[i].answer, qs[j].id, qs[j].answer);
        }
      }
    }
  }

  /** The condition on colons is needed: under every key these two questions share a token. */
  lemma ColonsShareToken(hmac: string -> string) returns (qs: seq<Question>)
    ensures |qs| == 2 && qs[0].id != qs[1].id
    ensures PackOf(Some(hmac), qs)[0].token == PackOf(Some(hmac), qs)[1].token
  {
    qs := [Question("a", "b:c"), Question("a:b", "c")];
    assert Payload("a", "b:c") == "a:b:c" == Payload("a:b", "c");
  }

  /** Question k can be answered, by some submission to an empty record, exactly when no earlier
      question carries its token. */
  lemma AnswerableIffFirst(c: Config, st: PlayerState, qs: seq<PackItem>, k: nat, now: int, timeout: int)
    requires Numbered(qs) && k < |qs| && st.answers == []
    ensures (exists s: Submission :: var r := Submit(c, st, qs, s, now, timeout);
                                     r.Accepted? && r.state.answers[0].order == k + 1)
            <==> forall j :: 0 <= j < k ==> qs[j].token != qs[k].token
  {
    if forall j :: 0 <= j < k ==> qs[j].token != qs[k].token {
      var s := Submission(qs[k].token, qs[k].correctAnswer, now);
      assert FindByToken(qs, s.token).Some?;
      var r := Submit(c, st, qs, s, now, timeout);
      assert r.Accepted? && r.state.answers[0].order == k + 1;
    }
  }

  // ---------------------------------------------------------------------------------------------
  // Runs of submissions on one record
  // ---------------------------------------------------------------------------------------------

  /** A submission together with the clock and the limit it was scored with. */
  datatype Timed = Timed(s: Submission, read: Reading)

  function SubmitAll(c: Config, st: PlayerState, qs: seq<PackItem>, run: seq<Timed>): PlayerState {
    if run == [] then st
    else
      var before := SubmitAll(c, st, qs, run[..|run| - 1]);
      var last := run[|run| - 1];
      match Submit(c, before, qs, last.s, last.read.now, last.read.timeout)
      case Accepted(st') => st'
      case Rejected(_) => before
  }

  lemma ScoredExtends(c: Config, a: seq<Answer>, readings: seq<Reading>, x: Answer, read: Reading)
    requires ScoredAtSubmission(c, a, readings) && EarnedAt(c, a, x, read)
    ensures ScoredAtSubmission(c, a + [x], readings + [read])
  {
    var b := a + [x];
    forall i | 0 <= i < |b| ensures b[..i] == a[..i] {
    }
    assert a[..|a|] == a;
  }

  /** Whatever is submitted to an empty record, in whatever order, the answers keep distinct orders
      drawn from the pack, and each carries the score of its own submission. */
  lemma {:induction false} RunKeepsRecord(c: Config, st: PlayerState, qs: seq<PackItem>, run: seq<Timed>)
    returns (readings: seq<Reading>)
    requires st.answers == [] && Numbered(qs)
    ensures var a := SubmitAll(c, st, qs, run).answers;
            && OrdersOk(a, |qs|)
            && ScoredAtSubmission(c, a, readings)
            && AmongReadings(readings, run)
  {
    if run == [] {
      readings := [];
    } else {
      var n := |run| - 1;
      readings := RunKeepsRecord(c, st, qs, run[..n]);
      SubmissionScored(c, SubmitAll(c, st, qs, run[..n]), qs, run[n], readings);
      AmongMore(readings, run);
      if Submit(c, SubmitAll(c, st, qs, run[..n]), qs, run[n].s, run[n].read.now, run[n].read.timeout).Accepted? {
        readings := readings + [run[n].read];
      }
    }
  }

  /** Each is the reading of one of the submissions. */
  ghost predicate AmongReadings(readings: seq<Reading>, run: seq<Timed>) {
    forall i :: 0 <= i < |readings| ==> exists k :: 0 <= k < |run| && readings[i] == run[k].read
  }

  lemma AmongMore(readings: seq<Reading>, run: seq<Timed>)
    requires run != [] && AmongReadings(readings, run[..|run| - 1])
    ensures AmongReadings(readings, run) && AmongReadings(readings + [run[|run| - 1].read], run)
  {
    var n := |run| - 1;
    forall i | 0 <= i < |readings| ensures exists k :: 0 <= k < |run| && readings[i] == run[k].read {
      var k :| 0 <= k < n && readings[i] == run[..n][k].read;
      assert readings[i] == run[k].read;
    }
    var more := readings + [run[n].read];
    assert more[|readings|] == run[n].read && forall i :: 0 <= i < |readings| ==> more[i] == readings[i];
  }

  lemma SubmissionScored(c: Config, before: PlayerState, qs: seq<PackItem>, x: Timed, readings: seq<Reading>)
    requires Numbered(qs) && OrdersOk(before.answers, |qs|) && ScoredAtSubmission(c, before.answers, readings)
    ensures var r := Submit(c, before, qs, x.s, x.read.now, x.read.timeout);
            r.Accepted? ==>
              OrdersOk(r.state.answers, |qs|) && ScoredAtSubmission(c, r.state.answers, readings + [x.read])
  {
    SubmitKeepsOrders(c, before, qs, x.s, x.read.now, x.read.timeout);
    var r := Submit(c, before, qs, x.s, x.read.now, x.read.timeout);
    if r.Accepted? {
      ScoredExtends(c, before.answers, readings, r.state.answers[|before.answers|], x.read);
    }
  }

  /** For every run of submissions, each with its own limit: the stored final total is the sum of the scores
      shown on submission plus one bonus per maximal run plus what the time bonuses have changed by. If
      finalization is not earlier and has no longer limit than any submission, that is no more than the sum
      without the change, and equals it exactly when every correct answer kept its time bonus. */
  lemma RunFinalTotal(c: Config, st: PlayerState, qs: seq<PackItem>, run: seq<Timed>, timeout: int, end: int)
    returns (readings: seq<Reading>)
    requires c.maxTimeBonus >= 0
    requires st.answers == [] && Numbered(qs)
    ensures var s := SubmitAll(c, st, qs, run);
            var shown := SumEarned(s.answers) + SumBonus(c, MaximalRuns(s.answers));
            var final := Finalize(c, s, qs, end, timeout).finalScore;
            && ScoredAtSubmission(c, s.answers, readings) && final.Some?
            && final.value == shown + BaseAndTime(c, s.answers, seq(|s.answers|, i => Reading(end, timeout)))
                              - BaseAndTime(c, s.answers, readings)
            && ((forall k :: 0 <= k < |run| ==> run[k].read.now <= end && timeout <= run[k].read.timeout) ==>
                  && final.value <= shown
                  && (final.value == shown <==>
                      forall i :: 0 <= i < |s.answers| && s.answers[i].isCorrect ==>
                        BonusAt(c, s.answers[i], Reading(end, timeout)) == BonusAt(c, s.answers[i], readings[i])))
  {
    var s := SubmitAll(c, st, qs, run);
    readings := RunKeepsRecord(c, st, qs, run);
    FinalTotalTelescopes(c, s.answers, readings, end, timeout);
    if forall k :: 0 <= k < |run| ==> run[k].read.now <= end && timeout <= run[k].read.timeout {
      FinalTotalAgainstEarned(c, s.answers, readings, end, timeout);
    }
    PaddingAgreesWithLeaderboard(c, s, qs, end, timeout);
  }

  /** A question whose token already occurs earlier in the pack never gets a submitted answer, in any
      run, so finalization marks it wrong for everyone. */
  lemma {:induction false} RepeatedQuestionNeverAnswered(c: Config, st: PlayerState, qs: seq<PackItem>,
                                                         run: seq<Timed>, j: nat, k: nat)
    requires st.answers == [] && Numbered(qs)
    requires j < k < |qs| && qs[j].token == qs[k].token
    ensures k + 1 !in Orders(SubmitAll(c, st, qs, run).answers)
  {
    if run != [] {
      var n := |run| - 1;
      RepeatedQuestionNeverAnswered(c, st, qs, run[..n], j, k);
      StaysUnanswered(c, SubmitAll(c, st, qs, run[..n]), qs, run[n], j, k);
    }
  }

  lemma StaysUnanswered(c: Config, before: PlayerState, qs: seq<PackItem>, x: Timed, j: nat, k: nat)
    requires Numbered(qs) && j < k < |qs| && qs[j].token == qs[k].token && k + 1 !in Orders(before.answers)
    ensures var r := Submit(c, before, qs, x.s, x.read.now, x.read.timeout);
            r.Accepted? ==> k + 1 !in Orders(r.state.answers)
  {
    var q := FindByToken(qs, x.s.token);
    if q.Some? && q.value.order != k + 1 {
      OrdersSnoc(before.answers, AnswerFor(c, q.value, x.s, before.answers, x.read.now, x.read.timeout));
    }
  }

  lemma OrdersSnoc(a: seq<Answer>, x: Answer)
    ensures Orders(a + [x]) == Orders(a) + {x.order}
  {
    var b := a + [x];
    forall k | k in Orders(a) + {x.order} ensures k in Orders(b) {
      if k in Orders(a) {
        var i :| 0 <= i < |a| && a[i].order == k;
        assert b[i].order == k;
      } else {
        assert b[|a|].order == k;
      }
    }
  }
}
