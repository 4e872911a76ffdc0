/** What a match promises from end to end: from the questions and players that creation is given
    (internal/match/service.go:166-230) to the marks, the statuses, the payload and the leaderboards. */
module MatchLaws {
  import opened Common
  import opened Scoring
  import opened MatchRecords
  import opened MatchService
  import Leaderboard
  import MatchProtocol

  // ---------------------------------------------------------------------------------------------
  // From creation to a marked answer
  // ---------------------------------------------------------------------------------------------

  /** Every question of the created pack can be told by its token. */
  ghost predicate TokensTell(key: Option<string -> string>, questions: seq<Question>) {
    && (forall i, j :: 0 <= i < j < |questions| ==> questions[i].id != questions[j].id)
    && (key.Some? ==> CollisionFree(key.value, questions) && forall q :: q in questions ==> ':' !in q.id)
  }

  /** The pack lists the questions in order; a token is the id, or the code of id and answer under the key. */
  lemma PackShows(key: Option<string -> string>, questions: seq<Question>, k: nat)
    requires k < |questions|
    ensures var pack, q := PackOf(key, questions), questions[k];
            && |pack| == |questions| && pack[k].order == k + 1 && pack[k].id == q.id
            && pack[k].token == match key case None => q.id case Some(hmac) => hmac(q.id + ":" + q.answer)
  {
  }

  lemma OnlyTarget(key: Option<string -> string>, questions: seq<Question>, k: nat)
    requires k < |questions| && TokensTell(key, questions)
    ensures var pack := PackOf(key, questions); forall i :: IsTarget(pack, pack[k].token, i) <==> i == k
  {
    TokensDistinct(key, questions);
  }

  /** Whoever has not answered question k can answer it by its token, and the answer is marked correct exactly
      when it is the text that creation was given for that question. */
  lemma MarkedByTheQuestions(c: Config, st: PlayerState, key: Option<string -> string>, questions: seq<Question>,
                             k: nat, text: string, at: int, now: int, timeout: int)
    requires k < |questions| && TokensTell(key, questions)
    requires OrdersOk(st.answers, |questions|) && k + 1 !in Orders(st.answers)
    ensures var pack := PackOf(key, questions);
            var r := Submit(c, st, pack, Submission(pack[k].token, text, at), now, timeout);
            && r.Accepted? && r.state == st.(answers := r.state.answers)
            && |r.state.answers| == |st.answers| + 1 && st.answers <= r.state.answers
            && var x := r.state.answers[|st.answers|];
               && x.order == k + 1 && x.answer == text && x.submittedAt == at
               && (x.isCorrect <==> text == questions[k].answer)
               && x.scoreEarned == Score(c, x.isCorrect, Remaining(timeout, now, at), timeout, TrailingRun(st.answers))
  {
    var pack := PackOf(key, questions);
    OnlyTarget(key, questions, k);
    SubmitKeepsOrders(c, st, pack, Submission(pack[k].token, text, at), now, timeout);
  }

  /** Creation leaves `done`; then a listed player answers question k for the first time. The answer is stored,
      marked by the question, and under the default constants worth 100 and its share of 50 for the time left of
      the configured limit, or of 15 seconds when the summary cannot be read. */
  lemma CreatedMatchMarks(svc: Service, was: map<Key, PlayerState>, matchId: Id, key: Option<string -> string>,
                          questions: seq<Question>, players: seq<Player>, refuses: set<Id>,
                          done: map<Key, PlayerState>, i: nat, k: nat, text: string, at: int, world: World,
                          r: Result<()>, after: map<Key, PlayerState>)
    requires BlankedStore(was, matchId, players, refuses, done)
    requires i < |players| && players[i].userId !in refuses
    requires forall a, b :: 0 <= a < b < |players| ==> players[a].userId != players[b].userId
    requires k < |questions| && TokensTell(key, questions)
    requires var u := players[i].userId; world.questionsReadable && u !in world.unreadable && u !in world.refuses
    requires var pack := PackOf(key, questions);
             svc.SubmitOutcome(done, pack, Key(matchId, players[i].userId), Submission(pack[k].token, text, at), world,
                               r, after)
    ensures var id := Key(matchId, players[i].userId);
            && r == Ok(()) && id in after && after == done[id := after[id]]
            && after[id].userId == players[i].userId && after[id].username == players[i].username
            && after[id].isGuest == players[i].isGuest && after[id].leftAt.None? && |after[id].answers| == 1
            && var x := after[id].answers[0];
               && x.order == k + 1 && (x.isCorrect <==> text == questions[k].answer)
               && (svc.engine.config == Config(100, 50, 0.05, 0.50) ==>
                     var limit := if world.config.Some? then world.config.value.perQuestionSeconds * 1_000_000_000
                                  else 15_000_000_000;
                     0 <= world.now - at <= limit && limit > 0 ==>
                       x.scoreEarned == if text != questions[k].answer then 0
                                        else 100 + 50 * (limit - (world.now - at)) / limit)
  {
    BlankRecord(was, matchId, players, refuses, done, i);
    FirstAnswerMarked(svc, done, Key(matchId, players[i].userId), key, questions, k, text, at, world, r, after);
  }

  /** The worth of an answer under the default constants without a streak. */
  function DefaultValue(correct: bool, elapsed: int, limit: int): int
    requires limit > 0
  {
    if correct then 100 + 50 * (limit - elapsed) / limit else 0
  }

  /** The same for any record without answers. */
  lemma FirstAnswerMarked(svc: Service, done: map<Key, PlayerState>, id: Key, key: Option<string -> string>,
                          questions: seq<Question>, k: nat, text: string, at: int, world: World, r: Result<()>,
                          after: map<Key, PlayerState>)
    requires id in done && done[id].answers == [] && k < |questions| && TokensTell(key, questions)
    requires world.questionsReadable && id.userId !in world.unreadable && id.userId !in world.refuses
    requires var pack := PackOf(key, questions);
             svc.SubmitOutcome(done, pack, id, Submission(pack[k].token, text, at), world, r, after)
    ensures r == Ok(()) && id in after && after == done[id := after[id]]
    ensures after[id] == done[id].(answers := after[id].answers) && |after[id].answers| == 1
    ensures var x, limit := after[id].answers[0], Timeout(world.config);
            && x.order == k + 1 && (x.isCorrect <==> text == questions[k].answer)
            && (svc.engine.config == DEFAULT_CONFIG && 0 <= world.now - at <= limit && limit > 0 ==>
                  x.scoreEarned == DefaultValue(text == questions[k].answer, world.now - at, limit))
  {
    var pack, limit := PackOf(key, questions), Timeout(world.config);
    MarkedByTheQuestions(svc.engine.config, done[id], key, questions, k, text, at, world.now, limit);
    AcceptedIsStored(svc, done, pack, id, Submission(pack[k].token, text, at), world, r, after);
    assert TrailingRun([]) == 0;
    DefaultWorth(text == questions[k].answer, world.now, at, limit);
  }

  lemma AcceptedIsStored(svc: Service, was: map<Key, PlayerState>, pack: seq<PackItem>, id: Key, sub: Submission,
                         world: World, r: Result<()>, after: map<Key, PlayerState>)
    requires svc.SubmitOutcome(was, pack, id, sub, world, r, after) && id in was && world.questionsReadable
    requires id.userId !in world.unreadable && id.userId !in world.refuses
    requires Submit(svc.engine.config, was[id], pack, sub, world.now, Timeout(world.config)).Accepted?
    ensures r == Ok(())
    ensures after == was[id := Submit(svc.engine.config, was[id], pack, sub, world.now, Timeout(world.config)).state]
  {
  }

  /** A first answer under the default constants. */
  lemma DefaultWorth(correct: bool, now: int, at: int, limit: int)
    ensures 0 <= now - at <= limit && limit > 0 ==>
              Score(DEFAULT_CONFIG, correct, Remaining(limit, now, at), limit, 0)
              == if correct then 100 + 50 * (limit - (now - at)) / limit else 0
  {
    if 0 <= now - at <= limit && limit > 0 {
      DefaultScoreIs(Remaining(limit, now, at), limit, 0);
    }
  }

  /** Creation leaves every listed player, whom Redis lets it write, queued, unanswered and without a score. */
  lemma CreatedPlayerIsNew(was: map<Key, PlayerState>, matchId: Id, players: seq<Player>, refuses: set<Id>,
                           done: map<Key, PlayerState>, i: nat)
    requires BlankedStore(was, matchId, players, refuses, done)
    requires i < |players| && players[i].userId !in refuses
    requires forall a, b :: 0 <= a < b < |players| ==> players[a].userId != players[b].userId
    ensures Key(matchId, players[i].userId) in done
    ensures var st := done[Key(matchId, players[i].userId)];
            && st.userId == players[i].userId && st.username == players[i].username && st.isGuest == players[i].isGuest
            && st.status.Queued? && st.leftAt.None? && st.answers == []
            && st.finalScore.None? && st.accuracy.None? && st.streakBonusPct.None?
  {
    BlankRecord(was, matchId, players, refuses, done, i);
  }

  lemma BlankRecord(was: map<Key, PlayerState>, matchId: Id, players: seq<Player>, refuses: set<Id>,
                    done: map<Key, PlayerState>, i: nat)
    requires BlankedStore(was, matchId, players, refuses, done)
    requires i < |players| && players[i].userId !in refuses
    requires forall a, b :: 0 <= a < b < |players| ==> players[a].userId != players[b].userId
    ensures Key(matchId, players[i].userId) in done
    ensures done[Key(matchId, players[i].userId)] == Blank(players[i])
  {
    var id := Key(matchId, players[i].userId);
    assert IsBlanked(id, matchId, players, refuses);
    var a :| 0 <= a < |players| && players[a].userId == id.userId && done[id] == Blank(players[a]);
    assert a == i;
  }

  // ---------------------------------------------------------------------------------------------
  // Statuses and totals after finalization
  // ---------------------------------------------------------------------------------------------

  ghost predicate Settled(st: PlayerState, final: PlayerState, total: int) {
    && (final.status == Completed <==> st.leftAt.None?) && (final.status == LeftEarly <==> st.leftAt.Some?)
    && final.userId == st.userId && final.username == st.username && final.isGuest == st.isGuest
    && final.finalScore == Some(total)
  }

  lemma FinalizeSettles(c: Config, st: PlayerState, qs: seq<PackItem>, now: int, timeout: int)
    ensures Settled(st, Finalize(c, st, qs, now, timeout), Final(c, st.answers, now, timeout).total)
  {
    var pad := Padding(Orders(st.answers), qs, now);
    PaddingIsWrong(Orders(st.answers), qs, now);
    PaddingKeepsFinal(c, st.answers, pad, now, timeout);
  }

  /** A finalization that gets through settles every record of the match it can read and write: Completed for
      those who stayed, LeftEarly for those who left, with the total of their answers. All else stays. */
  lemma FinalizationSettles(svc: Service, was: map<Key, PlayerState>, matchId: Id, qs: seq<PackItem>, world: World,
                            r: Result<seq<MatchResult>>, states: seq<PlayerState>, reqs: seq<Leaderboard.Request>,
                            done: map<Key, PlayerState>, k: Key)
    requires svc.FinalizeOutcome(was, matchId, qs, world, r, states, reqs, done)
    requires world.keysAnswered && world.questionsReadable && k in was
    ensures k in done
    ensures if k.matchId == matchId && k.userId !in world.unreadable && k.userId !in world.refuses
            then Settled(was[k], done[k],
                         Final(svc.engine.config, was[k].answers, world.now, Timeout(world.config)).total)
            else done[k] == was[k]
  {
    FinalizeSettles(svc.engine.config, was[k], qs, world.now, Timeout(world.config));
  }

  /** The payload of the next finalization shows what this one settled. */
  lemma NextPayloadShows(svc: Service, was: map<Key, PlayerState>, matchId: Id, qs: seq<PackItem>,
                         world: World, r: Result<seq<MatchResult>>, states: seq<PlayerState>,
                         reqs: seq<Leaderboard.Request>, done: map<Key, PlayerState>,
                         world': World, r': Result<seq<MatchResult>>, states': seq<PlayerState>,
                         reqs': seq<Leaderboard.Request>, done': map<Key, PlayerState>, i: nat)
    requires svc.FinalizeOutcome(was, matchId, qs, world, r, states, reqs, done)
    requires svc.FinalizeOutcome(done, matchId, qs, world', r', states', reqs', done')
    requires world.keysAnswered && world.questionsReadable && r'.Ok? && i < |r'.value|
    requires i < |states'| && states'[i].userId !in world.unreadable && states'[i].userId !in world.refuses
    ensures var k := Key(matchId, states'[i].userId);
            && k in was && |r'.value| == |states'| && r'.value[i].userId == was[k].userId
            && r'.value[i].username == was[k].username
            && (r'.value[i].status == Completed <==> was[k].leftAt.None?)
            && (r'.value[i].status == LeftEarly <==> was[k].leftAt.Some?)
            && r'.value[i].finalScore
               == Final(svc.engine.config, was[k].answers, world.now, Timeout(world.config)).total
  {
    var k := Key(matchId, states'[i].userId);
    FinalizationSettles(svc, was, matchId, qs, world, r, states, reqs, done, k);
  }

  // ---------------------------------------------------------------------------------------------
  // Where results go
  // ---------------------------------------------------------------------------------------------

  ghost predicate AllTo(us: seq<Leaderboard.Update>, w: string) {
    forall i :: 0 <= i < |us| ==> us[i].window == w
  }

  /** Every update of a private match goes to its room's own window. */
  lemma {:induction false} RoomUpdates(own: seq<string>, code: string, world: World, reqs: seq<Leaderboard.Request>)
    ensures AllTo(RoutedAll(own, true, code, world.routing, reqs, world.failAt), Leaderboard.PRIVATE + code)
    decreases |reqs|
  {
    if reqs != [] {
      var n := |reqs| - 1;
      RoomUpdates(own, code, world, reqs[..n]);
      assert AllTo(Leaderboard.PrivateUpdates(code, reqs[n], world.failAt(n) > 0), Leaderboard.PRIVATE + code);
    }
  }

  /** A user's one request reaches the room once. */
  lemma {:induction false} RoomOnce(own: seq<string>, code: string, world: World, reqs: seq<Leaderboard.Request>,
                                    r: Leaderboard.Request)
    requires r.eligible && forall i: nat :: world.failAt(i) > 0
    ensures var us := RoutedAll(own, true, code, world.routing, reqs, world.failAt);
            var a := Leaderboard.Applied(us, "private_room:" + code, r.userId);
            && (OnlyRequest(reqs, r) ==> a == [Leaderboard.EntryOf(r)])
            && ((forall i :: 0 <= i < |reqs| ==> reqs[i].userId != r.userId) ==> a == [])
    decreases |reqs|
  {
    if reqs != [] {
      var n := |reqs| - 1;
      RoomOnce(own, code, world, reqs[..n], r);
      var us := RoutedAll(own, true, code, world.routing, reqs[..n], world.failAt);
      RoomAdds(own, us, code, world.failAt(n), reqs[n], r.userId);
      if OnlyRequest(reqs, r) {
        OnlyRequestPrefix(reqs, r);
      }
    }
  }

  lemma RoomAdds(own: seq<string>, us: seq<Leaderboard.Update>, code: string, failAt: nat, req: Leaderboard.Request,
                 u: Uuid)
    requires failAt > 0
    ensures var w := "private_room:" + code;
            Leaderboard.Applied(us + Leaderboard.PrivateUpdates(code, req, failAt > 0), w, u)
            == Leaderboard.Applied(us, w, u)
               + if req.eligible && req.userId == u then [Leaderboard.EntryOf(req)] else []
  {
    var w := "private_room:" + code;
    if req.eligible {
      Leaderboard.AppliedSnoc(us, Leaderboard.Update(w, Leaderboard.EntryOf(req)), w, u);
    }
    assert us + [] == us && Leaderboard.Applied(us, w, u) + [] == Leaderboard.Applied(us, w, u);
  }

  lemma RoomShows(svc: Service, s: Leaderboard.Store, us: seq<Leaderboard.Update>, w: string, r: Leaderboard.Request)
    requires svc.leaderboard != null && Leaderboard.Applied(us, w, r.userId) == [Leaderboard.EntryOf(r)]
    ensures var prefix := svc.leaderboard.prefix;
            Leaderboard.Shown(prefix, Leaderboard.BumpAll(prefix, s, us), w, r.userId)
            == Leaderboard.Plus(Leaderboard.Shown(prefix, s, w, r.userId), Leaderboard.Worth(r, 1))
  {
    Leaderboard.CountersAdd(svc.leaderboard.prefix, s, us, w, r.userId);
    Leaderboard.FoldSnoc([], Leaderboard.EntryOf(r));
    assert [] + [Leaderboard.EntryOf(r)] == [Leaderboard.EntryOf(r)];
  }

  lemma ElsewhereUnchanged(svc: Service, s: Leaderboard.Store, us: seq<Leaderboard.Update>, w: string, u: Uuid)
    requires svc.leaderboard != null && forall i :: 0 <= i < |us| ==> us[i].window != w
    ensures var prefix := svc.leaderboard.prefix;
            Leaderboard.Shown(prefix, Leaderboard.BumpAll(prefix, s, us), w, u) == Leaderboard.Shown(prefix, s, w, u)
  {
    Leaderboard.NobodyElse(us, w, u);
    Leaderboard.CountersAdd(svc.leaderboard.prefix, s, us, w, u);
  }

  /** A private match counts on its room's board and on no other. */
  lemma PrivateMatchStaysInRoom(svc: Service, s: Leaderboard.Store, world: World, reqs: seq<Leaderboard.Request>,
                                r: Leaderboard.Request, w: string, u: Uuid)
    requires svc.leaderboard != null && world.eligibility.Some? && world.eligibility.value.mode == "private_room"
    requires world.eligibility.value.roomCode != "" && forall i: nat :: world.failAt(i) > 0
    requires OnlyRequest(reqs, r) && r.eligible
    ensures var prefix, room := svc.leaderboard.prefix, "private_room:" + world.eligibility.value.roomCode;
            var after := svc.BoardAfter(s, world, reqs);
            && (w != room ==> Leaderboard.Shown(prefix, after, w, u) == Leaderboard.Shown(prefix, s, w, u))
            && Leaderboard.Shown(prefix, after, room, r.userId)
               == Leaderboard.Plus(Leaderboard.Shown(prefix, s, room, r.userId), Leaderboard.Worth(r, 1))
  {
    var lb, code := svc.leaderboard, world.eligibility.value.roomCode;
    var room, us := "private_room:" + code, RoutedAll(lb.windows, true, code, world.routing, reqs, world.failAt);
    RoomUpdates(lb.windows, code, world, reqs);
    assert room == Leaderboard.PRIVATE + code;
    RoomOnce(lb.windows, code, world, reqs, r);
    RoomShows(svc, s, us, room, r);
    if w != room {
      ElsewhereUnchanged(svc, s, us, w, u);
    }
  }

  lemma {:induction false} NothingRouted(own: seq<string>, code: string, world: World, reqs: seq<Leaderboard.Request>)
    requires forall i: nat :: world.routing(i).None? || world.routing(i).value.mode != "random_1v1"
    ensures RoutedAll(own, false, code, world.routing, reqs, world.failAt) == []
    decreases |reqs|
  {
    if reqs != [] {
      NothingRouted(own, code, world, reqs[..|reqs| - 1]);
    }
  }

  /** Nothing is counted anywhere for a match that is not eligible, that could not be closed, or that is neither
      a private match with a room nor, in any lookup, a random one. */
  lemma NothingCounted(svc: Service, was: map<Key, PlayerState>, matchId: Id, qs: seq<PackItem>, world: World,
                       r: Result<seq<MatchResult>>, states: seq<PlayerState>, reqs: seq<Leaderboard.Request>,
                       done: map<Key, PlayerState>, s: Leaderboard.Store)
    requires svc.FinalizeOutcome(was, matchId, qs, world, r, states, reqs, done) && svc.leaderboard != null
    requires || r.Err? || world.eligibility.None? || !world.eligibility.value.leaderboardEligible
             || (&& (world.eligibility.value.mode != "private_room" || world.eligibility.value.roomCode == "")
                 && forall i: nat :: world.routing(i).None? || world.routing(i).value.mode != "random_1v1")
    ensures svc.BoardAfter(s, world, reqs) == s
  {
    if reqs != [] {
      NothingRouted(svc.leaderboard.windows, RoomCode(world.eligibility), world, reqs);
    }
  }

  /** Guests send nothing: a user id that only guests of the match have is in no request. */
  lemma GuestsSendNothing(svc: Service, states: seq<PlayerState>, qs: seq<PackItem>, world: World, eligible: bool,
                          reqs: seq<Leaderboard.Request>, u: Uuid)
    requires svc.Sent(states, qs, world, eligible, reqs)
    requires forall i :: 0 <= i < |states| && svc.uuidText(states[i].userId) == u ==> states[i].isGuest
    ensures forall j :: 0 <= j < |reqs| ==> reqs[j].userId != u
  {
    if eligible {
      var finals := svc.Finals(states, qs, world);
      RequestsUsers(svc.uuidText, finals, |qs|, u);
      forall j | 0 <= j < |reqs| ensures reqs[j].userId != u {
        assert reqs[j] == Requests(svc.uuidText, finals, |qs|)[j].(won := reqs[j].won);
      }
    }
  }

  /** The lock as a single call sees it: a granted lock is found held for exactly thirty seconds. */
  lemma HeldThirtySeconds(sm: StateManager, was: map<Id, MatchProtocol.Holder>, matchId: Id, lockValue: Id, now: int,
                          later: int)
    requires sm.lock == was[matchId := MatchProtocol.Holder(lockValue, now + MatchProtocol.LEASE)] && now <= later
    ensures sm.Held(matchId, later) <==> later < now + 30_000_000_000
  {
  }
}
