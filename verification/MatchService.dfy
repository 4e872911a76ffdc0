/** The match service run one call at a time: the state manager's keyed store (internal/match/state.go)
    and the methods of internal/match/service.go over it, proved against the record functions of
    MatchRecords. Interleaving of calls is the subject of MatchProtocol. */
module MatchService {
  import opened Common
  import opened Scoring
  import opened MatchRecords
  import MatchProtocol
  import Leaderboard

  datatype Key = Key(matchId: Id, userId: Id)

  datatype Summary = Summary(leaderboardEligible: bool, mode: string, perQuestionSeconds: int, roomCode: string)

  const MODE_RANDOM: string := "random_1v1"
  const MODE_PRIVATE: string := "private_room"

  class StateManager {
    var lock: map<Id, MatchProtocol.Holder>
    var players: map<Key, PlayerState>
    var questions: map<Id, seq<PackItem>>

    constructor ()
      ensures lock == map[] && players == map[] && questions == map[]
    {
      lock, players, questions := map[], map[], map[];
    }

    /** Records are filed under their own user. */
    ghost predicate Valid()
      reads this
    {
      forall k :: k in players ==> players[k].userId == k.userId
    }

    ghost predicate Held(matchId: Id, now: int)
      reads this
    {
      matchId in lock && now < lock[matchId].expiry
    }

    /** SETNX with a lease; `lockValue` is the call's fresh UUID, `answered` whether Redis answers. */
    method LockMatch(matchId: Id, lockValue: Id, now: int, answered: bool) returns (r: Result<()>)
      modifies this`lock
      ensures r == if !answered then Err("acquire lock") else if old(Held(matchId, now)) then Err("lock already held")
              else Ok(())
      ensures lock == if r.Ok? then old(lock)[matchId := MatchProtocol.Holder(lockValue, now + MatchProtocol.LEASE)]
              else old(lock)
    {
      if !answered {
        return Err("acquire lock");
      }
      if matchId in lock && now < lock[matchId].expiry {
        return Err("lock already held");
      }
      lock := lock[matchId := MatchProtocol.Holder(lockValue, now + MatchProtocol.LEASE)];
      return Ok(());
    }

    /** Compare-and-delete; a script that Redis does not run leaves the lock to its lease. */
    method Unlock(matchId: Id, lockValue: Id, now: int, answered: bool)
      modifies this`lock
      ensures lock == if answered && old(Held(matchId, now)) && old(lock)[matchId].call == lockValue
                      then old(lock) - {matchId} else old(lock)
    {
      if answered && matchId in lock && now < lock[matchId].expiry && lock[matchId].call == lockValue {
        lock := lock - {matchId};
      }
    }

    method StorePlayerState(matchId: Id, userId: Id, state: PlayerState, ok: bool)
      modifies this`players
      ensures players == if ok then old(players)[Key(matchId, userId) := state] else old(players)
    {
      if ok {
        players := players[Key(matchId, userId) := state];
      }
    }

    method GetPlayerState(matchId: Id, userId: Id, readable: bool) returns (r: Result<Option<PlayerState>>)
      ensures r == if !readable then Err("get state")
                   else Ok(if Key(matchId, userId) in players then Some(players[Key(matchId, userId)]) else None)
    {
      if !readable {
        return Err("get state");
      }
      if Key(matchId, userId) in players {
        return Ok(Some(players[Key(matchId, userId)]));
      }
      return Ok(None);
    }

    /** Every record of the match once, except the unreadable ones, in an order Redis chooses. */
    method GetAllPlayerStates(matchId: Id, answered: bool, unreadable: set<Id>) returns (r: Result<seq<PlayerState>>)
      requires Valid()
      ensures r.Err? <==> !answered
      ensures r.Err? ==> r == Err("get states")
      ensures r.Ok? ==> Listed(players, matchId, unreadable, r.value)
    {
      if !answered {
        return Err("get states");
      }
      var states: seq<PlayerState> := [];
      var keys := set k | k in players && k.matchId == matchId;
      while keys != {}
        invariant forall k :: k in keys ==> k in players && k.matchId == matchId
        invariant forall i :: 0 <= i < |states| ==>
                    && Key(matchId, states[i].userId) in players && players[Key(matchId, states[i].userId)] == states[i]
                    && Key(matchId, states[i].userId) !in keys && states[i].userId !in unreadable
        invariant forall i, j :: 0 <= i < j < |states| ==> states[i].userId != states[j].userId
        invariant forall k :: k in players && k.matchId == matchId && k.userId !in unreadable ==>
                    k in keys || players[k] in states
        decreases keys
      {
        var key :| key in keys;
        assert key == Key(matchId, players[key].userId);
        if key.userId !in unreadable {
          states := states + [players[key]];
        }
        keys := keys - {key};
      }
      return Ok(states);
    }

    method StoreMatchQuestions(matchId: Id, items: seq<PackItem>, ok: bool)
      modifies this`questions
      ensures questions == if ok then old(questions)[matchId := items] else old(questions)
    {
      if ok {
        questions := questions[matchId := items];
      }
    }

    ghost function Questions(matchId: Id): seq<PackItem>
      reads this
    {
      if matchId in questions then questions[matchId] else []
    }

    method GetMatchQuestions(matchId: Id, readable: bool) returns (r: Result<seq<PackItem>>)
      ensures r == if readable then Ok(Questions(matchId)) else Err("get questions")
    {
      if !readable {
        return Err("get questions");
      }
      if matchId in questions {
        return Ok(questions[matchId]);
      }
      return Ok([]);
    }
  }

  /** `states` are the readable records of the match, each once. */
  ghost predicate Listed(was: map<Key, PlayerState>, matchId: Id, unreadable: set<Id>, states: seq<PlayerState>) {
    && (forall i :: 0 <= i < |states| ==>
          && Key(matchId, states[i].userId) in was && was[Key(matchId, states[i].userId)] == states[i]
          && states[i].userId !in unreadable)
    && (forall i, j :: 0 <= i < j < |states| ==> states[i].userId != states[j].userId)
    && (forall k :: k in was && k.matchId == matchId && k.userId !in unreadable ==> was[k] in states)
  }

  // ---------------------------------------------------------------------------------------------
  // Results for the leaderboard
  // ---------------------------------------------------------------------------------------------

  /** The request built for a finalized player; `won` is decided later. */
  function RequestOf(text: Id -> Uuid, st: PlayerState, questionCount: int): Leaderboard.Request
    requires st.finalScore.Some?
  {
    Leaderboard.Request(text(st.userId), st.username, st.finalScore.value, CorrectCount(st.answers), questionCount,
                        false, [], true)
  }

  ghost predicate Scored(states: seq<PlayerState>) {
    forall i :: 0 <= i < |states| ==> states[i].finalScore.Some?
  }

  /** One request per registered player, in order. */
  function Requests(text: Id -> Uuid, states: seq<PlayerState>, questionCount: int): seq<Leaderboard.Request>
    requires forall i :: 0 <= i < |states| ==> states[i].finalScore.Some?
  {
    if states == [] then []
    else
      var n := |states| - 1;
      Requests(text, states[..n], questionCount)
      + if states[n].isGuest then [] else [RequestOf(text, states[n], questionCount)]
  }

  lemma RequestsStep(text: Id -> Uuid, states: seq<PlayerState>, st: PlayerState, questionCount: int)
    requires Scored(states) && st.finalScore.Some?
    ensures Scored(states + [st])
    ensures Requests(text, states + [st], questionCount)
            == if st.isGuest then Requests(text, states, questionCount)
               else Requests(text, states, questionCount) + [RequestOf(text, st, questionCount)]
  {
    assert (states + [st])[..|states|] == states;
  }

  lemma TakeOne<T>(s: seq<T>, i: nat)
    requires i < |s|
    ensures s[..i + 1] == s[..i] + [s[i]]
  {
  }

  /** The requests with the winners marked: `won` holds exactly of the greatest scorers. */
  ghost predicate Decided(reqs: seq<Leaderboard.Request>, decided: seq<Leaderboard.Request>) {
    && |decided| == |reqs|
    && forall i :: 0 <= i < |reqs| ==>
         && decided[i] == reqs[i].(won := decided[i].won)
         && (decided[i].won <==> forall j :: 0 <= j < |reqs| ==> reqs[j].score <= reqs[i].score)
  }

  method MarkWinners(reqs: seq<Leaderboard.Request>) returns (decided: seq<Leaderboard.Request>)
    ensures Decided(reqs, decided)
    ensures reqs != [] ==> exists i :: 0 <= i < |decided| && decided[i].won
  {
    decided := reqs;
    if |reqs| == 0 {
      return;
    }
    var highest := reqs[0].score;
    ghost var best := 0;
    for i := 1 to |reqs|
      invariant 0 <= best < i && highest == reqs[best].score
      invariant forall j :: 0 <= j < i ==> reqs[j].score <= highest
    {
      if reqs[i].score > highest {
        highest := reqs[i].score;
        best := i;
      }
    }
    for i := 0 to |reqs|
      invariant |decided| == |reqs|
      invariant forall j :: 0 <= j < i ==> decided[j] == reqs[j].(won := reqs[j].score == highest)
      invariant forall j :: i <= j < |reqs| ==> decided[j] == reqs[j]
    {
      decided := decided[i := decided[i].(won := decided[i].score == highest)];
    }
    assert decided[best].won;
  }

  /** Where one result is sent: the room's board, the main board of a random match, or nowhere. */
  function Routed(own: seq<string>, toRoom: bool, roomCode: string, meta: Option<Summary>, req: Leaderboard.Request,
                  failAt: nat)
    : seq<Leaderboard.Update>
  {
    if toRoom then Leaderboard.PrivateUpdates(roomCode, req, failAt > 0)
    else if meta.Some? && meta.value.mode == MODE_RANDOM then Leaderboard.ResultUpdates(own, req, failAt)
    else []
  }

  /** `routing(i)` and `failAt(i)` are the summary lookup and the failure that request i meets. */
  function RoutedAll(own: seq<string>, toRoom: bool, roomCode: string, routing: nat -> Option<Summary>,
                     reqs: seq<Leaderboard.Request>, failAt: nat -> nat): seq<Leaderboard.Update>
  {
    if reqs == [] then []
    else
      var n := |reqs| - 1;
      RoutedAll(own, toRoom, roomCode, routing, reqs[..n], failAt)
      + Routed(own, toRoom, roomCode, routing(n), reqs[n], failAt(n))
  }

  // ---------------------------------------------------------------------------------------------
  // The service
  // ---------------------------------------------------------------------------------------------

  /** What a call meets outside the store: its lock value, the clock, the summary lookups (one of them per
      request), which Redis calls get an answer, whose records cannot be read or written, whether the
      status update succeeds, and how many leaderboard updates of each request succeed. */
  datatype World = World(
    lockValue: Id,
    now: int,
    lockAnswered: bool,
    unlockAnswered: bool,
    keysAnswered: bool,
    questionsReadable: bool,
    unreadable: set<Id>,
    refuses: set<Id>,
    eligibility: Option<Summary>,
    config: Option<Summary>,
    routing: nat -> Option<Summary>,
    statusOk: bool,
    failAt: nat -> nat)

  /** The locks after a call that found the match free: released again, unless the unlock script was lost. */
  ghost function LocksAfter(was: map<Id, MatchProtocol.Holder>, matchId: Id, world: World)
    : map<Id, MatchProtocol.Holder>
  {
    if world.unlockAnswered then was - {matchId}
    else was[matchId := MatchProtocol.Holder(world.lockValue, world.now + MatchProtocol.LEASE)]
  }

  function Timeout(meta: Option<Summary>): int {
    if meta.Some? then meta.value.perQuestionSeconds * SECOND else DEFAULT_TIMEOUT
  }

  datatype MatchResult = MatchResult(
    userId: Id, username: string, finalScore: int, accuracy: real, streakBonus: real, status: Status)

  datatype Player = Player(userId: Id, isGuest: bool, username: string)

  function Blank(p: Player): PlayerState {
    PlayerState(p.userId, p.isGuest, p.username, None, Queued, None, None, None, [])
  }

  /** Match creation writes a blank record under this key. */
  ghost predicate IsBlanked(k: Key, matchId: Id, players: seq<Player>, refuses: set<Id>) {
    k.matchId == matchId && k.userId !in refuses && exists i :: 0 <= i < |players| && players[i].userId == k.userId
  }

  /** What match creation has done to the records after handling these players. */
  ghost predicate BlankedStore(was: map<Key, PlayerState>, matchId: Id, players: seq<Player>, refuses: set<Id>,
                               done: map<Key, PlayerState>)
  {
    && (forall k :: k in done <==> k in was || IsBlanked(k, matchId, players, refuses))
    && (forall k :: k in done ==>
          if IsBlanked(k, matchId, players, refuses)
          then exists i :: 0 <= i < |players| && players[i].userId == k.userId && done[k] == Blank(players[i])
          else done[k] == was[k])
  }

  lemma BlankedStep(was: map<Key, PlayerState>, matchId: Id, players: seq<Player>, p: Player, refuses: set<Id>,
                    done: map<Key, PlayerState>)
    requires BlankedStore(was, matchId, players, refuses, done)
    ensures BlankedStore(was, matchId, players + [p], refuses,
                         if p.userId in refuses then done else done[Key(matchId, p.userId) := Blank(p)])
  {
    var all := players + [p];
    var done' := if p.userId in refuses then done else done[Key(matchId, p.userId) := Blank(p)];
    forall k ensures IsBlanked(k, matchId, all, refuses)
                     <==> IsBlanked(k, matchId, players, refuses)
                          || (k == Key(matchId, p.userId) && p.userId !in refuses)
    {
      BlankedMore(k, matchId, players, p, refuses);
    }
    forall k | k in done' && IsBlanked(k, matchId, all, refuses)
      ensures exists i :: 0 <= i < |all| && all[i].userId == k.userId && done'[k] == Blank(all[i])
    {
      if k != Key(matchId, p.userId) {
        var i :| 0 <= i < |players| && players[i].userId == k.userId && done[k] == Blank(players[i]);
        assert all[i] == players[i];
      } else {
        assert all[|players|] == p;
      }
    }
  }

  lemma BlankedMore(k: Key, matchId: Id, players: seq<Player>, p: Player, refuses: set<Id>)
    ensures IsBlanked(k, matchId, players + [p], refuses)
            <==> IsBlanked(k, matchId, players, refuses) || (k == Key(matchId, p.userId) && p.userId !in refuses)
  {
    var all := players + [p];
    assert all[|players|] == p;
    if IsBlanked(k, matchId, players, refuses) {
      var i :| 0 <= i < |players| && players[i].userId == k.userId;
      assert all[i].userId == k.userId;
    }
  }

  class Service {
    const stateMgr: StateManager
    const engine: Engine
    const leaderboard: Leaderboard.Service?
    const uuidText: Id -> Uuid

    constructor (stateMgr: StateManager, engine: Engine, leaderboard: Leaderboard.Service?, uuidText: Id -> Uuid)
      ensures this.stateMgr == stateMgr && this.engine == engine && this.leaderboard == leaderboard
      ensures this.uuidText == uuidText
    {
      this.stateMgr, this.engine, this.leaderboard, this.uuidText := stateMgr, engine, leaderboard, uuidText;
    }

    /** The part of match creation that the protocol starts from: a numbered pack and a blank record for
        each player. Failed writes are logged and passed over. */
    method SetUpMatch(matchId: Id, key: Option<string -> string>, questions: seq<Question>,
                      players: seq<Player>, packStored: bool, refuses: set<Id>)
      requires stateMgr.Valid()
      modifies stateMgr
      ensures stateMgr.Valid() && stateMgr.lock == old(stateMgr.lock) && Numbered(PackOf(key, questions))
      ensures stateMgr.questions
           == if packStored then old(stateMgr.questions)[matchId := PackOf(key, questions)] else old(stateMgr.questions)
      ensures BlankedStore(old(stateMgr.players), matchId, players, refuses, stateMgr.players)
    {
      var items := BuildPackItems(key, questions);
      stateMgr.StoreMatchQuestions(matchId, items, packStored);
      for i := 0 to |players|
        invariant stateMgr.Valid() && stateMgr.lock == old(stateMgr.lock)
        invariant stateMgr.questions == if packStored then old(stateMgr.questions)[matchId := items]
                  else old(stateMgr.questions)
        invariant BlankedStore(old(stateMgr.players), matchId, players[..i], refuses, stateMgr.players)
      {
        BlankedStep(old(stateMgr.players), matchId, players[..i], players[i], refuses, stateMgr.players);
        assert players[..i + 1] == players[..i] + [players[i]];
        stateMgr.StorePlayerState(matchId, players[i].userId, Blank(players[i]), players[i].userId !in refuses);
      }
      assert players[..|players|] == players;
    }

    /** What SubmitAnswer does once it has the lock: `r` and `done` are its result and the records it leaves. */
    ghost predicate SubmitOutcome(was: map<Key, PlayerState>, questions: seq<PackItem>, key: Key, sub: Submission,
                                  world: World, r: Result<()>, done: map<Key, PlayerState>)
    {
      if key !in was || key.userId in world.unreadable then r == Err("player state not found") && done == was
      else if !world.questionsReadable then r == Err("questions not found") && done == was
      else
        match Submit(engine.config, was[key], questions, sub, world.now, Timeout(world.config))
        case Rejected(reason) => r == Err(reason) && done == was
        case Accepted(st) =>
          if key.userId in world.refuses then r == Err("store state") && done == was
          else r == Ok(()) && done == was[key := st]
    }

    /** Without the lock nothing changes; with it only the caller's record can, and only by acceptance. */
    method SubmitAnswer(matchId: Id, userId: Id, questionToken: string, answer: string, submittedAt: int, world: World)
      returns (r: Result<()>)
      requires stateMgr.Valid()
      modifies stateMgr
      ensures stateMgr.Valid() && stateMgr.questions == old(stateMgr.questions)
      ensures if !world.lockAnswered || old(stateMgr.Held(matchId, world.now)) then
                && r == Err(if !world.lockAnswered then "acquire lock" else "lock already held")
                && stateMgr.players == old(stateMgr.players) && stateMgr.lock == old(stateMgr.lock)
              else
                && stateMgr.lock == LocksAfter(old(stateMgr.lock), matchId, world)
                && SubmitOutcome(old(stateMgr.players), old(stateMgr.Questions(matchId)), Key(matchId, userId),
                                 Submission(questionToken, answer, submittedAt), world, r, stateMgr.players)
    {
      var locked := stateMgr.LockMatch(matchId, world.lockValue, world.now, world.lockAnswered);
      if locked.Err? {
        return locked;
      }
      r := SubmitLocked(matchId, userId, questionToken, answer, submittedAt, world);
      stateMgr.Unlock(matchId, world.lockValue, world.now, world.unlockAnswered);
    }

    /** The body of SubmitAnswer between acquisition and the deferred unlock. */
    method SubmitLocked(matchId: Id, userId: Id, questionToken: string, answer: string, submittedAt: int, world: World)
      returns (r: Result<()>)
      requires stateMgr.Valid()
      modifies stateMgr`players
      ensures stateMgr.Valid()
      ensures SubmitOutcome(old(stateMgr.players), stateMgr.Questions(matchId), Key(matchId, userId),
                            Submission(questionToken, answer, submittedAt), world, r, stateMgr.players)
    {
      var found := stateMgr.GetPlayerState(matchId, userId, userId !in world.unreadable);
      if found.Err? || found.value.None? {
        return Err("player state not found");
      }
      var state := found.value.value;
      var stored := stateMgr.GetMatchQuestions(matchId, world.questionsReadable);
      if stored.Err? || |stored.value| == 0 {
        return Err("questions not found");
      }
      var questions := stored.value;
      var target := FindQuestion(questions, questionToken);
      if target.None? {
        return Err("invalid question token");
      }
      var question := target.value;
      for i := 0 to |state.answers|
        invariant forall j :: 0 <= j < i ==> state.answers[j].order != question.order
      {
        if state.answers[i].order == question.order {
          return Err("question already answered");
        }
      }
      var isCorrect := answer == question.correctAnswer;
      var perQuestionTimeout := DEFAULT_TIMEOUT;
      if world.config.Some? {
        perQuestionTimeout := world.config.value.perQuestionSeconds * SECOND;
      }
      var streak := engine.StreakBefore(state.answers, |state.answers|);
      assert state.answers[..|state.answers|] == state.answers;
      var timeRemaining := perQuestionTimeout - (world.now - submittedAt);
      if timeRemaining < 0 {
        timeRemaining := 0;
      }
      var score := engine.CalculateScore(isCorrect, timeRemaining, perQuestionTimeout, streak);
      var record := Answer(question.order, questionToken, answer, submittedAt, isCorrect, score);
      state := state.(answers := state.answers + [record]);
      stateMgr.StorePlayerState(matchId, userId, state, userId !in world.refuses);
      if userId in world.refuses {
        return Err("store state");
      }
      return Ok(());
    }

    method FindQuestion(questions: seq<PackItem>, token: string) returns (r: Option<PackItem>)
      ensures r == FindByToken(questions, token)
    {
      for i := 0 to |questions|
        invariant FindByToken(questions, token) == FindByToken(questions[i..], token)
      {
        if questions[i].token == token {
          return Some(questions[i]);
        }
        assert questions[i..][1..] == questions[i + 1..];
      }
      return None;
    }

    /** The padding loop: a wrong answer for every question not answered before it started. */
    method PadAnswers(answers: seq<Answer>, questions: seq<PackItem>, now: int) returns (padded: seq<Answer>)
      ensures padded == Padded(answers, questions, now)
    {
      var answeredOrders := {};
      for i := 0 to |answers|
        invariant answeredOrders == Orders(answers[..i])
      {
        answeredOrders := answeredOrders + {answers[i].order};
        OrdersSnoc(answers[..i], answers[i]);
        assert answers[..i + 1] == answers[..i] + [answers[i]];
      }
      assert answers[..|answers|] == answers;
      padded := answers;
      for i := 0 to |questions|
        invariant padded + Padding(answeredOrders, questions[i..], now) == Padded(answers, questions, now)
      {
        assert questions[i..][1..] == questions[i + 1..];
        if questions[i].order !in answeredOrders {
          padded := padded + [Answer(questions[i].order, questions[i].token, "", now, false, 0)];
        }
      }
    }

    method FinalizePlayer(state: PlayerState, questions: seq<PackItem>, now: int, timeout: int)
      returns (final: PlayerState, correctCount: int)
      ensures final == Finalize(engine.config, state, questions, now, timeout)
      ensures correctCount == CorrectCount(final.answers)
    {
      var answers := PadAnswers(state.answers, questions, now);
      var totalScore, accuracy, streakBonus := engine.ComputeFinalScore(answers, timeout, now);
      assert Final(engine.config, answers, now, timeout) == FinalScore(totalScore, accuracy, streakBonus);
      correctCount := 0;
      for i := 0 to |answers|
        invariant correctCount == CorrectCount(answers[..i])
      {
        assert answers[..i + 1][..i] == answers[..i];
        if answers[i].isCorrect {
          correctCount := correctCount + 1;
        }
      }
      assert answers[..|answers|] == answers;
      final := state.(answers := answers, finalScore := Some(totalScore), accuracy := Some(accuracy),
                      streakBonusPct := Some(streakBonus),
                      status := if state.leftAt.Some? then LeftEarly else Completed);
    }

    /** The records a finalization replaces: those it can read and write. */
    ghost predicate Replaceable(k: Key, world: World) {
      k.userId !in world.unreadable && k.userId !in world.refuses
    }

    /** What FinalizeMatch leaves: every record of the match replaced by its finalization, except
        where Redis fails to read or write it. */
    ghost predicate FinalStore(was: map<Key, PlayerState>, matchId: Id, qs: seq<PackItem>, world: World,
                               done: map<Key, PlayerState>) {
      && done.Keys == was.Keys
      && forall k :: k in was ==>
           done[k] == if k.matchId == matchId && Replaceable(k, world)
                      then Finalize(engine.config, was[k], qs, world.now, Timeout(world.config)) else was[k]
    }

    /** The records with the handled ones finalized. */
    ghost function Replaced(was: map<Key, PlayerState>, handled: set<Key>, qs: seq<PackItem>, world: World)
      : map<Key, PlayerState>
    {
      map k | k in was :: if k in handled && k.userId !in world.refuses
                          then Finalize(engine.config, was[k], qs, world.now, Timeout(world.config)) else was[k]
    }

    lemma ReplacedStep(was: map<Key, PlayerState>, handled: set<Key>, qs: seq<PackItem>, world: World, k: Key)
      requires k in was && k !in handled
      ensures var cur := Replaced(was, handled, qs, world);
              Replaced(was, handled + {k}, qs, world)
              == if k.userId in world.refuses then cur
                 else cur[k := Finalize(engine.config, was[k], qs, world.now, Timeout(world.config))]
    {
    }

    ghost function KeysOf(matchId: Id, states: seq<PlayerState>): set<Key> {
      set st | st in states :: Key(matchId, st.userId)
    }

    lemma KeysStep(was: map<Key, PlayerState>, matchId: Id, world: World, states: seq<PlayerState>, i: nat)
      requires Listed(was, matchId, world.unreadable, states) && i < |states|
      ensures var k := Key(matchId, states[i].userId);
              k !in KeysOf(matchId, states[..i])
              && KeysOf(matchId, states[..i + 1]) == KeysOf(matchId, states[..i]) + {k}
    {
      assert states[..i + 1] == states[..i] + [states[i]];
      assert forall st :: st in states[..i] ==> st.userId != states[i].userId;
    }

    lemma AllReplaced(was: map<Key, PlayerState>, matchId: Id, states: seq<PlayerState>, qs: seq<PackItem>,
                      world: World)
      requires Listed(was, matchId, world.unreadable, states) && forall k :: k in was ==> was[k].userId == k.userId
      ensures FinalStore(was, matchId, qs, world, Replaced(was, KeysOf(matchId, states[..|states|]), qs, world))
    {
      assert states[..|states|] == states;
      forall k | k in was
        ensures k in KeysOf(matchId, states) <==> k.matchId == matchId && k.userId !in world.unreadable
      {
        if k.matchId == matchId && k.userId !in world.unreadable {
          assert was[k] in states && Key(matchId, was[k].userId) == k;
        }
      }
    }

    ghost function Finals(states: seq<PlayerState>, qs: seq<PackItem>, world: World): seq<PlayerState> {
      seq(|states|, i requires 0 <= i < |states| =>
        Finalize(engine.config, states[i], qs, world.now, Timeout(world.config)))
    }

    /** One round of the loop below; `was` are the records when it began. */
    method FinalizeAndStore(matchId: Id, states: seq<PlayerState>, i: nat, questions: seq<PackItem>, world: World,
                            ghost was: map<Key, PlayerState>)
      returns (final: PlayerState, correctCount: int)
      requires stateMgr.Valid() && Listed(was, matchId, world.unreadable, states) && i < |states|
      requires stateMgr.players == Replaced(was, KeysOf(matchId, states[..i]), questions, world)
      modifies stateMgr`players
      ensures stateMgr.Valid()
      ensures stateMgr.players == Replaced(was, KeysOf(matchId, states[..i + 1]), questions, world)
      ensures final == Finals(states, questions, world)[i] && final.finalScore.Some?
      ensures correctCount == CorrectCount(final.answers)
    {
      final, correctCount := FinalizePlayer(states[i], questions, world.now, Timeout(world.config));
      stateMgr.StorePlayerState(matchId, final.userId, final, final.userId !in world.refuses);
      KeysStep(was, matchId, world, states, i);
      ReplacedStep(was, KeysOf(matchId, states[..i]), questions, world, Key(matchId, states[i].userId));
    }

    method FinalizePlayers(matchId: Id, states: seq<PlayerState>, questions: seq<PackItem>, world: World,
                           eligible: bool)
      returns (finals: seq<PlayerState>, reqs: seq<Leaderboard.Request>)
      requires stateMgr.Valid() && Listed(stateMgr.players, matchId, world.unreadable, states)
      modifies stateMgr`players
      ensures stateMgr.Valid()
      ensures finals == Finals(states, questions, world) && Scored(finals)
      ensures reqs == if eligible then Requests(uuidText, finals, |questions|) else []
      ensures FinalStore(old(stateMgr.players), matchId, questions, world, stateMgr.players)
    {
      finals, reqs := [], [];
      ghost var was := stateMgr.players;
      ghost var all := Finals(states, questions, world);
      for i := 0 to |states|
        invariant stateMgr.Valid()
        invariant finals == all[..i] && Scored(finals)
        invariant reqs == if eligible then Requests(uuidText, finals, |questions|) else []
        invariant stateMgr.players == Replaced(was, KeysOf(matchId, states[..i]), questions, world)
      {
        var final, correctCount := FinalizeAndStore(matchId, states, i, questions, world, was);
        TakeOne(all, i);
        RequestsStep(uuidText, finals, final, |questions|);
        if eligible && !final.isGuest {
          reqs := reqs + [Leaderboard.Request(uuidText(final.userId), final.username, final.finalScore.value,
                                              correctCount, |questions|, false, [], true)];
        }
        finals := finals + [final];
      }
      AllReplaced(was, matchId, states, questions, world);
    }

    method RecordAll(reqs: seq<Leaderboard.Request>, toRoom: bool, roomCode: string, world: World)
      requires leaderboard != null
      modifies leaderboard`redis
      ensures leaderboard.redis
           == Leaderboard.BumpAll(leaderboard.prefix, old(leaderboard.redis),
                                  RoutedAll(leaderboard.windows, toRoom, roomCode, world.routing, reqs, world.failAt))
    {
      ghost var was, own := leaderboard.redis, leaderboard.windows;
      for i := 0 to |reqs|
        invariant leaderboard.redis
               == Leaderboard.BumpAll(leaderboard.prefix, was,
                                      RoutedAll(own, toRoom, roomCode, world.routing, reqs[..i], world.failAt))
      {
        ghost var before := RoutedAll(own, toRoom, roomCode, world.routing, reqs[..i], world.failAt);
        ghost var more := Routed(own, toRoom, roomCode, world.routing(i), reqs[i], world.failAt(i));
        assert reqs[..i + 1][..i] == reqs[..i];
        Leaderboard.BumpAllAppend(leaderboard.prefix, was, before, more);
        if toRoom {
          var _ := leaderboard.RecordPrivateRoomResult(roomCode, reqs[i], world.failAt(i) > 0);
        } else {
          var meta := world.routing(i);
          if meta.Some? && meta.value.mode == MODE_RANDOM {
            var _ := leaderboard.RecordResult(reqs[i], world.failAt(i));
          } else {
            assert before + [] == before;
          }
        }
      }
      assert reqs[..|reqs|] == reqs;
    }

    /** The payload is built from the records as they were listed: the finalizing loop works on copies. */
    method BuildResults(states: seq<PlayerState>) returns (results: seq<MatchResult>)
      ensures results == ResultsOf(states)
    {
      results := [];
      for i := 0 to |states|
        invariant results == ResultsOf(states)[..i]
      {
        var finalScore, accuracy, streakBonus := 0, 0.0, 0.0;
        if states[i].finalScore.Some? {
          finalScore := states[i].finalScore.value;
        }
        if states[i].accuracy.Some? {
          accuracy := states[i].accuracy.value;
        }
        if states[i].streakBonusPct.Some? {
          streakBonus := states[i].streakBonusPct.value;
        }
        results := results + [MatchResult(states[i].userId, states[i].username, finalScore, accuracy, streakBonus,
                                          states[i].status)];
      }
    }

    /** The requests sent to the leaderboard for a list of states: those of the registered players with
        the winners marked, if the match is eligible. */
    ghost predicate Sent(states: seq<PlayerState>, qs: seq<PackItem>, world: World, eligible: bool,
                         reqs: seq<Leaderboard.Request>) {
      if eligible then Decided(Requests(uuidText, Finals(states, qs, world), |qs|), reqs) else reqs == []
    }

    ghost function BoardAfter(was: Leaderboard.Store, world: World, reqs: seq<Leaderboard.Request>): Leaderboard.Store
      requires leaderboard != null
    {
      Leaderboard.BumpAll(leaderboard.prefix, was,
                          RoutedAll(leaderboard.windows, ToRoom(world.eligibility), RoomCode(world.eligibility),
                                    world.routing, reqs, world.failAt))
    }

    ghost predicate Counts(world: World) {
      leaderboard != null && world.eligibility.Some? && world.eligibility.value.leaderboardEligible
    }

    /** What FinalizeMatch does once it has the lock. `states` are the records in the order Redis listed them
        and `reqs` the leaderboard requests sent. */
    ghost predicate FinalizeOutcome(was: map<Key, PlayerState>, matchId: Id, qs: seq<PackItem>, world: World,
                                    r: Result<seq<MatchResult>>, states: seq<PlayerState>,
                                    reqs: seq<Leaderboard.Request>, done: map<Key, PlayerState>)
    {
      if !world.keysAnswered || !world.questionsReadable then
        && r == Err(if !world.keysAnswered then "get states" else "get questions")
        && done == was && reqs == []
      else
        && Listed(was, matchId, world.unreadable, states)
        && FinalStore(was, matchId, qs, world, done)
        && r == (if world.statusOk then Ok(ResultsOf(states)) else Err("update match status"))
        && Sent(states, qs, world, world.statusOk && Counts(world), reqs)
    }

    /** The body of FinalizeMatch between acquisition and the deferred unlock. */
    method FinalizeLocked(matchId: Id, world: World)
      returns (r: Result<seq<MatchResult>>, states: seq<PlayerState>, reqs: seq<Leaderboard.Request>)
      requires stateMgr.Valid()
      modifies stateMgr`players, if leaderboard == null then {} else {leaderboard}
      ensures stateMgr.Valid()
      ensures FinalizeOutcome(old(stateMgr.players), matchId, stateMgr.Questions(matchId), world, r, states, reqs,
                              stateMgr.players)
      ensures leaderboard != null ==> leaderboard.redis == BoardAfter(old(leaderboard.redis), world, reqs)
    {
      var leaderboardEligible, toRoom, roomCode := false, false, "";
      if leaderboard != null && world.eligibility.Some? {
        leaderboardEligible := world.eligibility.value.leaderboardEligible;
        toRoom := ToRoom(world.eligibility);
        roomCode := world.eligibility.value.roomCode;
      }
      states, reqs := [], [];
      var listed := stateMgr.GetAllPlayerStates(matchId, world.keysAnswered, world.unreadable);
      if listed.Err? {
        return Err("get states"), [], [];
      }
      var stored := stateMgr.GetMatchQuestions(matchId, world.questionsReadable);
      if stored.Err? {
        return Err("get questions"), [], [];
      }
      states := listed.value;
      var finals, candidates := FinalizePlayers(matchId, states, stored.value, world, leaderboardEligible);
      if !world.statusOk {
        return Err("update match status"), states, [];
      }
      if leaderboardEligible && leaderboard != null {
        reqs := MarkWinners(candidates);
        RecordAll(reqs, toRoom, roomCode, world);
      }
      var results := BuildResults(states);
      return Ok(results), states, reqs;
    }

    method FinalizeMatch(matchId: Id, world: World)
      returns (r: Result<seq<MatchResult>>, states: seq<PlayerState>, reqs: seq<Leaderboard.Request>)
      requires stateMgr.Valid()
      modifies stateMgr, if leaderboard == null then {} else {leaderboard}
      ensures stateMgr.Valid() && stateMgr.questions == old(stateMgr.questions)
      ensures if !world.lockAnswered || old(stateMgr.Held(matchId, world.now)) then
                && r == Err(if !world.lockAnswered then "acquire lock" else "lock already held") && reqs == []
                && stateMgr.players == old(stateMgr.players) && stateMgr.lock == old(stateMgr.lock)
              else
                && stateMgr.lock == LocksAfter(old(stateMgr.lock), matchId, world)
                && FinalizeOutcome(old(stateMgr.players), matchId, old(stateMgr.Questions(matchId)), world, r, states,
                                   reqs, stateMgr.players)
      ensures leaderboard != null ==> leaderboard.redis == BoardAfter(old(leaderboard.redis), world, reqs)
    {
      var locked := stateMgr.LockMatch(matchId, world.lockValue, world.now, world.lockAnswered);
      if locked.Err? {
        return Err(locked.message), [], [];
      }
      r, states, reqs := FinalizeLocked(matchId, world);
      stateMgr.Unlock(matchId, world.lockValue, world.now, world.unlockAnswered);
    }
  }

  function ResultOf(st: PlayerState): MatchResult {
    MatchResult(st.userId, st.username,
                if st.finalScore.Some? then st.finalScore.value else 0,
                if st.accuracy.Some? then st.accuracy.value else 0.0,
                if st.streakBonusPct.Some? then st.streakBonusPct.value else 0.0,
                st.status)
  }

  function ResultsOf(states: seq<PlayerState>): seq<MatchResult> {
    seq(|states|, i requires 0 <= i < |states| => ResultOf(states[i]))
  }

  /** The payload of a first finalization does not show its outcome: every player appears with no score
      and not completed. The score shown is the stored one exactly for players without a correct answer. */
  lemma FirstPayloadIsBlank(svc: Service, states: seq<PlayerState>, qs: seq<PackItem>, world: World, i: nat)
    requires Rewarding(svc.engine.config) && i < |states|
    requires states[i].finalScore == None && states[i].accuracy == None && states[i].streakBonusPct == None
    requires states[i].status == Queued
    ensures var shown, stored := ResultsOf(states)[i], ResultsOf(svc.Finals(states, qs, world))[i];
            && shown.finalScore == 0 && shown.accuracy == 0.0 && shown.streakBonus == 0.0
            && shown.status != stored.status
            && (shown.finalScore == stored.finalScore <==> CorrectCount(states[i].answers) == 0)
  {
    var a := states[i].answers;
    var pad := Padding(Orders(a), qs, world.now);
    PaddingIsWrong(Orders(a), qs, world.now);
    PaddingKeepsCounts(a, pad);
    NoneCorrect(a + pad);
    ScoresNothingIff(svc.engine.config, a + pad, world.now, Timeout(world.config), 0);
  }

  function RoomCode(meta: Option<Summary>): string {
    if meta.Some? then meta.value.roomCode else ""
  }

  function ToRoom(meta: Option<Summary>): bool {
    meta.Some? && meta.value.mode == MODE_PRIVATE && meta.value.roomCode != ""
  }

  // ---------------------------------------------------------------------------------------------
  // Finalizing again counts again
  // ---------------------------------------------------------------------------------------------

  /** `r` is one of the requests and the only one of its user. */
  ghost predicate OnlyRequest(reqs: seq<Leaderboard.Request>, r: Leaderboard.Request) {
    exists i :: 0 <= i < |reqs| && reqs[i] == r
                && forall j :: 0 <= j < |reqs| && j != i ==> reqs[j].userId != r.userId
  }

  /** The user has a request, and no request of the call has a higher score. */
  ghost predicate Tops(reqs: seq<Leaderboard.Request>, u: Uuid) {
    exists i :: 0 <= i < |reqs| && reqs[i].userId == u && forall j :: 0 <= j < |reqs| ==> reqs[j].score <= reqs[i].score
  }

  /** In how many of the calls that is so. */
  ghost function TimesOnTop(calls: seq<seq<Leaderboard.Request>>, u: Uuid): nat {
    if calls == [] then 0
    else
      var n := |calls| - 1;
      TimesOnTop(calls[..n], u) + if Tops(calls[n], u) then 1 else 0
  }

  /** No other registered player in the list has player i's user id text. */
  ghost predicate NamedAlone(text: Id -> Uuid, states: seq<PlayerState>, i: nat)
    requires i < |states|
  {
    forall a :: 0 <= a < |states| && a != i && !states[a].isGuest ==> text(states[a].userId) != text(states[i].userId)
  }

  lemma {:induction false} RequestsCover(text: Id -> Uuid, finals: seq<PlayerState>, q: int, i: nat)
    requires Scored(finals) && i < |finals| && !finals[i].isGuest && NamedAlone(text, finals, i)
    ensures OnlyRequest(Requests(text, finals, q), RequestOf(text, finals[i], q))
    decreases |finals|
  {
    var n := |finals| - 1;
    var r, front, all := RequestOf(text, finals[i], q), Requests(text, finals[..n], q), Requests(text, finals, q);
    assert forall k :: 0 <= k < |front| ==> all[k] == front[k];
    if i < n {
      RequestsCover(text, finals[..n], q, i);
      var k :| 0 <= k < |front| && front[k] == r
               && forall j :: 0 <= j < |front| && j != k ==> front[j].userId != r.userId;
      assert all[k] == front[k];
    } else {
      RequestsUsers(text, finals[..n], q, r.userId);
      assert all[|front|] == r;
    }
  }

  lemma {:induction false} RequestsUsers(text: Id -> Uuid, finals: seq<PlayerState>, q: int, u: Uuid)
    requires Scored(finals)
    requires forall a :: 0 <= a < |finals| && !finals[a].isGuest ==> text(finals[a].userId) != u
    ensures forall k :: 0 <= k < |Requests(text, finals, q)| ==> Requests(text, finals, q)[k].userId != u
    decreases |finals|
  {
    if finals != [] {
      RequestsUsers(text, finals[..|finals| - 1], q, u);
    }
  }

  /** Every request of the call is looked up as a random match and reaches window w of the board. */
  ghost predicate Reaches(world: World, w: nat) {
    forall i: nat :: world.routing(i).Some? && world.routing(i).value.mode == "random_1v1" && world.failAt(i) > w
  }

  /** Then the one request of a user reaches that window once. */
  lemma {:induction false} RoutedOnce(own: seq<string>, world: World, roomCode: string, reqs: seq<Leaderboard.Request>,
                                      w: nat, r: Leaderboard.Request)
    requires Distinct(own) && w < |own| && Reaches(world, w) && r.eligible
    requires forall i :: 0 <= i < |reqs| ==> reqs[i].windows == []
    ensures var a := Leaderboard.Applied(RoutedAll(own, false, roomCode, world.routing, reqs, world.failAt), own[w],
                                         r.userId);
            && (OnlyRequest(reqs, r) ==> a == [Leaderboard.EntryOf(r)])
            && ((forall i :: 0 <= i < |reqs| ==> reqs[i].userId != r.userId) ==> a == [])
    decreases |reqs|
  {
    if reqs != [] {
      var n := |reqs| - 1;
      RoutedOnce(own, world, roomCode, reqs[..n], w, r);
      var us := RoutedAll(own, false, roomCode, world.routing, reqs[..n], world.failAt);
      var vs := Routed(own, false, roomCode, world.routing(n), reqs[n], world.failAt(n));
      Leaderboard.AppliedAppend(us, vs, own[w], r.userId);
      Leaderboard.AppliedInWindows(own, reqs[n], world.failAt(n), w, r.userId);
      if OnlyRequest(reqs, r) {
        OnlyRequestPrefix(reqs, r);
      }
    }
  }

  lemma OnlyRequestPrefix(reqs: seq<Leaderboard.Request>, r: Leaderboard.Request)
    requires OnlyRequest(reqs, r)
    ensures var n := |reqs| - 1;
            if reqs[n].userId == r.userId
            then reqs[n] == r && forall i :: 0 <= i < n ==> reqs[..n][i].userId != r.userId
            else OnlyRequest(reqs[..n], r)
  {
    var n := |reqs| - 1;
    var i :| 0 <= i < |reqs| && reqs[i] == r
             && forall j :: 0 <= j < |reqs| && j != i ==> reqs[j].userId != r.userId;
    if i < n {
      assert reqs[..n][i] == reqs[i];
    }
  }

  /** The board after a series of finalizations that sent these requests. */
  ghost function BoardRun(svc: Service, s: Leaderboard.Store, worlds: seq<World>, calls: seq<seq<Leaderboard.Request>>)
    : Leaderboard.Store
    requires svc.leaderboard != null && |worlds| == |calls|
  {
    if calls == [] then s
    else
      var n := |calls| - 1;
      svc.BoardAfter(BoardRun(svc, s, worlds[..n], calls[..n]), worlds[n], calls[n])
  }

  lemma OneMore(n: int, x: int)
    ensures (n + 1) * x == n * x + x
  {
  }

  /** The call counts on the main board's window w. */
  ghost predicate CountsOn(svc: Service, world: World, w: nat) {
    world.statusOk && svc.Counts(world) && !ToRoom(world.eligibility) && Reaches(world, w)
  }

  /** The total that finalization gives these answers in each of the calls, summed. */
  function SumTotals(c: Config, a: seq<Answer>, worlds: seq<World>): int {
    if worlds == [] then 0
    else
      var n := |worlds| - 1;
      SumTotals(c, a, worlds[..n]) + Final(c, a, worlds[n].now, Timeout(worlds[n].config)).total
  }

  /** The request that a finalization sends for a registered player with these answers. */
  function Expected(svc: Service, st: PlayerState, questionCount: int, world: World, won: bool): Leaderboard.Request {
    Leaderboard.Request(svc.uuidText(st.userId), st.username,
                        Final(svc.engine.config, st.answers, world.now, Timeout(world.config)).total,
                        CorrectCount(st.answers), questionCount, won, [], true)
  }

  lemma OneCallCounts(svc: Service, s: Leaderboard.Store, world: World, reqs: seq<Leaderboard.Request>, w: nat,
                      r: Leaderboard.Request)
    requires svc.leaderboard != null && Distinct(svc.leaderboard.windows) && w < |svc.leaderboard.windows|
    requires CountsOn(svc, world, w) && OnlyRequest(reqs, r) && r.eligible
    requires forall i :: 0 <= i < |reqs| ==> reqs[i].windows == []
    ensures var lb := svc.leaderboard;
            var before := Leaderboard.Shown(lb.prefix, s, lb.windows[w], r.userId);
            var after := Leaderboard.Shown(lb.prefix, svc.BoardAfter(s, world, reqs), lb.windows[w], r.userId);
            && after.score == before.score + r.score && after.games == before.games + 1
            && after.wins == before.wins + (if r.won then 1 else 0)
            && after.correct == before.correct + r.correctCount && after.questions == before.questions + r.questionCount
  {
    var lb := svc.leaderboard;
    var us := RoutedAll(lb.windows, false, RoomCode(world.eligibility), world.routing, reqs, world.failAt);
    RoutedOnce(lb.windows, world, RoomCode(world.eligibility), reqs, w, r);
    Leaderboard.CountersAdd(lb.prefix, s, us, lb.windows[w], r.userId);
    var a := Leaderboard.Applied(us, lb.windows[w], r.userId);
    assert a[..0] == [] && Leaderboard.Fold(a) == Leaderboard.Worth(r, 1);
  }

  /** The same once the winners are marked among `reqs`. */
  ghost function Sends(svc: Service, st: PlayerState, questionCount: int, world: World, reqs: seq<Leaderboard.Request>)
    : Leaderboard.Request
  {
    Expected(svc, st, questionCount, world, Tops(reqs, svc.uuidText(st.userId)))
  }

  lemma {:induction false} BoardRunCounts(svc: Service, s: Leaderboard.Store, worlds: seq<World>,
                                          calls: seq<seq<Leaderboard.Request>>, w: nat, st: PlayerState, q: int)
    requires svc.leaderboard != null && Distinct(svc.leaderboard.windows) && w < |svc.leaderboard.windows|
    requires |worlds| == |calls|
    requires forall k :: 0 <= k < |calls| ==>
               CountsOn(svc, worlds[k], w) && OnlyRequest(calls[k], Sends(svc, st, q, worlds[k], calls[k]))
    requires forall k, i :: 0 <= k < |calls| && 0 <= i < |calls[k]| ==> calls[k][i].windows == []
    ensures var lb, u := svc.leaderboard, svc.uuidText(st.userId);
            var before := Leaderboard.Shown(lb.prefix, s, lb.windows[w], u);
            var after := Leaderboard.Shown(lb.prefix, BoardRun(svc, s, worlds, calls), lb.windows[w], u);
            && after.games == before.games + |calls| && after.wins == before.wins + TimesOnTop(calls, u)
            && after.score == before.score + SumTotals(svc.engine.config, st.answers, worlds)
            && after.correct == before.correct + |calls| * CorrectCount(st.answers)
            && after.questions == before.questions + |calls| * q
    decreases |calls|
  {
    if calls != [] {
      var n := |calls| - 1;
      BoardRunCounts(svc, s, worlds[..n], calls[..n], w, st, q);
      OneCallCounts(svc, BoardRun(svc, s, worlds[..n], calls[..n]), worlds[n], calls[n], w,
                    Sends(svc, st, q, worlds[n], calls[n]));
      OneMore(n, CorrectCount(st.answers));
      OneMore(n, q);
    }
  }

  /** Finalizations of one match one after the other, as FinalizeMatch's contract links them: call k reads
      stores[k], lists its readable records as lists[k] in any order, leaves stores[k + 1] (writes may be
      refused), and sends calls[k]. */
  ghost predicate Rounds(svc: Service, matchId: Id, qs: seq<PackItem>, worlds: seq<World>,
                         stores: seq<map<Key, PlayerState>>, lists: seq<seq<PlayerState>>,
                         calls: seq<seq<Leaderboard.Request>>)
  {
    && |stores| == |worlds| + 1 && |lists| == |calls| == |worlds|
    && forall k :: 0 <= k < |worlds| ==>
         && Listed(stores[k], matchId, worlds[k].unreadable, lists[k])
         && svc.FinalStore(stores[k], matchId, qs, worlds[k], stores[k + 1])
         && svc.Sent(lists[k], qs, worlds[k], true, calls[k])
  }

  /** Records are filed under their own user. */
  ghost predicate Filed(store: map<Key, PlayerState>) {
    forall k :: k in store ==> store[k].userId == k.userId
  }

  /** The same answers with nothing but wrong ones added. */
  ghost predicate PaddedFrom(a: seq<Answer>, b: seq<Answer>) {
    a <= b && AllWrong(b[|a|..])
  }

  lemma PaddedFurther(a: seq<Answer>, b: seq<Answer>, pad: seq<Answer>)
    requires PaddedFrom(a, b) && AllWrong(pad)
    ensures PaddedFrom(a, b + pad)
  {
    assert (b + pad)[|a|..] == b[|a|..] + pad;
  }

  /** Padding changes neither the correct answers nor the total at any clock. */
  lemma PaddedScoresSame(c: Config, a: seq<Answer>, b: seq<Answer>, now: int, timeout: int)
    requires PaddedFrom(a, b)
    ensures CorrectCount(b) == CorrectCount(a) && Final(c, b, now, timeout).total == Final(c, a, now, timeout).total
  {
    assert b == a + b[|a|..];
    PaddingKeepsCounts(a, b[|a|..]);
    PaddingKeepsFinal(c, a, b[|a|..], now, timeout);
  }

  /** The same players, with answers padded at most. */
  ghost predicate Carried(was: map<Key, PlayerState>, store: map<Key, PlayerState>) {
    && was.Keys == store.Keys
    && forall k :: k in was ==>
         && store[k].userId == was[k].userId && store[k].username == was[k].username
         && store[k].isGuest == was[k].isGuest && PaddedFrom(was[k].answers, store[k].answers)
  }

  lemma FinalStoreCarries(svc: Service, first: map<Key, PlayerState>, was: map<Key, PlayerState>, matchId: Id,
                          qs: seq<PackItem>, world: World, done: map<Key, PlayerState>)
    requires Carried(first, was) && svc.FinalStore(was, matchId, qs, world, done)
    ensures Carried(first, done)
  {
    forall k | k in first
      ensures done[k].userId == first[k].userId && done[k].username == first[k].username
              && done[k].isGuest == first[k].isGuest && PaddedFrom(first[k].answers, done[k].answers)
    {
      var pad := Padding(Orders(was[k].answers), qs, world.now);
      PaddingIsWrong(Orders(was[k].answers), qs, world.now);
      PaddedFurther(first[k].answers, was[k].answers, pad);
    }
  }

  lemma {:induction false} RoundsCarry(svc: Service, matchId: Id, qs: seq<PackItem>, worlds: seq<World>,
                                       stores: seq<map<Key, PlayerState>>, lists: seq<seq<PlayerState>>,
                                       calls: seq<seq<Leaderboard.Request>>, k: nat)
    requires Rounds(svc, matchId, qs, worlds, stores, lists, calls) && k <= |worlds|
    ensures Carried(stores[0], stores[k])
  {
    if k > 0 {
      RoundsCarry(svc, matchId, qs, worlds, stores, lists, calls, k - 1);
      FinalStoreCarries(svc, stores[0], stores[k - 1], matchId, qs, worlds[k - 1], stores[k]);
    }
  }

  /** No other registered player of the match has the user's id text. */
  ghost predicate NameUnique(text: Id -> Uuid, store: map<Key, PlayerState>, matchId: Id, user: Id) {
    forall k :: k in store && k.matchId == matchId && !store[k].isGuest && text(k.userId) == text(user) ==>
      k.userId == user
  }

  lemma FinalsNamedAlone(svc: Service, store: map<Key, PlayerState>, key: Key, qs: seq<PackItem>, world: World,
                         states: seq<PlayerState>, i: nat)
    requires Listed(store, key.matchId, world.unreadable, states) && Filed(store) && key in store
    requires NameUnique(svc.uuidText, store, key.matchId, key.userId) && i < |states| && states[i] == store[key]
    ensures NamedAlone(svc.uuidText, svc.Finals(states, qs, world), i)
  {
    var finals := svc.Finals(states, qs, world);
    forall a | 0 <= a < |finals| && a != i && !finals[a].isGuest
      ensures svc.uuidText(finals[a].userId) != svc.uuidText(finals[i].userId)
    {
      assert states[a].userId != states[i].userId;
      assert Key(key.matchId, states[a].userId) in store;
    }
  }

  lemma DecidedOnlyRequest(reqs: seq<Leaderboard.Request>, decided: seq<Leaderboard.Request>, r: Leaderboard.Request)
    requires Decided(reqs, decided) && OnlyRequest(reqs, r)
    ensures OnlyRequest(decided, r.(won := Tops(decided, r.userId)))
  {
    var i :| 0 <= i < |reqs| && reqs[i] == r
             && forall j :: 0 <= j < |reqs| && j != i ==> reqs[j].userId != r.userId;
    assert decided[i] == reqs[i].(won := decided[i].won);
    forall j | 0 <= j < |decided|
      ensures decided[j].score == reqs[j].score && (j != i ==> decided[j].userId != r.userId)
    {
      assert decided[j] == reqs[j].(won := decided[j].won);
    }
  }

  lemma {:induction false} RequestsHaveNoWindows(text: Id -> Uuid, finals: seq<PlayerState>, q: int)
    requires Scored(finals)
    ensures forall k :: 0 <= k < |Requests(text, finals, q)| ==> Requests(text, finals, q)[k].windows == []
    decreases |finals|
  {
    if finals != [] {
      RequestsHaveNoWindows(text, finals[..|finals| - 1], q);
    }
  }

  /** A call that reads a registered player's record sends one request for that player. */
  lemma OneCallRequests(svc: Service, store: map<Key, PlayerState>, key: Key, qs: seq<PackItem>, world: World,
                        states: seq<PlayerState>, reqs: seq<Leaderboard.Request>)
    requires Listed(store, key.matchId, world.unreadable, states) && Filed(store)
    requires svc.Sent(states, qs, world, true, reqs)
    requires key in store && key.userId !in world.unreadable && !store[key].isGuest
    requires NameUnique(svc.uuidText, store, key.matchId, key.userId)
    ensures OnlyRequest(reqs, Sends(svc, store[key], |qs|, world, reqs))
    ensures forall j :: 0 <= j < |reqs| ==> reqs[j].windows == []
  {
    var i :| 0 <= i < |states| && states[i] == store[key];
    FinalsNamedAlone(svc, store, key, qs, world, states, i);
    var finals := svc.Finals(states, qs, world);
    var sent := Requests(svc.uuidText, finals, |qs|);
    RequestsCover(svc.uuidText, finals, |qs|, i);
    RequestsHaveNoWindows(svc.uuidText, finals, |qs|);
    DecidedOnlyRequest(sent, reqs, RequestOf(svc.uuidText, finals[i], |qs|));
    PaddingIsWrong(Orders(store[key].answers), qs, world.now);
    PaddedFurther(store[key].answers, store[key].answers, Padding(Orders(store[key].answers), qs, world.now));
    PaddedScoresSame(svc.engine.config, store[key].answers, finals[i].answers, world.now, Timeout(world.config));
    forall j | 0 <= j < |reqs| ensures reqs[j].windows == [] {
      assert reqs[j] == sent[j].(won := reqs[j].won);
    }
  }

  /** Nothing marks a match as already finalized, so every further call that can read a registered player's
      record counts the same game, the same correct answers and the same questions again, the total that the
      same answers have at its clock, and a win if no request of that call has a higher one, in whatever order
      it lists the records and whichever of its writes are refused. */
  lemma RepeatedFinalizationCountsAgain(svc: Service, matchId: Id, qs: seq<PackItem>, worlds: seq<World>,
                                        stores: seq<map<Key, PlayerState>>, lists: seq<seq<PlayerState>>,
                                        calls: seq<seq<Leaderboard.Request>>, s: Leaderboard.Store, user: Id, w: nat)
    requires Rounds(svc, matchId, qs, worlds, stores, lists, calls) && Filed(stores[0])
    requires Key(matchId, user) in stores[0] && !stores[0][Key(matchId, user)].isGuest
    requires NameUnique(svc.uuidText, stores[0], matchId, user)
    requires svc.leaderboard != null && Distinct(svc.leaderboard.windows) && w < |svc.leaderboard.windows|
    requires forall k :: 0 <= k < |worlds| ==> CountsOn(svc, worlds[k], w) && user !in worlds[k].unreadable
    ensures var lb, u, a := svc.leaderboard, svc.uuidText(user), stores[0][Key(matchId, user)].answers;
            var before := Leaderboard.Shown(lb.prefix, s, lb.windows[w], u);
            var after := Leaderboard.Shown(lb.prefix, BoardRun(svc, s, worlds, calls), lb.windows[w], u);
            && after.games == before.games + |worlds| && after.wins == before.wins + TimesOnTop(calls, u)
            && after.score == before.score + SumTotals(svc.engine.config, a, worlds)
            && after.correct == before.correct + |worlds| * CorrectCount(a)
            && after.questions == before.questions + |worlds| * |qs|
  {
    var key := Key(matchId, user);
    var st := stores[0][key];
    forall k | 0 <= k < |calls|
      ensures OnlyRequest(calls[k], Sends(svc, st, |qs|, worlds[k], calls[k]))
              && forall j :: 0 <= j < |calls[k]| ==> calls[k][j].windows == []
    {
      RoundsCarry(svc, matchId, qs, worlds, stores, lists, calls, k);
      OneCallRequests(svc, stores[k], key, qs, worlds[k], lists[k], calls[k]);
      PaddedScoresSame(svc.engine.config, st.answers, stores[k][key].answers, worlds[k].now, Timeout(worlds[k].config));
    }
    BoardRunCounts(svc, s, worlds, calls, w, st, |qs|);
  }

  /** With one timeout and clocks no earlier than the first, the summed totals are at most as many times the
      first one. */
  lemma {:induction false} RepeatedTotalAtMost(c: Config, a: seq<Answer>, worlds: seq<World>, first: World)
    requires c.maxTimeBonus >= 0
    requires forall k :: 0 <= k < |worlds| ==> first.now <= worlds[k].now && Timeout(worlds[k].config)
                                                                             == Timeout(first.config)
    ensures SumTotals(c, a, worlds) <= |worlds| * Final(c, a, first.now, Timeout(first.config)).total
    decreases |worlds|
  {
    if worlds != [] {
      var n := |worlds| - 1;
      RepeatedTotalAtMost(c, a, worlds[..n], first);
      FinalizingLater(c, a, first.now, worlds[n].now, Timeout(first.config));
      OneMore(n, Final(c, a, first.now, Timeout(first.config)).total);
    }
  }

  /** A finalization in which every call is answered. */
  function CalmWorld(now: int): World {
    World(0, now, true, true, true, true, {}, {}, Some(Summary(true, MODE_RANDOM, 15, "")),
          Some(Summary(true, MODE_RANDOM, 15, "")), _ => Some(Summary(true, MODE_RANDOM, 15, "")), true, _ => 10)
  }

  /** The two finalizations of the instance below, a minute apart, link up. */
  lemma TwoRounds(svc: Service, st: PlayerState, qs: seq<PackItem>, worlds: seq<World>)
    returns (stores: seq<map<Key, PlayerState>>, lists: seq<seq<PlayerState>>, calls: seq<seq<Leaderboard.Request>>)
    requires !st.isGuest && |worlds| == 2
    requires forall k :: 0 <= k < 2 ==> worlds[k].unreadable == {} && worlds[k].refuses == {}
    ensures Rounds(svc, 0, qs, worlds, stores, lists, calls) && stores[0] == map[Key(0, st.userId) := st]
  {
    var key, c := Key(0, st.userId), svc.engine.config;
    var st1 := Finalize(c, st, qs, worlds[0].now, Timeout(worlds[0].config));
    var st2 := Finalize(c, st1, qs, worlds[1].now, Timeout(worlds[1].config));
    stores, lists := [map[key := st], map[key := st1], map[key := st2]], [[st], [st1]];
    calls := [[RequestOf(svc.uuidText, st1, |qs|).(won := true)], [RequestOf(svc.uuidText, st2, |qs|).(won := true)]];
    OneListed(svc, st, st.userId, qs, worlds[0]);
    OneListed(svc, st1, st.userId, qs, worlds[1]);
  }

  lemma CalmCounts(svc: Service, now: int)
    requires svc.leaderboard != null
    ensures CountsOn(svc, CalmWorld(now), 0)
  {
  }

  /** An instance, so that the conditions above are seen to hold together: a registered player alone in a
      match, whatever was answered, and two finalizations a minute apart in which every call is answered.
      Both count: two games for one match. */
  lemma TwoFinalizationsCountTwice(svc: Service, st: PlayerState, qs: seq<PackItem>, s: Leaderboard.Store)
    returns (stores: seq<map<Key, PlayerState>>, lists: seq<seq<PlayerState>>, calls: seq<seq<Leaderboard.Request>>)
    requires svc.leaderboard != null && Distinct(svc.leaderboard.windows) && svc.leaderboard.windows != []
    requires !st.isGuest
    ensures var worlds := [CalmWorld(0), CalmWorld(60 * SECOND)];
            && Rounds(svc, 0, qs, worlds, stores, lists, calls) && stores[0] == map[Key(0, st.userId) := st]
            && var lb, u := svc.leaderboard, svc.uuidText(st.userId);
               Leaderboard.Shown(lb.prefix, BoardRun(svc, s, worlds, calls), lb.windows[0], u).games
               == Leaderboard.Shown(lb.prefix, s, lb.windows[0], u).games + 2
  {
    var worlds := [CalmWorld(0), CalmWorld(60 * SECOND)];
    CalmCounts(svc, 0);
    CalmCounts(svc, 60 * SECOND);
    stores, lists, calls := TwoRounds(svc, st, qs, worlds);
    RepeatedFinalizationCountsAgain(svc, 0, qs, worlds, stores, lists, calls, s, st.userId, 0);
  }

  /** One round of a match with one registered player, every call answered. */
  lemma OneListed(svc: Service, st: PlayerState, user: Id, qs: seq<PackItem>, world: World)
    requires st.userId == user && !st.isGuest && world.unreadable == {} && world.refuses == {}
    ensures var final := Finalize(svc.engine.config, st, qs, world.now, Timeout(world.config));
            && Listed(map[Key(0, user) := st], 0, world.unreadable, [st])
            && svc.FinalStore(map[Key(0, user) := st], 0, qs, world, map[Key(0, user) := final])
            && svc.Sent([st], qs, world, true, [RequestOf(svc.uuidText, final, |qs|).(won := true)])
  {
    OneSent(svc, st, qs, world);
  }

  lemma OneSent(svc: Service, st: PlayerState, qs: seq<PackItem>, world: World)
    requires !st.isGuest
    ensures var final := Finalize(svc.engine.config, st, qs, world.now, Timeout(world.config));
            svc.Sent([st], qs, world, true, [RequestOf(svc.uuidText, final, |qs|).(won := true)])
  {
    var final := Finalize(svc.engine.config, st, qs, world.now, Timeout(world.config));
    assert svc.Finals([st], qs, world) == [] + [final];
    RequestsStep(svc.uuidText, [], final, |qs|);
    assert Requests(svc.uuidText, [final], |qs|) == [RequestOf(svc.uuidText, final, |qs|)];
  }
}
