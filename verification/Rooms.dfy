/** Private rooms (internal/match/room.go) and the interleaving of the join handlers that use them
    (handleJoinPrivate, internal/match/handler.go:183-254). */
module Rooms {
  import opened Common

  datatype RoomStatus = Waiting | Starting | Active

  datatype RoomPlayer = RoomPlayer(userId: Id, username: string, isGuest: bool, isHost: bool)

  datatype RoomRequest = RoomRequest(
    hostId: Id, username: string, isGuest: bool, matchName: string,
    maxPlayers: int, questionCount: int, perQuestionSeconds: int, category: string)

  datatype Room = Room(
    code: string, matchId: Option<Id>, hostId: Id, matchName: string,
    maxPlayers: int, questionCount: int, perQuestionSeconds: int, category: string,
    players: seq<RoomPlayer>, status: RoomStatus, startCountdown: int)

  type RoomMap = map<string, Room>

  function NewRoom(req: RoomRequest, code: string): Room {
    Room(code, None, req.hostId, req.matchName, req.maxPlayers, req.questionCount, req.perQuestionSeconds,
         if req.category == "" then "general" else req.category,
         [RoomPlayer(req.hostId, req.username, false, true)], Waiting, 5)
  }

  predicate HasPlayer(room: Room, userId: Id) {
    exists i :: 0 <= i < |room.players| && room.players[i].userId == userId
  }

  /** None when the user may join, else the refusal, checked in the source's order. */
  function JoinRefusal(rooms: RoomMap, code: string, userId: Id): Option<string> {
    if code !in rooms then Some("room not found")
    else if !rooms[code].status.Waiting? then Some("room not accepting players")
    else if |rooms[code].players| >= rooms[code].maxPlayers then Some("room full")
    else if HasPlayer(rooms[code], userId) then Some("user already in room")
    else if userId == rooms[code].hostId then Some("host cannot join their own room again")
    else None
  }

  function WithPlayer(room: Room, userId: Id, username: string, isGuest: bool): Room {
    room.(players := room.players + [RoomPlayer(userId, username, isGuest, false)])
  }

  function StartRefusal(rooms: RoomMap, code: string): Option<string> {
    if code !in rooms then Some("room not found")
    else if !rooms[code].status.Waiting? then Some("room cannot be started")
    else if |rooms[code].players| < 2 then Some("need at least 2 players")
    else None
  }

  function Started(room: Room, matchId: Id, countdown: int): Room {
    room.(matchId := Some(matchId), status := Starting,
          startCountdown := if countdown > 0 then countdown else room.startCountdown)
  }

  class RoomManager {
    var rooms: RoomMap

    constructor ()
      ensures rooms == map[]
    {
      rooms := map[];
    }

    /** `draws` are the codes the random generator offers, in turn; the first free one is taken. */
    method GenerateRoomCode(draws: seq<string>) returns (code: Option<string>)
      ensures code.Some? ==>
                exists i :: 0 <= i < |draws| && draws[i] == code.value && draws[i] !in rooms
                            && forall j :: 0 <= j < i ==> draws[j] in rooms
      ensures code.None? ==> forall i :: 0 <= i < |draws| ==> draws[i] in rooms
    {
      for i := 0 to |draws|
        invariant forall j :: 0 <= j < i ==> draws[j] in rooms
      {
        if draws[i] !in rooms {
          return Some(draws[i]);
        }
      }
      return None;
    }

    method CreateRoom(req: RoomRequest, draws: seq<string>) returns (r: Result<Room>)
      modifies this
      ensures req.isGuest ==> r == Err("guests cannot create private rooms") && rooms == old(rooms)
      ensures r.Ok? ==> r.value == NewRoom(req, r.value.code) && r.value.code !in old(rooms)
                        && rooms == old(rooms)[r.value.code := r.value]
      ensures r.Err? ==> rooms == old(rooms)
    {
      if req.isGuest {
        return Err("guests cannot create private rooms");
      }
      var code := GenerateRoomCode(draws);
      if code.None? {
        return Err("no code drawn");
      }
      var category := req.category;
      if category == "" {
        category := "general";
      }
      var room := Room(code.value, None, req.hostId, req.matchName, req.maxPlayers, req.questionCount,
                       req.perQuestionSeconds, category, [RoomPlayer(req.hostId, req.username, false, true)],
                       Waiting, 5);
      rooms := rooms[code.value := room];
      return Ok(room);
    }

    method JoinRoom(code: string, userId: Id, username: string, isGuest: bool) returns (r: Result<Room>)
      modifies this
      ensures match JoinRefusal(old(rooms), code, userId)
              case Some(why) => r == Err(why) && rooms == old(rooms)
              case None =>
                && r == Ok(WithPlayer(old(rooms)[code], userId, username, isGuest))
                && rooms == old(rooms)[code := WithPlayer(old(rooms)[code], userId, username, isGuest)]
    {
      if code !in rooms {
        return Err("room not found");
      }
      var room := rooms[code];
      if room.status != Waiting {
        return Err("room not accepting players");
      }
      if |room.players| >= room.maxPlayers {
        return Err("room full");
      }
      for i := 0 to |room.players|
        invariant forall j :: 0 <= j < i ==> room.players[j].userId != userId
      {
        if room.players[i].userId == userId {
          return Err("user already in room");
        }
      }
      if userId == room.hostId {
        return Err("host cannot join their own room again");
      }
      room := room.(players := room.players + [RoomPlayer(userId, username, isGuest, false)]);
      rooms := rooms[code := room];
      return Ok(room);
    }

    method StartRoom(code: string, matchId: Id, countdown: int) returns (r: Result<Room>)
      modifies this
      ensures match StartRefusal(old(rooms), code)
              case Some(why) => r == Err(why) && rooms == old(rooms)
              case None =>
                && r == Ok(Started(old(rooms)[code], matchId, countdown))
                && rooms == old(rooms)[code := Started(old(rooms)[code], matchId, countdown)]
    {
      if code !in rooms {
        return Err("room not found");
      }
      var room := rooms[code];
      if room.status != Waiting {
        return Err("room cannot be started");
      }
      if |room.players| < 2 {
        return Err("need at least 2 players");
      }
      room := room.(matchId := Some(matchId), status := Starting);
      if countdown > 0 {
        room := room.(startCountdown := countdown);
      }
      rooms := rooms[code := room];
      return Ok(room);
    }
  }

  // ---------------------------------------------------------------------------------------------
  // Interleaved handlers
  // ---------------------------------------------------------------------------------------------

  /** How a join handler ended. */
  datatype Outcome = Refused | NotSecond | HasMatch | CreateFailed | StartFailed | Launched

  /** Where a handler stands: room creation picks a code and inserts under separate locks; joining
      locks, then reads the room without the lock, creates the match, and locks again to start. */
  datatype Handler =
    | Picked(req: RoomRequest, code: string)
    | Inserted
    | Joining(user: Id, code: string)
    | Joined(user: Id, code: string)        // JoinRoom succeeded
    | Second(user: Id, code: string)        // saw two players and is not the host
    | Creating(user: Id, code: string)      // saw no match id: match creation is attempted
    | Created(user: Id, code: string, matchId: Id)
    | Ended(user: Id, code: string, outcome: Outcome)

  /** `joiners` lists the handlers that joined each room, in order; `attempts` the match creations. */
  datatype State = State(
    rooms: RoomMap,
    handlers: map<Id, Handler>,
    joiners: map<string, seq<Id>>,
    attempts: seq<(string, Id)>)

  datatype Step =
    | PickCode(h: Id, req: RoomRequest, code: string)
    | Insert(h: Id)
    | Arrive(h: Id, user: Id, code: string)
    | Join(h: Id, username: string, isGuest: bool)
    | CheckPlayers(h: Id)
    | CheckMatch(h: Id)
    | CreateMatch(h: Id, matchId: Option<Id>)
    | StartIt(h: Id)

  ghost predicate Enabled(s: State, step: Step) {
    match step
    case PickCode(h, req, code) => h !in s.handlers && !req.isGuest && code !in s.rooms
    case Insert(h) => h in s.handlers && s.handlers[h].Picked?
    case Arrive(h, _, _) => h !in s.handlers
    case Join(h, _, _) => h in s.handlers && s.handlers[h].Joining?
    case CheckPlayers(h) => h in s.handlers && s.handlers[h].Joined? && s.handlers[h].code in s.rooms
    case CheckMatch(h) => h in s.handlers && s.handlers[h].Second? && s.handlers[h].code in s.rooms
    case CreateMatch(h, _) => h in s.handlers && s.handlers[h].Creating?
    case StartIt(h) => h in s.handlers && s.handlers[h].Created? && s.handlers[h].code in s.rooms
  }

  ghost function Apply(s: State, step: Step): State
    requires Enabled(s, step)
  {
    match step
    case PickCode(h, req, code) => s.(handlers := s.handlers[h := Picked(req, code)])
    case Insert(h) =>
      var code := s.handlers[h].code;
      s.(rooms := s.rooms[code := NewRoom(s.handlers[h].req, code)],
         handlers := s.handlers[h := Inserted], joiners := s.joiners[code := []])
    case Arrive(h, user, code) => s.(handlers := s.handlers[h := Joining(user, code)])
    case Join(h, username, isGuest) =>
      var user, code := s.handlers[h].user, s.handlers[h].code;
      if JoinRefusal(s.rooms, code, user).Some? then s.(handlers := s.handlers[h := Ended(user, code, Refused)])
      else s.(rooms := s.rooms[code := WithPlayer(s.rooms[code], user, username, isGuest)],
              handlers := s.handlers[h := Joined(user, code)],
              joiners := s.joiners[code := (if code in s.joiners then s.joiners[code] else []) + [h]])
    case CheckPlayers(h) =>
      var user, code := s.handlers[h].user, s.handlers[h].code;
      if |s.rooms[code].players| == 2 && user != s.rooms[code].hostId
      then s.(handlers := s.handlers[h := Second(user, code)])
      else s.(handlers := s.handlers[h := Ended(user, code, NotSecond)])
    case CheckMatch(h) =>
      var user, code := s.handlers[h].user, s.handlers[h].code;
      if s.rooms[code].matchId.None?
      then s.(handlers := s.handlers[h := Creating(user, code)], attempts := s.attempts + [(code, h)])
      else s.(handlers := s.handlers[h := Ended(user, code, HasMatch)])
    case CreateMatch(h, matchId) =>
      var user, code := s.handlers[h].user, s.handlers[h].code;
      s.(handlers := s.handlers[h := match matchId
                                     case Some(m) => Created(user, code, m)
                                     case None => Ended(user, code, CreateFailed)])
    case StartIt(h) =>
      var user, code := s.handlers[h].user, s.handlers[h].code;
      if StartRefusal(s.rooms, code).Some? then s.(handlers := s.handlers[h := Ended(user, code, StartFailed)])
      else s.(rooms := s.rooms[code := Started(s.rooms[code], s.handlers[h].matchId, s.rooms[code].startCountdown)],
              handlers := s.handlers[h := Ended(user, code, Launched)])
  }

  ghost predicate Init(s: State) {
    s == State(map[], map[], map[], [])
  }

  ghost predicate Chain(tr: seq<State>, steps: seq<Step>) {
    && |tr| == |steps| + 1
    && forall i :: 0 <= i < |steps| ==> Enabled(tr[i], steps[i]) && tr[i + 1] == Apply(tr[i], steps[i])
  }

  /** No two room creations in flight have picked the same code. */
  ghost predicate DistinctCodes(s: State) {
    forall h1, h2 :: (h1 in s.handlers && h2 in s.handlers && s.handlers[h1].Picked? && s.handlers[h2].Picked?
                      && s.handlers[h1].code == s.handlers[h2].code) ==> h1 == h2
  }

  /** A run in which room codes are distinct. */
  ghost predicate Run(tr: seq<State>, steps: seq<Step>) {
    Chain(tr, steps) && Init(tr[0]) && forall i :: 0 <= i <= |steps| ==> DistinctCodes(tr[i])
  }

  // ---------------------------------------------------------------------------------------------
  // Invariants
  // ---------------------------------------------------------------------------------------------

  ghost predicate RoomOk(r: Room) {
    && |r.players| >= 1 && r.players[0].userId == r.hostId
    && (forall i, j :: 0 <= i < j < |r.players| ==> r.players[i].userId != r.players[j].userId)
    && |r.players| <= Max(1, r.maxPlayers)
    && (r.matchId.Some? <==> !r.status.Waiting?)
  }

  ghost predicate InRoom(h: Handler) {
    h.Joined? || h.Second? || h.Creating? || h.Created? || (h.Ended? && !h.outcome.Refused?)
  }

  /** The handler has got past the check for two players. */
  ghost predicate PastCheck(h: Handler) {
    h.Second? || h.Creating? || h.Created? || (h.Ended? && !h.outcome.Refused? && !h.outcome.NotSecond?)
  }

  /** The handler has attempted to create a match. */
  ghost predicate Attempted(h: Handler) {
    || h.Creating? || h.Created?
    || (h.Ended? && (h.outcome.CreateFailed? || h.outcome.StartFailed? || h.outcome.Launched?))
  }

  ghost predicate RoomsInv(s: State) {
    && s.rooms.Keys == s.joiners.Keys
    && (forall c :: c in s.rooms ==> RoomOk(s.rooms[c]) && |s.joiners[c]| == |s.rooms[c].players| - 1)
    && (forall h :: h in s.handlers && s.handlers[h].Picked? ==> s.handlers[h].code !in s.rooms)
  }

  /** Handler g is in room c, for the player next to the i-th. */
  ghost predicate IsJoiner(s: State, c: string, i: nat, g: Id) {
    && g in s.handlers && InRoom(s.handlers[g]) && s.handlers[g].code == c
    && c in s.rooms && i + 1 < |s.rooms[c].players| && s.rooms[c].players[i + 1].userId == s.handlers[g].user
  }

  /** The handlers in a room are its joiners, each for its own player; only the first got past the check. */
  ghost predicate JoinersInv(s: State) {
    && (forall c, i :: c in s.joiners && 0 <= i < |s.joiners[c]| ==> IsJoiner(s, c, i, s.joiners[c][i]))
    && (forall c, i, j :: c in s.joiners && 0 <= i < j < |s.joiners[c]| ==> s.joiners[c][i] != s.joiners[c][j])
    && (forall h :: h in s.handlers && InRoom(s.handlers[h]) ==>
          s.handlers[h].code in s.joiners && h in s.joiners[s.handlers[h].code])
    && (forall h :: h in s.handlers && PastCheck(s.handlers[h]) ==>
          && s.handlers[h].code in s.joiners
          && s.joiners[s.handlers[h].code] != [] && s.joiners[s.handlers[h].code][0] == h)
  }

  /** The recorded attempts are those of the handlers that made one, once each. */
  ghost predicate AttemptsInv(s: State) {
    && (forall i :: 0 <= i < |s.attempts| ==>
          && s.attempts[i].1 in s.handlers && Attempted(s.handlers[s.attempts[i].1])
          && s.handlers[s.attempts[i].1].code == s.attempts[i].0)
    && (forall i, j :: 0 <= i < j < |s.attempts| ==> s.attempts[i].1 != s.attempts[j].1)
  }

  ghost predicate Inv(s: State) {
    RoomsInv(s) && JoinersInv(s) && AttemptsInv(s)
  }

  /** Steps by which a handler in a room moves on and leaves rooms and joiners alone, or only starts
      the room. */
  ghost predicate Inside(step: Step) {
    step.CheckPlayers? || step.CheckMatch? || step.CreateMatch? || step.StartIt?
  }

  /** What a step inside leaves: one handler moved on, same user and code; at most a room started. */
  ghost predicate Moved(s: State, s': State, h: Id) {
    && h in s.handlers && InRoom(s.handlers[h]) && s'.handlers.Keys == s.handlers.Keys
    && (forall g :: g in s.handlers && g != h ==> s'.handlers[g] == s.handlers[g])
    && InRoom(s'.handlers[h]) && s'.handlers[h].user == s.handlers[h].user && s'.handlers[h].code == s.handlers[h].code
    && s'.joiners == s.joiners && s'.rooms.Keys == s.rooms.Keys
    && (forall c :: c in s.rooms ==>
          && s'.rooms[c].players == s.rooms[c].players && s'.rooms[c].maxPlayers == s.rooms[c].maxPlayers
          && s'.rooms[c].hostId == s.rooms[c].hostId)
  }

  lemma InsideMoves(s: State, step: Step)
    requires Enabled(s, step) && Inside(step)
    ensures Moved(s, Apply(s, step), step.h)
  {
  }

  lemma StartKeepsRoomOk(s: State, step: Step, c: string)
    requires Enabled(s, step) && Inside(step) && c in s.rooms && RoomOk(s.rooms[c])
    ensures c in Apply(s, step).rooms && RoomOk(Apply(s, step).rooms[c])
  {
  }

  lemma RoomsInvInside(s: State, step: Step)
    requires RoomsInv(s) && Enabled(s, step) && Inside(step)
    ensures RoomsInv(Apply(s, step))
  {
    var s' := Apply(s, step);
    InsideMoves(s, step);
    forall c | c in s'.rooms ensures RoomOk(s'.rooms[c]) {
      StartKeepsRoomOk(s, step, c);
    }
  }

  lemma RoomsInvJoin(s: State, step: Step)
    requires RoomsInv(s) && Enabled(s, step) && step.Join?
    ensures RoomsInv(Apply(s, step))
  {
    var s' := Apply(s, step);
    var user, c := s.handlers[step.h].user, s.handlers[step.h].code;
    if JoinRefusal(s.rooms, c, user).None? {
      var r, r' := s.rooms[c], s'.rooms[c];
      assert forall i :: 0 <= i < |r.players| ==> r'.players[i] == r.players[i] && r.players[i].userId != user;
      assert RoomOk(r');
    }
  }

  lemma RoomsInvCreate(s: State, step: Step)
    requires RoomsInv(s) && DistinctCodes(s) && Enabled(s, step) && (step.PickCode? || step.Insert? || step.Arrive?)
    ensures RoomsInv(Apply(s, step))
  {
  }

  lemma RoomsInvStep(s: State, step: Step)
    requires RoomsInv(s) && DistinctCodes(s) && Enabled(s, step)
    ensures RoomsInv(Apply(s, step))
  {
    if step.Join? {
      RoomsInvJoin(s, step);
    } else if Inside(step) {
      RoomsInvInside(s, step);
    } else {
      RoomsInvCreate(s, step);
    }
  }

  /** What a successful join leaves. */
  ghost predicate JoinedBy(s: State, s': State, h: Id, user: Id, c: string) {
    && h in s.handlers && s.handlers[h] == Joining(user, c) && c in s.rooms && c in s.joiners
    && (exists username, isGuest :: s'.rooms == s.rooms[c := WithPlayer(s.rooms[c], user, username, isGuest)])
    && s'.handlers == s.handlers[h := Joined(user, c)]
    && s'.joiners == s.joiners[c := s.joiners[c] + [h]] && s'.attempts == s.attempts
  }

  lemma JoinEffect(s: State, step: Step)
    requires RoomsInv(s) && Enabled(s, step) && step.Join?
    requires JoinRefusal(s.rooms, s.handlers[step.h].code, s.handlers[step.h].user).None?
    ensures JoinedBy(s, Apply(s, step), step.h, s.handlers[step.h].user, s.handlers[step.h].code)
  {
    assert Apply(s, step).rooms == s.rooms[s.handlers[step.h].code :=
      WithPlayer(s.rooms[s.handlers[step.h].code], s.handlers[step.h].user, step.username, step.isGuest)];
  }

  lemma JoinKeepsMembers(s: State, s': State, h: Id, user: Id, c: string)
    requires RoomsInv(s) && JoinersInv(s) && JoinedBy(s, s', h, user, c)
    ensures forall g :: g in s'.handlers && InRoom(s'.handlers[g]) ==>
              s'.handlers[g].code in s'.joiners && g in s'.joiners[s'.handlers[g].code]
    ensures forall g :: g in s'.handlers && PastCheck(s'.handlers[g]) ==>
              s'.joiners[s'.handlers[g].code] != [] && s'.joiners[s'.handlers[g].code][0] == g
  {
    var js, js' := s.joiners[c], s'.joiners[c];
    assert js'[|js|] == h;
    assert forall i :: 0 <= i < |js| ==> js'[i] == js[i];
  }

  lemma JoinKeepsPlaces(s: State, s': State, h: Id, user: Id, c: string)
    requires RoomsInv(s) && JoinersInv(s) && JoinedBy(s, s', h, user, c)
    ensures forall d, i :: d in s'.joiners && 0 <= i < |s'.joiners[d]| ==> IsJoiner(s', d, i, s'.joiners[d][i])
  {
    var n := |s.joiners[c]|;
    var ps, ps' := s.rooms[c].players, s'.rooms[c].players;
    assert forall i :: 0 <= i < |ps| ==> ps'[i] == ps[i];
    assert ps'[|ps|].userId == user && |ps| == n + 1;
    forall d, i | d in s'.joiners && 0 <= i < |s'.joiners[d]| ensures IsJoiner(s', d, i, s'.joiners[d][i]) {
      if d != c || i < n {
        assert s'.joiners[d][i] == s.joiners[d][i] && IsJoiner(s, d, i, s.joiners[d][i]);
      }
    }
  }

  lemma JoinKeepsApart(s: State, s': State, h: Id, user: Id, c: string, d: string, i: nat, j: nat)
    requires RoomsInv(s) && JoinersInv(s) && JoinedBy(s, s', h, user, c)
    requires d in s'.joiners && i < j < |s'.joiners[d]|
    ensures s'.joiners[d][i] != s'.joiners[d][j]
  {
    if d == c {
      var js := s.joiners[c];
      assert s'.joiners[c][i] == js[i] && IsJoiner(s, c, i, js[i]);
    }
  }

  lemma JoinKeepsOrder(s: State, s': State, h: Id, user: Id, c: string)
    requires RoomsInv(s) && JoinersInv(s) && JoinedBy(s, s', h, user, c)
    ensures JoinersInv(s')
  {
    JoinKeepsMembers(s, s', h, user, c);
    JoinKeepsPlaces(s, s', h, user, c);
    forall d, i, j | d in s'.joiners && 0 <= i < j < |s'.joiners[d]| ensures s'.joiners[d][i] != s'.joiners[d][j] {
      JoinKeepsApart(s, s', h, user, c, d, i, j);
    }
  }

  lemma JoinersInvJoin(s: State, step: Step)
    requires Inv(s) && Enabled(s, step) && step.Join?
    ensures JoinersInv(Apply(s, step))
  {
    var user, c := s.handlers[step.h].user, s.handlers[step.h].code;
    if JoinRefusal(s.rooms, c, user).None? {
      JoinEffect(s, step);
      JoinKeepsOrder(s, Apply(s, step), step.h, user, c);
    } else {
      OutsideKeepsJoiners(s, step.h, Ended(user, c, Refused));
    }
  }

  /** A handler that is in no room and stays in none changes nothing for the joiners. */
  lemma OutsideKeepsJoiners(s: State, h: Id, x: Handler)
    requires JoinersInv(s) && (h in s.handlers ==> !InRoom(s.handlers[h])) && !InRoom(x)
    ensures JoinersInv(s.(handlers := s.handlers[h := x]))
  {
    var s' := s.(handlers := s.handlers[h := x]);
    assert forall g :: g in s'.handlers && InRoom(s'.handlers[g]) ==>
                         g != h && g in s.handlers && s'.handlers[g] == s.handlers[g];
    forall c, i | c in s.joiners && 0 <= i < |s.joiners[c]| ensures IsJoiner(s', c, i, s.joiners[c][i]) {
      assert IsJoiner(s, c, i, s.joiners[c][i]);
    }
  }

  /** Nor does a new room that nobody has joined. */
  lemma EmptyRoomKeepsJoiners(s: State, c: string, r: Room)
    requires JoinersInv(s) && c !in s.joiners
    ensures JoinersInv(s.(rooms := s.rooms[c := r], joiners := s.joiners[c := []]))
  {
    var s' := s.(rooms := s.rooms[c := r], joiners := s.joiners[c := []]);
    assert forall d :: d in s.joiners ==> d != c && s'.joiners[d] == s.joiners[d];
    forall d, i | d in s'.joiners && 0 <= i < |s'.joiners[d]| ensures IsJoiner(s', d, i, s'.joiners[d][i]) {
      assert IsJoiner(s, d, i, s.joiners[d][i]);
    }
  }

  lemma JoinersInvCreate(s: State, step: Step)
    requires RoomsInv(s) && JoinersInv(s) && Enabled(s, step) && (step.PickCode? || step.Insert? || step.Arrive?)
    ensures JoinersInv(Apply(s, step))
  {
    match step
    case PickCode(h, req, code) => OutsideKeepsJoiners(s, h, Picked(req, code));
    case Insert(h) =>
      var c, r := s.handlers[h].code, NewRoom(s.handlers[h].req, s.handlers[h].code);
      EmptyRoomKeepsJoiners(s, c, r);
      OutsideKeepsJoiners(s.(rooms := s.rooms[c := r], joiners := s.joiners[c := []]), h, Inserted);
    case Arrive(h, user, code) => OutsideKeepsJoiners(s, h, Joining(user, code));
  }

  lemma JoinersInvInside(s: State, step: Step)
    requires Inv(s) && Enabled(s, step) && Inside(step)
    ensures JoinersInv(Apply(s, step))
  {
    var s' := Apply(s, step);
    InsideMoves(s, step);
    if PastCheck(s'.handlers[step.h]) {
      FirstPastCheck(s, step);
    }
    MovedKeepsJoiners(s, s', step.h);
  }

  lemma MovedKeepsJoiners(s: State, s': State, h: Id)
    requires JoinersInv(s) && Moved(s, s', h)
    requires PastCheck(s'.handlers[h]) ==>
               var c := s.handlers[h].code; c in s.joiners && s.joiners[c] != [] && s.joiners[c][0] == h
    ensures JoinersInv(s')
  {
  }

  /** Only the first joiner of a room gets past the check for two players. */
  lemma FirstPastCheck(s: State, step: Step)
    requires Inv(s) && Enabled(s, step) && Inside(step) && PastCheck(Apply(s, step).handlers[step.h])
    ensures var c := s.handlers[step.h].code;
            c in s.joiners && s.joiners[c] != [] && s.joiners[c][0] == step.h
  {
    if step.CheckPlayers? {
      var c := s.handlers[step.h].code;
      assert |s.joiners[c]| == 1 && step.h in s.joiners[c];
    }
  }

  lemma AttemptsInvCheck(s: State, step: Step)
    requires Inv(s) && Enabled(s, step) && step.CheckMatch?
    ensures AttemptsInv(Apply(s, step))
  {
  }

  lemma AttemptsInvInside(s: State, step: Step)
    requires AttemptsInv(s) && Enabled(s, step) && Inside(step) && !step.CheckMatch?
    ensures AttemptsInv(Apply(s, step))
  {
    var s' := Apply(s, step);
    assert s'.attempts == s.attempts;
    assert Attempted(s.handlers[step.h]) ==> Attempted(s'.handlers[step.h]);
  }

  lemma AttemptsInvStep(s: State, step: Step)
    requires Inv(s) && Enabled(s, step)
    ensures AttemptsInv(Apply(s, step))
  {
    if step.CheckMatch? {
      AttemptsInvCheck(s, step);
    } else if Inside(step) {
      AttemptsInvInside(s, step);
    }
  }

  lemma InvStep(s: State, step: Step)
    requires Inv(s) && DistinctCodes(s) && Enabled(s, step)
    ensures Inv(Apply(s, step))
  {
    RoomsInvStep(s, step);
    AttemptsInvStep(s, step);
    if step.Join? {
      JoinersInvJoin(s, step);
    } else if Inside(step) {
      JoinersInvInside(s, step);
    } else {
      JoinersInvCreate(s, step);
    }
  }

  lemma {:induction false} InvHolds(tr: seq<State>, steps: seq<Step>)
    requires Run(tr, steps)
    ensures Inv(tr[|steps|])
    decreases |steps|
  {
    if steps != [] {
      var n := |steps| - 1;
      InvHolds(tr[..n + 1], steps[..n]);
      InvStep(tr[n], steps[n]);
    }
  }

  /** At most one match creation is ever attempted for a room, whatever its size, in any interleaving. */
  lemma AtMostOneAttempt(tr: seq<State>, steps: seq<Step>, i: nat, j: nat)
    requires Run(tr, steps)
    requires i < |tr[|steps|].attempts| && j < |tr[|steps|].attempts|
    requires tr[|steps|].attempts[i].0 == tr[|steps|].attempts[j].0
    ensures i == j
  {
    var s := tr[|steps|];
    InvHolds(tr, steps);
    var a, b := s.attempts[i].1, s.attempts[j].1;
    assert PastCheck(s.handlers[a]) && PastCheck(s.handlers[b]);
    assert s.joiners[s.attempts[i].0][0] == a && s.joiners[s.attempts[i].0][0] == b;
  }

  /** In every reachable state: players of a room are distinct and no more than it allows, and its match
      id is set exactly when it is no longer waiting. */
  lemma RoomsAlwaysOk(tr: seq<State>, steps: seq<Step>, c: string)
    requires Run(tr, steps) && c in tr[|steps|].rooms
    ensures RoomOk(tr[|steps|].rooms[c])
  {
    InvHolds(tr, steps);
  }

  lemma StartedStaysInside(s: State, step: Step, c: string)
    requires Enabled(s, step) && Inside(step) && c in s.rooms && !s.rooms[c].status.Waiting?
    ensures c in Apply(s, step).rooms && Apply(s, step).rooms[c] == s.rooms[c]
  {
  }

  lemma StartedStaysOutside(s: State, step: Step, c: string)
    requires RoomsInv(s) && Enabled(s, step) && !Inside(step) && c in s.rooms && !s.rooms[c].status.Waiting?
    ensures c in Apply(s, step).rooms && Apply(s, step).rooms[c] == s.rooms[c]
  {
    if step.Insert? {
      assert s.handlers[step.h].code != c;
    }
  }

  /** A started room never changes again: it does not return to waiting, and its match id stays. */
  lemma {:induction false} StartedForever(tr: seq<State>, steps: seq<Step>, k: nat, c: string)
    requires Run(tr, steps) && k <= |steps| && c in tr[k].rooms && !tr[k].rooms[c].status.Waiting?
    ensures c in tr[|steps|].rooms && tr[|steps|].rooms[c] == tr[k].rooms[c]
    decreases |steps|
  {
    if k < |steps| {
      var n := |steps| - 1;
      StartedForever(tr[..n + 1], steps[..n], k, c);
      InvHolds(tr[..n + 1], steps[..n]);
      if Inside(steps[n]) {
        StartedStaysInside(tr[n], steps[n], c);
      } else {
        StartedStaysOutside(tr[n], steps[n], c);
      }
    }
  }

  // ---------------------------------------------------------------------------------------------
  // What a room shows
  // ---------------------------------------------------------------------------------------------

  /** Who may join and what the others are told. Of a well-formed room nobody is told the last refusal, since its
      host is already in it. */
  lemma JoinRefusalIs(rooms: RoomMap, c: string, u: Id)
    ensures var r := JoinRefusal(rooms, c, u);
            if c !in rooms then r == Some("room not found")
            else
              var room := rooms[c];
              var inside := exists p :: p in room.players && p.userId == u;
              && (!room.status.Waiting? ==> r == Some("room not accepting players"))
              && (room.status.Waiting? && |room.players| >= room.maxPlayers ==> r == Some("room full"))
              && (room.status.Waiting? && |room.players| < room.maxPlayers && inside ==>
                    r == Some("user already in room"))
              && (r.None? <==> room.status.Waiting? && |room.players| < room.maxPlayers && !inside && u != room.hostId)
              && (RoomOk(room) ==> r != Some("host cannot join their own room again"))
  {
    if c in rooms {
      var room := rooms[c];
      if i :| 0 <= i < |room.players| && room.players[i].userId == u {
        assert room.players[i] in room.players;
      }
    }
  }

  lemma StartRefusalIs(rooms: RoomMap, c: string)
    ensures var r := StartRefusal(rooms, c);
            && (c !in rooms ==> r == Some("room not found"))
            && (c in rooms && !rooms[c].status.Waiting? ==> r == Some("room cannot be started"))
            && (c in rooms && rooms[c].status.Waiting? && |rooms[c].players| < 2 ==>
                  r == Some("need at least 2 players"))
            && (r.None? <==> c in rooms && rooms[c].status.Waiting? && |rooms[c].players| >= 2)
  {
  }

  /** Nothing about a room changes but its status with the match id, and its players, who only grow in number. */
  ghost predicate SameRoom(r: Room, r': Room) {
    && r'.code == r.code && r'.hostId == r.hostId && r'.matchName == r.matchName && r'.maxPlayers == r.maxPlayers
    && r'.questionCount == r.questionCount && r'.perQuestionSeconds == r.perQuestionSeconds
    && r'.category == r.category && r'.startCountdown == r.startCountdown && r.players <= r'.players
  }

  lemma RoomStays(s: State, step: Step, c: string)
    requires RoomsInv(s) && Enabled(s, step) && c in s.rooms
    ensures c in Apply(s, step).rooms && SameRoom(s.rooms[c], Apply(s, step).rooms[c])
  {
    if step.Insert? {
      assert s.handlers[step.h].code != c;
    }
  }

  lemma {:induction false} RoomStaysOn(tr: seq<State>, steps: seq<Step>, k: nat, c: string)
    requires Run(tr, steps) && k <= |steps| && c in tr[k].rooms
    ensures c in tr[|steps|].rooms && SameRoom(tr[k].rooms[c], tr[|steps|].rooms[c])
    decreases |steps|
  {
    if k < |steps| {
      var n := |steps| - 1;
      RoomStaysOn(tr[..n + 1], steps[..n], k, c);
      InvHolds(tr[..n + 1], steps[..n]);
      RoomStays(tr[n], steps[n], c);
    }
  }

  /** A room shows what was asked for when it was made, whatever has happened since: the request's data, the
      category "general" if none was given, a countdown of five and its host as the first player. */
  lemma RoomKeepsRequest(tr: seq<State>, steps: seq<Step>, k: nat)
    requires Run(tr, steps) && k < |steps| && steps[k].Insert?
    ensures var h := tr[k].handlers[steps[k].h];
            && h.code in tr[|steps|].rooms
            && var r := tr[|steps|].rooms[h.code];
               && r.code == h.code && r.hostId == h.req.hostId && r.matchName == h.req.matchName
               && r.maxPlayers == h.req.maxPlayers && r.questionCount == h.req.questionCount
               && r.perQuestionSeconds == h.req.perQuestionSeconds && r.startCountdown == 5
               && r.category == (if h.req.category == "" then "general" else h.req.category)
               && |r.players| >= 1 && r.players[0] == RoomPlayer(h.req.hostId, h.req.username, false, true)
  {
    RoomStaysOn(tr, steps, k + 1, tr[k].handlers[steps[k].h].code);
  }

  /** Whoever joins stands in the room ever after, as the guest or user who joined and not as its host. */
  lemma JoinedPlayerStays(tr: seq<State>, steps: seq<Step>, i: nat, c: string)
    requires Run(tr, steps) && i < |steps| && JoinsAt(tr, steps, i, c)
    ensures c in tr[i].joiners && c in tr[|steps|].rooms
    ensures var p, r := |tr[i].joiners[c]| + 1, tr[|steps|].rooms[c];
            p < |r.players| && r.players[p] == RoomPlayer(tr[i].handlers[steps[i].h].user, steps[i].username,
                                                          steps[i].isGuest, false)
  {
    InvHolds(tr[..i + 1], steps[..i]);
    JoinShows(tr[i], steps[i], c);
    RoomStaysOn(tr, steps, i + 1, c);
  }

  lemma JoinShows(s: State, step: Step, c: string)
    requires RoomsInv(s) && Enabled(s, step) && step.Join? && c in s.joiners && c in Apply(s, step).joiners
    requires Apply(s, step).joiners[c] == s.joiners[c] + [step.h]
    ensures c in s.rooms && c in Apply(s, step).rooms
    ensures Apply(s, step).rooms[c].players
            == s.rooms[c].players + [RoomPlayer(s.handlers[step.h].user, step.username, step.isGuest, false)]
    ensures |s.rooms[c].players| == |s.joiners[c]| + 1
  {
    assert |s.joiners[c] + [step.h]| == |s.joiners[c]| + 1;
    assert s.handlers[step.h].code == c;
  }

  /** A handler that holds a created match got it from its own creation. */
  lemma {:induction false} CreatedFrom(tr: seq<State>, steps: seq<Step>, n: nat, h: Id) returns (k: nat)
    requires Chain(tr, steps) && Init(tr[0]) && n <= |steps| && h in tr[n].handlers && tr[n].handlers[h].Created?
    ensures k < n && steps[k] == CreateMatch(h, Some(tr[n].handlers[h].matchId)) && h in tr[k].handlers
    ensures tr[k].handlers[h].Creating? && tr[k].handlers[h].code == tr[n].handlers[h].code
    decreases n
  {
    if h in tr[n - 1].handlers && tr[n - 1].handlers[h] == tr[n].handlers[h] {
      k := CreatedFrom(tr, steps, n - 1, h);
    } else {
      k := n - 1;
    }
  }

  lemma BecomesStarted(s: State, step: Step, c: string)
    requires RoomsInv(s) && Enabled(s, step) && c in Apply(s, step).rooms
    requires !Apply(s, step).rooms[c].status.Waiting? && !(c in s.rooms && !s.rooms[c].status.Waiting?)
    ensures step.StartIt? && s.handlers[step.h].code == c
    ensures Apply(s, step).rooms[c].matchId == Some(s.handlers[step.h].matchId)
    ensures Apply(s, step).rooms[c].status.Starting?
  {
  }

  lemma {:induction false} StartedFrom(tr: seq<State>, steps: seq<Step>, c: string) returns (j: nat)
    requires Run(tr, steps) && c in tr[|steps|].rooms && !tr[|steps|].rooms[c].status.Waiting?
    ensures j < |steps| && steps[j].StartIt? && steps[j].h in tr[j].handlers
    ensures var k := tr[j].handlers[steps[j].h];
            && k.Created? && k.code == c && tr[|steps|].rooms[c].matchId == Some(k.matchId)
            && tr[|steps|].rooms[c].status.Starting?
    decreases |steps|
  {
    var n := |steps| - 1;
    InvHolds(tr[..n + 1], steps[..n]);
    if c in tr[n].rooms && !tr[n].rooms[c].status.Waiting? {
      j := StartedFrom(tr[..n + 1], steps[..n], c);
      if Inside(steps[n]) {
        StartedStaysInside(tr[n], steps[n], c);
      } else {
        StartedStaysOutside(tr[n], steps[n], c);
      }
    } else {
      j := n;
      BecomesStarted(tr[n], steps[n], c);
    }
  }

  /** A room that no longer waits is starting, with the match id that its launcher's own match creation
      returned. */
  lemma StartedMatchId(tr: seq<State>, steps: seq<Step>, c: string) returns (k: nat, j: nat)
    requires Run(tr, steps) && c in tr[|steps|].rooms && !tr[|steps|].rooms[c].status.Waiting?
    ensures k < j < |steps| && steps[j].StartIt? && tr[|steps|].rooms[c].matchId.Some?
    ensures tr[|steps|].rooms[c].status.Starting?
    ensures steps[k] == CreateMatch(steps[j].h, tr[|steps|].rooms[c].matchId)
    ensures steps[j].h in tr[k].handlers && tr[k].handlers[steps[j].h].Creating?
            && tr[k].handlers[steps[j].h].code == c
  {
    j := StartedFrom(tr, steps, c);
    k := CreatedFrom(tr, steps, j, steps[j].h);
  }

  // ---------------------------------------------------------------------------------------------
  // Rooms that never start
  // ---------------------------------------------------------------------------------------------

  /** The room is waiting although the handler of its first joiner has ended. */
  ghost predicate Stranded(s: State, c: string) {
    && c in s.rooms && s.rooms[c].status.Waiting?
    && c in s.joiners && s.joiners[c] != [] && s.joiners[c][0] in s.handlers && s.handlers[s.joiners[c][0]].Ended?
  }

  lemma StrandedStart(s: State, step: Step, c: string)
    requires JoinersInv(s) && Enabled(s, step) && step.StartIt? && Stranded(s, c)
    ensures Stranded(Apply(s, step), c)
  {
    assert PastCheck(s.handlers[step.h]);
    assert s.handlers[step.h].code != c;
  }

  lemma StrandedInside(s: State, step: Step, c: string)
    requires Enabled(s, step) && Inside(step) && !step.StartIt? && Stranded(s, c)
    ensures Stranded(Apply(s, step), c)
  {
  }

  lemma StrandedStep(s: State, step: Step, c: string)
    requires Inv(s) && Enabled(s, step) && Stranded(s, c)
    ensures Stranded(Apply(s, step), c)
  {
    if step.StartIt? {
      StrandedStart(s, step, c);
    } else if Inside(step) {
      StrandedInside(s, step, c);
    }
  }

  /** Nobody but the first joiner can start a room: once that handler has ended with the room still
      waiting, the room waits for ever. */
  lemma {:induction false} StrandedForever(tr: seq<State>, steps: seq<Step>, k: nat, c: string)
    requires Run(tr, steps) && k <= |steps| && Stranded(tr[k], c)
    ensures Stranded(tr[|steps|], c)
    decreases |steps|
  {
    if k < |steps| {
      var n := |steps| - 1;
      StrandedForever(tr[..n + 1], steps[..n], k, c);
      InvHolds(tr[..n + 1], steps[..n]);
      StrandedStep(tr[n], steps[n], c);
    }
  }

  /** What the first joiner's handler and its room say about each other, whatever the room's size: the
      handler ends by a count other than two, by a failed match creation, or by having started the room. */
  ghost predicate FirstOk(s: State, c: string)
    requires c in s.rooms && c in s.joiners && s.joiners[c] != [] && s.joiners[c][0] in s.handlers
  {
    var k, r := s.handlers[s.joiners[c][0]], s.rooms[c];
    && (k.Ended? ==> k.outcome.NotSecond? || k.outcome.CreateFailed? || k.outcome.Launched?)
    && (k.Ended? && k.outcome.NotSecond? ==> |r.players| >= 3)
    && (r.status.Waiting? <==> !(k.Ended? && k.outcome.Launched?))
  }

  /** A room somebody has joined. */
  ghost predicate HasFirst(s: State, c: string) {
    c in s.rooms && c in s.joiners && s.joiners[c] != [] && s.joiners[c][0] in s.handlers
  }

  ghost predicate FirstInv(s: State) {
    forall c :: HasFirst(s, c) ==> FirstOk(s, c)
  }

  /** The handler of a joiner is in the joiner's room, as a user other than the host. */
  lemma JoinerIsGuest(s: State, c: string, i: nat)
    requires Inv(s) && c in s.joiners && i < |s.joiners[c]|
    ensures var h := s.joiners[c][i];
            && h in s.handlers && InRoom(s.handlers[h]) && s.handlers[h].code == c
            && c in s.rooms && s.handlers[h].user != s.rooms[c].hostId
  {
    assert s.rooms[c].players[i + 1].userId == s.handlers[s.joiners[c][i]].user;
    assert s.rooms[c].players[0].userId != s.rooms[c].players[i + 1].userId;
  }

  lemma FirstOwnStep(s: State, step: Step, c: string)
    requires Inv(s) && Enabled(s, step) && Inside(step) && HasFirst(s, c) && FirstOk(s, c) && s.joiners[c][0] == step.h
    ensures HasFirst(Apply(s, step), c) && FirstOk(Apply(s, step), c)
  {
    JoinerIsGuest(s, c, 0);
    assert RoomOk(s.rooms[c]) && |s.rooms[c].players| >= 2;
  }

  lemma FirstOtherStep(s: State, step: Step, c: string)
    requires Inv(s) && Enabled(s, step) && Inside(step) && HasFirst(s, c) && FirstOk(s, c) && s.joiners[c][0] != step.h
    ensures HasFirst(Apply(s, step), c) && FirstOk(Apply(s, step), c)
  {
    InsideMoves(s, step);
    assert PastCheck(s.handlers[step.h]) ==> s.joiners[s.handlers[step.h].code][0] == step.h;
  }

  lemma FirstJoin(s: State, step: Step, c: string)
    requires Inv(s) && FirstInv(s) && Enabled(s, step) && step.Join? && HasFirst(Apply(s, step), c)
    requires Inv(Apply(s, step))
    ensures FirstOk(Apply(s, step), c)
  {
    var user, d := s.handlers[step.h].user, s.handlers[step.h].code;
    if JoinRefusal(s.rooms, d, user).None? {
      JoinEffect(s, step);
      FirstJoined(s, Apply(s, step), step.h, user, d, c);
    } else {
      JoinerIsGuest(s, c, 0);
      assert FirstOk(s, c);
    }
  }

  lemma FirstJoined(s: State, s': State, h: Id, user: Id, d: string, c: string)
    requires Inv(s) && FirstInv(s) && JoinedBy(s, s', h, user, d) && s.rooms[d].status.Waiting? && HasFirst(s', c)
    ensures FirstOk(s', c)
  {
    if s.joiners[c] != [] {
      JoinerIsGuest(s, c, 0);
      assert FirstOk(s, c);
    }
  }

  lemma FirstCreate(s: State, step: Step, c: string)
    requires Inv(s) && FirstInv(s) && Enabled(s, step) && (step.PickCode? || step.Insert? || step.Arrive?)
    requires HasFirst(Apply(s, step), c)
    ensures FirstOk(Apply(s, step), c)
  {
    JoinerIsGuest(s, c, 0);
    assert FirstOk(s, c);
  }

  lemma FirstInvStep(s: State, step: Step)
    requires Inv(s) && DistinctCodes(s) && FirstInv(s) && Enabled(s, step)
    ensures FirstInv(Apply(s, step))
  {
    InvStep(s, step);
    var s' := Apply(s, step);
    forall c | HasFirst(s', c) ensures FirstOk(s', c) {
      if step.Join? {
        FirstJoin(s, step, c);
      } else if Inside(step) {
        InsideMoves(s, step);
        JoinerIsGuest(s, c, 0);
        if s.joiners[c][0] == step.h {
          FirstOwnStep(s, step, c);
        } else {
          FirstOtherStep(s, step, c);
        }
      } else {
        FirstCreate(s, step, c);
      }
    }
  }

  lemma {:induction false} FirstInvHolds(tr: seq<State>, steps: seq<Step>)
    requires Run(tr, steps)
    ensures FirstInv(tr[|steps|])
    decreases |steps|
  {
    if steps != [] {
      var n := |steps| - 1;
      FirstInvHolds(tr[..n + 1], steps[..n]);
      InvHolds(tr[..n + 1], steps[..n]);
      FirstInvStep(tr[n], steps[n]);
    }
  }

  /** A room of any size that somebody has joined is stranded exactly when its first joiner counted other
      than two players or failed to create the match, and started exactly when that joiner launched it. */
  lemma StrandedIff(tr: seq<State>, steps: seq<Step>, c: string)
    requires Run(tr, steps)
    requires c in tr[|steps|].rooms && |tr[|steps|].rooms[c].players| >= 2
    ensures var s := tr[|steps|];
            && c in s.joiners && |s.joiners[c]| == |s.rooms[c].players| - 1 && s.joiners[c][0] in s.handlers
            && var k := s.handlers[s.joiners[c][0]];
               && (Stranded(s, c) <==> k.Ended? && (k.outcome.CreateFailed? || k.outcome.NotSecond?))
               && (!s.rooms[c].status.Waiting? <==> k.Ended? && k.outcome.Launched?)
  {
    var s := tr[|steps|];
    InvHolds(tr, steps);
    FirstInvHolds(tr, steps);
    assert HasFirst(s, c) && FirstOk(s, c);
  }

  /** A room for two, the only size that HTTP creation admits, is stranded exactly when its joiner's match
      creation failed: no other player can come between that joiner's join and its count. */
  lemma PairStrandedIffCreationFailed(tr: seq<State>, steps: seq<Step>, c: string)
    requires Run(tr, steps)
    requires var s := tr[|steps|]; c in s.rooms && s.rooms[c].maxPlayers == 2 && |s.rooms[c].players| == 2
    ensures var s := tr[|steps|];
            && c in s.joiners && |s.joiners[c]| == 1 && s.joiners[c][0] in s.handlers
            && var k := s.handlers[s.joiners[c][0]];
               && (Stranded(s, c) <==> k.Ended? && k.outcome.CreateFailed?)
               && (!s.rooms[c].status.Waiting? <==> k.Ended? && k.outcome.Launched?)
  {
    var s := tr[|steps|];
    StrandedIff(tr, steps, c);
    FirstInvHolds(tr, steps);
    assert HasFirst(s, c) && FirstOk(s, c);
  }

  // ---------------------------------------------------------------------------------------------
  // When the first joiner does not count two
  // ---------------------------------------------------------------------------------------------

  /** Step i is a join to room c that succeeds. */
  ghost predicate JoinsAt(tr: seq<State>, steps: seq<Step>, i: nat, c: string)
    requires i < |steps| && |tr| == |steps| + 1
  {
    && steps[i].Join? && c in tr[i].joiners && c in tr[i + 1].joiners
    && tr[i + 1].joiners[c] == tr[i].joiners[c] + [steps[i].h]
  }

  lemma JoinersStep(s: State, step: Step, c: string)
    requires Inv(s) && DistinctCodes(s) && Enabled(s, step) && c in Apply(s, step).joiners
    ensures var s' := Apply(s, step);
            if c !in s.joiners then s'.joiners[c] == []
            else s'.joiners[c] == s.joiners[c] || (step.Join? && s'.joiners[c] == s.joiners[c] + [step.h])
    ensures c in s.joiners ==> c in Apply(s, step).joiners
  {
    if step.Join? && JoinRefusal(s.rooms, s.handlers[step.h].code, s.handlers[step.h].user).None? {
      JoinEffect(s, step);
    }
  }

  /** The joiners of a room stay, in order. */
  lemma {:induction false} JoinersGrow(tr: seq<State>, steps: seq<Step>, j: nat, c: string)
    requires Run(tr, steps) && j <= |steps| && c in tr[j].joiners
    ensures c in tr[|steps|].joiners && tr[j].joiners[c] <= tr[|steps|].joiners[c]
    decreases |steps|
  {
    if j < |steps| {
      var n := |steps| - 1;
      JoinersGrow(tr[..n + 1], steps[..n], j, c);
      InvHolds(tr[..n + 1], steps[..n]);
      JoinersKept(tr[n], steps[n], c);
      JoinersStep(tr[n], steps[n], c);
    }
  }

  lemma JoinersKept(s: State, step: Step, c: string)
    requires Inv(s) && Enabled(s, step) && c in s.joiners
    ensures c in Apply(s, step).joiners
  {
  }

  /** Every joiner of a room has joined it at some step, when it had as many joiners as come before. */
  lemma {:induction false} JoinTime(tr: seq<State>, steps: seq<Step>, c: string, p: nat) returns (i: nat)
    requires Run(tr, steps) && c in tr[|steps|].joiners && p < |tr[|steps|].joiners[c]|
    ensures i < |steps| && JoinsAt(tr, steps, i, c) && |tr[i].joiners[c]| == p
    ensures steps[i].h == tr[|steps|].joiners[c][p]
    decreases |steps|
  {
    var n := |steps| - 1;
    InvHolds(tr[..n + 1], steps[..n]);
    JoinersStep(tr[n], steps[n], c);
    if c in tr[n].joiners && p < |tr[n].joiners[c]| {
      i := JoinTime(tr[..n + 1], steps[..n], c, p);
      assert JoinsAt(tr[..n + 1], steps[..n], i, c);
    } else {
      i := n;
    }
  }

  /** Somebody else joins room c between the join of h and step k. */
  ghost predicate OvertakenBefore(tr: seq<State>, steps: seq<Step>, k: nat, h: Id, c: string)
    requires k <= |steps| && |tr| == |steps| + 1
  {
    exists i, j :: 0 <= i < j < k && JoinsAt(tr, steps, i, c) && steps[i].h == h && JoinsAt(tr, steps, j, c)
  }

  lemma TwoJoinersOvertake(tr: seq<State>, steps: seq<Step>, c: string)
    requires Run(tr, steps) && c in tr[|steps|].joiners && |tr[|steps|].joiners[c]| >= 2
    ensures OvertakenBefore(tr, steps, |steps|, tr[|steps|].joiners[c][0], c)
  {
    var j := JoinTime(tr, steps, c, 1);
    JoinersGrow(tr, steps, j, c);
    var i := JoinTime(tr[..j + 1], steps[..j], c, 0);
    assert JoinsAt(tr[..j + 1], steps[..j], i, c);
    assert JoinsAt(tr, steps, i, c);
  }

  lemma JoinCounts(tr: seq<State>, steps: seq<Step>, i: nat, n: nat, c: string)
    requires Run(tr, steps) && i < n <= |steps| && JoinsAt(tr, steps, i, c)
    ensures c in tr[n].joiners && |tr[n].joiners[c]| > |tr[i].joiners[c]|
  {
    JoinersGrow(tr[..n + 1], steps[..n], i + 1, c);
  }

  lemma OvertakenMeansTwo(tr: seq<State>, steps: seq<Step>, h: Id, c: string)
    requires Run(tr, steps) && OvertakenBefore(tr, steps, |steps|, h, c) && c in tr[|steps|].joiners
    ensures |tr[|steps|].joiners[c]| >= 2
  {
    var i, j :| 0 <= i < j < |steps| && JoinsAt(tr, steps, i, c) && steps[i].h == h && JoinsAt(tr, steps, j, c);
    JoinCounts(tr, steps, i, j, c);
    JoinCounts(tr, steps, j, |steps|, c);
  }

  /** A run up to step k is overtaken exactly as the whole run is before k. */
  lemma OvertakenPrefix(tr: seq<State>, steps: seq<Step>, k: nat, h: Id, c: string)
    requires |tr| == |steps| + 1 && k <= |steps|
    ensures OvertakenBefore(tr[..k + 1], steps[..k], k, h, c) <==> OvertakenBefore(tr, steps, k, h, c)
  {
    var tr', steps' := tr[..k + 1], steps[..k];
    assert forall i :: 0 <= i < k ==> (JoinsAt(tr', steps', i, c) <==> JoinsAt(tr, steps, i, c));
  }

  lemma CountIs(s: State, step: Step, c: string)
    requires Inv(s) && Enabled(s, step) && step.CheckPlayers?
    requires c in s.joiners && s.joiners[c] != [] && s.joiners[c][0] == step.h
    ensures var k := Apply(s, step).handlers[step.h];
            && (k.Ended? <==> |s.joiners[c]| >= 2) && (k.Ended? ==> k.outcome == NotSecond)
  {
    JoinerIsGuest(s, c, 0);
    assert |s.rooms[c].players| == |s.joiners[c]| + 1;
  }

  /** The first joiner of a room of any size fails to count two players exactly when somebody else joins
      between its own join and its count. */
  lemma NotSecondIff(tr: seq<State>, steps: seq<Step>, k: nat, c: string)
    requires Run(tr, steps) && k < |steps| && steps[k].CheckPlayers?
    requires c in tr[k].joiners && tr[k].joiners[c] != [] && tr[k].joiners[c][0] == steps[k].h
    ensures var handler := tr[k + 1].handlers[steps[k].h];
            && (handler.Ended? <==> OvertakenBefore(tr, steps, k, steps[k].h, c))
            && (handler.Ended? ==> handler.outcome == NotSecond)
  {
    var tr', steps' := tr[..k + 1], steps[..k];
    InvHolds(tr', steps');
    CountIs(tr[k], steps[k], c);
    OvertakenPrefix(tr, steps, k, steps[k].h, c);
    if |tr[k].joiners[c]| >= 2 {
      TwoJoinersOvertake(tr', steps', c);
    }
    if OvertakenBefore(tr', steps', k, steps[k].h, c) {
      OvertakenMeansTwo(tr', steps', steps[k].h, c);
    }
  }

  function Request(maxPlayers: int): RoomRequest {
    RoomRequest(10, "", false, "m", maxPlayers, 5, 15, "")
  }

  ghost function AtTheDoor(maxPlayers: int): State {
    State(map["c" := NewRoom(Request(maxPlayers), "c")],
          map[0 := Inserted, 1 := Joining(11, "c"), 2 := Joining(12, "c")], map["c" := []], [])
  }

  /** A room is made and two users are about to join it. */
  lemma TwoAtTheDoor(maxPlayers: int) returns (tr: seq<State>, steps: seq<Step>)
    ensures |steps| == 4 && Run(tr, steps) && tr[4] == AtTheDoor(maxPlayers)
  {
    tr, steps := RoomMade(maxPlayers);
    var s3 := Apply(tr[2], Arrive(1, 11, "c"));
    var s4 := Apply(s3, Arrive(2, 12, "c"));
    tr, steps := tr + [s3, s4], steps + [Arrive(1, 11, "c"), Arrive(2, 12, "c")];
  }

  lemma RoomMade(maxPlayers: int) returns (tr: seq<State>, steps: seq<Step>)
    ensures |steps| == 2 && Run(tr, steps)
    ensures tr[2] == State(map["c" := NewRoom(Request(maxPlayers), "c")], map[0 := Inserted], map["c" := []], [])
  {
    steps := [PickCode(0, Request(maxPlayers), "c"), Insert(0)];
    var s0 := State(map[], map[], map[], []);
    var s1 := Apply(s0, steps[0]);
    tr := [s0, s1, Apply(s1, steps[1])];
  }

  /** Both join before either counts the players. */
  lemma BothCountThree(maxPlayers: int) returns (tr: seq<State>, steps: seq<Step>)
    requires maxPlayers >= 3
    ensures |steps| == 3 && Chain(tr, steps) && tr[0] == AtTheDoor(maxPlayers)
    ensures forall i :: 0 <= i <= 3 ==> DistinctCodes(tr[i])
    ensures Stranded(tr[3], "c") && tr[3].attempts == [] && tr[3].rooms["c"].maxPlayers == maxPlayers
  {
    steps := [Join(1, "", false), Join(2, "", false), CheckPlayers(1)];
    var s4 := AtTheDoor(maxPlayers);
    OneInside(maxPlayers);
    var s5 := Apply(s4, steps[0]);
    var s6 := Apply(s5, steps[1]);
    assert s6.joiners["c"] == [1, 2];
    tr := [s4, s5, s6, Apply(s6, steps[2])];
  }

  /** What the first of them leaves. */
  lemma OneInside(maxPlayers: int)
    requires maxPlayers >= 3
    ensures var r := NewRoom(Request(maxPlayers), "c");
            Apply(AtTheDoor(maxPlayers), Join(1, "", false))
            == State(map["c" := r.(players := [RoomPlayer(10, "", false, true), RoomPlayer(11, "", false, false)])],
                     map[0 := Inserted, 1 := Joined(11, "c"), 2 := Joining(12, "c")], map["c" := [1]], [])
  {
    var s := Apply(AtTheDoor(maxPlayers), Join(1, "", false));
    assert s.rooms["c"].players == [RoomPlayer(10, "", false, true), RoomPlayer(11, "", false, false)];
    assert s.joiners["c"] == [1];
  }

  /** Beyond pairs the other case does occur: for every size from three on there is a run in which both
      joiners arrive before either counts the players, and no match creation is ever attempted. */
  lemma LargerRoomsMayNeverStart(maxPlayers: int) returns (tr: seq<State>, steps: seq<Step>)
    requires maxPlayers >= 3
    ensures Run(tr, steps) && Stranded(tr[|steps|], "c") && tr[|steps|].attempts == []
    ensures tr[|steps|].rooms["c"].maxPlayers == maxPlayers
  {
    var tr1, steps1 := TwoAtTheDoor(maxPlayers);
    var tr2, steps2 := BothCountThree(maxPlayers);
    tr, steps := tr1 + tr2[1..], steps1 + steps2;
    assert tr[7] == tr2[3];
  }

  // ---------------------------------------------------------------------------------------------
  // Rooms overwritten
  // ---------------------------------------------------------------------------------------------

  /** Step j inserts a room under code c. */
  ghost predicate InsertsAt(tr: seq<State>, steps: seq<Step>, j: nat, c: string)
    requires j < |steps| && |tr| == |steps| + 1
  {
    steps[j].Insert? && steps[j].h in tr[j].handlers && tr[j].handlers[steps[j].h].Picked?
    && tr[j].handlers[steps[j].h].code == c
  }

  /** A handler that picked a code keeps it until it has inserted its room, and then is done. */
  lemma {:induction false} PickedStays(tr: seq<State>, steps: seq<Step>, p: nat, k: nat)
    requires Chain(tr, steps) && p < k <= |steps| && steps[p].PickCode?
    ensures var h := steps[p].h;
            h in tr[k].handlers && tr[k].handlers[h] in {Picked(steps[p].req, steps[p].code), Inserted}
    decreases k
  {
    if k > p + 1 {
      PickedStays(tr, steps, p, k - 1);
    }
  }

  /** Room codes stay taken. */
  lemma {:induction false} CodesStay(tr: seq<State>, steps: seq<Step>, i: nat, k: nat, c: string)
    requires Chain(tr, steps) && i <= k <= |steps| && c in tr[i].rooms
    ensures c in tr[k].rooms
    decreases k
  {
    if k > i {
      CodesStay(tr, steps, i, k - 1, c);
    }
  }

  /** A code that was free and is taken was taken by an insert in between. */
  lemma {:induction false} TakenByInsert(tr: seq<State>, steps: seq<Step>, i: nat, k: nat, c: string) returns (j: nat)
    requires Chain(tr, steps) && i <= k <= |steps| && c !in tr[i].rooms && c in tr[k].rooms
    ensures i <= j < k && InsertsAt(tr, steps, j, c)
    decreases k
  {
    if c in tr[k - 1].rooms {
      j := TakenByInsert(tr, steps, i, k - 1, c);
    } else {
      j := k - 1;
    }
  }

  /** The code is drawn and the room inserted under separate locks. The insert wipes out another room exactly
      when a room was inserted under the same code since the code was drawn, and two creations then were in
      flight with one code. */
  lemma InsertOverwritesIff(tr: seq<State>, steps: seq<Step>, p: nat, k: nat)
    requires Chain(tr, steps) && p < k < |steps| && steps[p].PickCode? && steps[k] == Insert(steps[p].h)
    ensures var c := steps[p].code;
            && tr[k].handlers[steps[p].h] == Picked(steps[p].req, c)
            && tr[k + 1].rooms == tr[k].rooms[c := NewRoom(steps[p].req, c)]
            && (c in tr[k].rooms <==> exists j :: p < j < k && InsertsAt(tr, steps, j, c))
            && (c in tr[k].rooms ==> exists j :: p < j < k && !DistinctCodes(tr[j]))
  {
    var h, c := steps[p].h, steps[p].code;
    PickedStays(tr, steps, p, k);
    if c in tr[k].rooms {
      var j := TakenByInsert(tr, steps, p, k, c);
      BothPicked(tr, steps, p, j, k);
    }
    if j :| p < j < k && InsertsAt(tr, steps, j, c) {
      CodesStay(tr, steps, j + 1, k, c);
    }
  }

  lemma BothPicked(tr: seq<State>, steps: seq<Step>, p: nat, j: nat, k: nat)
    requires Chain(tr, steps) && p < j < k < |steps| && steps[p].PickCode? && steps[k] == Insert(steps[p].h)
    requires InsertsAt(tr, steps, j, steps[p].code)
    ensures !DistinctCodes(tr[j])
  {
    var h, g := steps[p].h, steps[j].h;
    PickedStays(tr, steps, p, j);
    InsertedStays(tr, steps, p, j + 1, k);
    assert h != g && tr[j].handlers[h].Picked? && tr[j].handlers[g].Picked?
           && tr[j].handlers[h].code == tr[j].handlers[g].code;
  }

  /** A handler that still has to insert had not inserted before. */
  lemma {:induction false} InsertedStays(tr: seq<State>, steps: seq<Step>, p: nat, i: nat, k: nat)
    requires Chain(tr, steps) && p < i <= k < |steps| && steps[p].PickCode? && steps[k] == Insert(steps[p].h)
    ensures steps[p].h in tr[i].handlers && tr[i].handlers[steps[p].h].Picked?
    decreases k - i
  {
    PickedStays(tr, steps, p, i);
    if i < k {
      InsertedStays(tr, steps, p, i + 1, k);
    }
  }

  /** An instance: when two creations draw the same code, the second insertion wipes out the
      first room. */
  lemma SameCodeLosesRoom() returns (tr: seq<State>, steps: seq<Step>)
    ensures |steps| == 4 && Chain(tr, steps) && Init(tr[0]) && !DistinctCodes(tr[2])
    ensures "c" in tr[3].rooms && "c" in tr[4].rooms && tr[3].rooms["c"].hostId != tr[4].rooms["c"].hostId
  {
    var a, b := RoomRequest(10, "", false, "m", 2, 5, 15, ""), RoomRequest(20, "", false, "m", 2, 5, 15, "");
    steps := [PickCode(0, a, "c"), PickCode(1, b, "c"), Insert(0), Insert(1)];
    var s0 := State(map[], map[], map[], []);
    var s1 := Apply(s0, steps[0]);
    var s2 := Apply(s1, steps[1]);
    var s3 := Apply(s2, steps[2]);
    tr := [s0, s1, s2, s3, Apply(s3, steps[3])];
    assert s2.handlers[0].Picked? && s2.handlers[1].Picked?;
  }
}
