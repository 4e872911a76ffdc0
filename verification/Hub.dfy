/** The WebSocket hub, pkg/http/ws/hub.go: connections by user, and per match a Go slice of user ids
    that is appended to and cut in place. */
module Hub {
  import opened Common

  type Message = string

  const SEND_QUEUE: nat := 256

  datatype SendResult = Sent | ErrConnectionNotFound | ErrConnectionClosed | ErrSendQueueFull

  /** A connection and its send channel. Closing a closed channel, or sending on one, would panic:
      ChanClose and ChanSend demand that the channel is open. */
  class Connection {
    var closed: bool
    var chanClosed: bool
    var sendCh: seq<Message>

    constructor ()
      ensures Valid() && !closed && sendCh == []
    {
      closed, chanClosed, sendCh := false, false, [];
    }

    ghost predicate Valid()
      reads this
    {
      closed == chanClosed && |sendCh| <= SEND_QUEUE
    }

    method ChanClose()
      requires !chanClosed
      modifies this`chanClosed
      ensures chanClosed
    {
      chanClosed := true;
    }

    method ChanSend(msg: Message) returns (ok: bool)
      requires !chanClosed
      modifies this`sendCh
      ensures ok <==> |old(sendCh)| < SEND_QUEUE
      ensures sendCh == if ok then old(sendCh) + [msg] else old(sendCh)
    {
      ok := |sendCh| < SEND_QUEUE;
      if ok {
        sendCh := sendCh + [msg];
      }
    }

    method Send(msg: Message) returns (r: SendResult)
      requires Valid()
      modifies this
      ensures Valid() && closed == old(closed)
      ensures r == if closed then ErrConnectionClosed else if |old(sendCh)| < SEND_QUEUE then Sent else ErrSendQueueFull
      ensures sendCh == if r.Sent? then old(sendCh) + [msg] else old(sendCh)
    {
      if closed {
        return ErrConnectionClosed;
      }
      var ok := ChanSend(msg);
      r := if ok then Sent else ErrSendQueueFull;
    }

    method Close()
      requires Valid()
      modifies this
      ensures Valid() && closed && sendCh == old(sendCh)
    {
      if closed {
        return;
      }
      closed := true;
      ChanClose();
    }
  }

  // ---------------------------------------------------------------------------------------------
  // Lists of members
  // ---------------------------------------------------------------------------------------------

  function RemoveAt(s: seq<Id>, i: nat): seq<Id>
    requires i < |s|
  {
    s[..i] + s[i + 1..]
  }

  /** The list without the first occurrence of `u`. */
  function RemoveFirst(s: seq<Id>, u: Id): seq<Id> {
    if s == [] then [] else if s[0] == u then s[1..] else [s[0]] + RemoveFirst(s[1..], u)
  }

  /** Partway through a pass over a map: `cur` still has the old values at `ids` and the new elsewhere. */
  ghost predicate Mixed<T>(was: map<Id, T>, done: map<Id, T>, cur: map<Id, T>, ids: set<Id>) {
    && was.Keys == done.Keys == cur.Keys && ids <= cur.Keys
    && forall m :: m in cur ==> cur[m] == if m in ids then was[m] else done[m]
  }

  lemma MixedStep<T>(was: map<Id, T>, done: map<Id, T>, cur: map<Id, T>, ids: set<Id>, m: Id)
    requires Mixed(was, done, cur, ids) && m in ids
    ensures Mixed(was, done, cur[m := done[m]], ids - {m}) && cur[m] == was[m]
  {
  }

  lemma MixedEnds<T>(was: map<Id, T>, done: map<Id, T>, cur: map<Id, T>)
    requires was.Keys == done.Keys == cur.Keys
    ensures cur == was ==> Mixed(was, done, cur, cur.Keys)
    ensures Mixed(was, done, cur, {}) ==> cur == done
  {
  }

  ghost predicate IsCut(s: seq<Id>, u: Id, r: seq<Id>) {
    r == RemoveFirst(s, u)
  }

  lemma {:induction false} RemoveFirstAt(s: seq<Id>, u: Id, i: nat)
    requires i < |s| && s[i] == u && forall j :: 0 <= j < i ==> s[j] != u
    ensures RemoveFirst(s, u) == RemoveAt(s, i)
  {
    if i > 0 {
      RemoveFirstAt(s[1..], u, i - 1);
    }
  }

  lemma {:induction false} RemoveAbsent(s: seq<Id>, u: Id)
    requires u !in s
    ensures RemoveFirst(s, u) == s
  {
    if s != [] {
      RemoveAbsent(s[1..], u);
    }
  }

  /** From a duplicate-free list, removing the first occurrence removes the user and nobody else. */
  lemma {:induction false} RemoveFirstDistinct(s: seq<Id>, u: Id)
    requires Distinct(s)
    ensures var r := RemoveFirst(s, u); Distinct(r) && forall x :: x in r <==> x in s && x != u
  {
    if s != [] {
      var t := s[1..];
      assert s == [s[0]] + t && s[0] !in t;
      RemoveFirstDistinct(t, u);
      assert forall x :: x in s <==> x == s[0] || x in t;
      if s[0] != u {
        PrependDistinct(s[0], RemoveFirst(t, u));
      }
    }
  }

  lemma PrependDistinct(x: Id, s: seq<Id>)
    requires Distinct(s) && x !in s
    ensures Distinct([x] + s)
  {
  }

  /** Every member list without the user. */
  ghost function CutAll(ms: map<Id, seq<Id>>, u: Id): (r: map<Id, seq<Id>>)
    ensures r.Keys == ms.Keys && forall m :: m in ms ==> IsCut(ms[m], u, r[m])
  {
    map m | m in ms :: RemoveFirst(ms[m], u)
  }

  ghost predicate AllDistinct(ms: map<Id, seq<Id>>) {
    forall m :: m in ms ==> Distinct(ms[m])
  }

  /** The user is in no match. */
  ghost predicate Nowhere(ms: map<Id, seq<Id>>, u: Id) {
    forall m :: m in ms ==> u !in ms[m]
  }

  lemma CutAllDistinct(ms: map<Id, seq<Id>>, u: Id)
    requires AllDistinct(ms)
    ensures AllDistinct(CutAll(ms, u)) && Nowhere(CutAll(ms, u), u)
  {
    forall m | m in ms ensures Distinct(CutAll(ms, u)[m]) && u !in CutAll(ms, u)[m] {
      RemoveFirstDistinct(ms[m], u);
    }
  }

  lemma CutOneDistinct(ms: map<Id, seq<Id>>, m: Id, u: Id)
    requires AllDistinct(ms) && m in ms
    ensures AllDistinct(ms[m := RemoveFirst(ms[m], u)])
  {
    RemoveFirstDistinct(ms[m], u);
  }

  lemma AddOneDistinct(ms: map<Id, seq<Id>>, m: Id, u: Id)
    requires AllDistinct(ms) && (m in ms ==> u !in ms[m])
    ensures AllDistinct(ms[m := (if m in ms then ms[m] else []) + [u]])
  {
  }

  /** A Go slice header: a backing array and how much of it is in use. */
  datatype Slice = Slice(arr: array<Id>, len: nat)

  /** The elements a slice has in use. */
  ghost predicate Holds(users: Slice, s: seq<Id>)
    reads users.arr
  {
    users.len <= users.arr.Length && users.arr[..users.len] == s
  }

  /** append(users[:i], users[i+1:]...): the tail moves down one place in the same backing array, and
      the slot it leaves behind keeps its old value. */
  method CutInPlace(arr: array<Id>, len: nat, i: nat)
    requires i < len <= arr.Length
    modifies arr
    ensures arr[..len - 1] == RemoveAt(old(arr[..len]), i)
    ensures arr[..len] == Stale(old(arr[..len]), i)
    ensures arr[len..] == old(arr[len..])
  {
    for j := i + 1 to len
      invariant forall k :: 0 <= k < arr.Length ==> arr[k] == if i <= k < j - 1 then old(arr[k + 1]) else old(arr[k])
    {
      arr[j - 1] := arr[j];
    }
  }

  /** Where a user stands in a slice, or its length. */
  method IndexOf(users: Slice, userId: Id, ghost s: seq<Id>) returns (i: nat)
    requires Holds(users, s)
    ensures i <= users.len == |s| && (i < users.len ==> s[i] == userId)
    ensures forall j :: 0 <= j < i ==> s[j] != userId
  {
    i := 0;
    while i < users.len && users.arr[i] != userId
      invariant i <= users.len && forall j :: 0 <= j < i ==> s[j] != userId
    {
      i := i + 1;
    }
  }

  /** The copy made by append when a backing array is full. */
  method Grow(users: Slice, userId: Id) returns (grown: Slice)
    requires users.len <= users.arr.Length
    ensures fresh(grown.arr) && grown.len == users.len + 1 <= grown.arr.Length
    ensures grown.arr[..grown.len] == users.arr[..users.len] + [userId]
  {
    var arr := new Id[2 * users.len + 1](k requires 0 <= k < 2 * users.len + 1 reads users.arr =>
                                           if k < users.len then users.arr[k] else userId);
    grown := Slice(arr, users.len + 1);
  }

  /** What a reader that still holds the uncut header sees after a cut at `i`. */
  function Stale(s: seq<Id>, i: nat): seq<Id>
    requires i < |s|
  {
    RemoveAt(s, i) + [s[|s| - 1]]
  }

  // ---------------------------------------------------------------------------------------------
  // The hub
  // ---------------------------------------------------------------------------------------------

  class Hub {
    var connections: map<Id, Connection>
    var matches: map<Id, Slice>
    ghost var members: map<Id, seq<Id>>
    ghost var dropped: set<Connection>

    /** The hub as a value; `dropped` are the connections it has closed. */
    ghost function Look(): View<Connection>
      reads this
    {
      View(connections, dropped, members)
    }

    ghost function Arrays(): set<array<Id>>
      reads this
    {
      set m | m in matches :: matches[m].arr
    }

    /** Each slice holds its member list, in a backing array of its own. */
    ghost predicate SlicesOk()
      reads this, Arrays()
    {
      && matches.Keys == members.Keys
      && (forall m :: m in matches ==> Holds(matches[m], members[m]))
      && (forall m1, m2 :: m1 in matches && m2 in matches && m1 != m2 ==> matches[m1].arr != matches[m2].arr)
    }

    /** Registered connections are open, one user each. */
    ghost predicate ConnectionsOk()
      reads this, connections.Values
    {
      && (forall u :: u in connections ==> connections[u].Valid() && !connections[u].closed)
      && (forall u1, u2 :: u1 in connections && u2 in connections && connections[u1] == connections[u2] ==> u1 == u2)
    }

    ghost predicate Valid()
      reads this, connections.Values, Arrays()
    {
      SlicesOk() && ConnectionsOk() && AllDistinct(members)
    }

    constructor ()
      ensures Valid() && Look() == View(map[], {}, map[])
    {
      connections, matches, members, dropped := map[], map[], map[], {};
    }

    /** `conn` is fresh from NewConnection. */
    method RegisterConnection(userId: Id, conn: Connection)
      requires Valid() && conn.Valid() && !conn.closed && Enabled(Look(), Register(userId, conn))
      modifies this`connections, this`dropped, if userId in connections then {connections[userId]} else {}
      ensures Valid() && Look() == After(old(Look()), Register(userId, conn))
      ensures userId in old(connections) ==> old(connections[userId]).closed
    {
      if userId in connections {
        CloseOf(userId);
        dropped := dropped + {connections[userId]};
      }
      connections := connections[userId := conn];
    }

    /** Closes a user's connection, leaving every other one and all slices alone. */
    method CloseOf(userId: Id)
      requires Valid() && userId in connections
      modifies connections[userId]
      ensures SlicesOk() && connections[userId].Valid() && connections[userId].closed
      ensures forall u :: u in connections && u != userId ==> connections[u].Valid() && !connections[u].closed
    {
      connections[userId].Close();
      assert forall m :: m in matches ==> matches[m].arr[..] == old(matches[m].arr[..]);
    }

    method UnregisterConnection(userId: Id)
      requires Valid()
      modifies this, Arrays(), if userId in connections then {connections[userId]} else {}
      ensures Valid() && Look() == After(old(Look()), Unregister(userId)) && Nowhere(members, userId)
      ensures userId in old(connections) ==> old(connections[userId]).closed
    {
      if userId in connections {
        CloseAndForget(userId);
      }
      CutFromMatches(userId);
    }

    method CloseAndForget(userId: Id)
      requires Valid() && userId in connections
      modifies this`connections, this`dropped, connections[userId]
      ensures Valid() && old(connections[userId]).closed
      ensures Look() == View(old(connections) - {userId}, old(dropped) + {old(connections[userId])}, old(members))
    {
      CloseOf(userId);
      dropped := dropped + {connections[userId]};
      connections := connections - {userId};
    }

    method CutFromMatches(userId: Id)
      requires Valid()
      modifies this`matches, this`members, Arrays()
      ensures Valid() && Look() == old(Look()).(members := CutAll(old(members), userId)) && Nowhere(members, userId)
    {
      ghost var cut := CutAll(members, userId);
      CutAllDistinct(members, userId);
      RemoveFromAll(userId, cut);
      ConnectionsUntouched();
    }

    /** Arrays are no connections. */
    twostate lemma ConnectionsUntouched()
      requires old(ConnectionsOk()) && connections == old(connections)
      requires forall u :: u in connections ==> unchanged(connections[u])
      ensures ConnectionsOk()
    {
    }

    /** `cut` is, for every match, its member list without the user. */
    method RemoveFromAll(userId: Id, ghost cut: map<Id, seq<Id>>)
      requires SlicesOk() && cut.Keys == members.Keys
      requires forall m :: m in members ==> IsCut(members[m], userId, cut[m])
      modifies this`matches, this`members, Arrays()
      ensures SlicesOk() && members == cut
    {
      var ids := matches.Keys;
      ghost var was := members;
      ghost var arrs := map m | m in matches :: matches[m].arr;
      MixedEnds(was, cut, members);
      while ids != {}
        invariant SlicesOk() && ids <= matches.Keys && matches.Keys == old(matches).Keys
        invariant forall m :: m in matches ==> matches[m].arr == arrs[m]
        invariant Mixed(was, cut, members, ids)
        decreases ids
      {
        var m :| m in ids;
        MixedStep(was, cut, members, ids, m);
        ids := ids - {m};
        assert arrs[m] in old(Arrays());
        RemoveMember(m, userId, cut[m]);
      }
      MixedEnds(was, cut, members);
    }

    /** The search-and-cut loop shared by LeaveMatch and UnregisterConnection; `r` is what it leaves. */
    method RemoveMember(matchId: Id, userId: Id, ghost r: seq<Id>)
      requires SlicesOk() && matchId in matches && IsCut(members[matchId], userId, r)
      modifies this`matches, this`members, matches[matchId].arr
      ensures SlicesOk() && matches.Keys == old(matches).Keys
      ensures forall m :: m in matches ==> matches[m].arr == old(matches)[m].arr
      ensures members == old(members)[matchId := r]
    {
      ghost var s := members[matchId];
      var i := IndexOf(matches[matchId], userId, s);
      if i < matches[matchId].len {
        RemoveFirstAt(s, userId, i);
        CutMember(matchId, i);
      } else {
        RemoveAbsent(s, userId);
        assert members == members[matchId := r];
      }
    }

    method CutMember(matchId: Id, i: nat)
      requires SlicesOk() && matchId in matches && i < matches[matchId].len
      modifies this`matches, this`members, matches[matchId].arr
      ensures SlicesOk() && members == old(members)[matchId := RemoveAt(old(members)[matchId], i)]
      ensures matches == old(matches)[matchId := Slice(old(matches)[matchId].arr, old(matches)[matchId].len - 1)]
    {
      var users := matches[matchId];
      ghost var r := RemoveAt(members[matchId], i);
      CutInPlace(users.arr, users.len, i);
      OtherSlicesHold(matchId);
      Resliced(matchId, Slice(users.arr, users.len - 1), r);
    }

    /** Work on one match's array leaves the other slices alone. */
    twostate lemma OtherSlicesHold(matchId: Id)
      requires old(SlicesOk()) && matches == old(matches) && members == old(members)
      requires forall m :: m in matches && m != matchId ==> unchanged(matches[m].arr)
      ensures forall m :: m in matches && m != matchId ==> Holds(matches[m], members[m])
    {
    }

    /** Stores a match's new slice header once its array holds the new list. */
    method Resliced(matchId: Id, users: Slice, ghost r: seq<Id>)
      requires matchId in matches && matches.Keys == members.Keys && users.arr == matches[matchId].arr
               && Holds(users, r)
      requires forall m :: m in matches && m != matchId ==> Holds(matches[m], members[m])
      requires forall m1, m2 :: m1 in matches && m2 in matches && m1 != m2 ==> matches[m1].arr != matches[m2].arr
      modifies this`matches, this`members
      ensures SlicesOk() && matches == old(matches)[matchId := users] && members == old(members)[matchId := r]
    {
      matches := matches[matchId := users];
      members := members[matchId := r];
    }

    /** Other matches keep their slices; the match's own array is kept while it has room and copied, never
        changed, when it is full. */
    method JoinMatch(matchId: Id, userId: Id)
      requires Valid()
      modifies this`matches, this`members, Arrays()
      ensures Valid() && Look() == After(old(Look()), Join(matchId, userId))
      ensures forall m :: m in old(matches) && m != matchId ==>
                m in matches && matches[m] == old(matches)[m] && matches[m].arr[..] == old(matches[m].arr[..])
      ensures matchId in old(members) && userId in old(members)[matchId] ==> matches == old(matches)
      ensures !(matchId in old(members) && userId in old(members)[matchId]) ==>
                matchId in matches && Appended(old(matches), matchId, matches[matchId])
      ensures matchId in old(matches) ==>
                var users := old(matches)[matchId]; users.arr[..users.len] == old(users.arr[..users.len])
    {
      if matchId !in matches {
        AppendToNil(matchId, userId);
        assert [] + [userId] == [userId];
        return;
      }
      JoinKnown(matchId, userId);
    }

    /** The rest of JoinMatch once the match is known. */
    method JoinKnown(matchId: Id, userId: Id)
      requires Valid() && matchId in matches
      modifies this`matches, this`members, matches[matchId].arr
      ensures Valid() && Look() == After(old(Look()), Join(matchId, userId))
      ensures if userId in old(members)[matchId] then matches == old(matches) else
                matches == old(matches)[matchId := matches[matchId]]
                && Appended(old(matches), matchId, matches[matchId])
      ensures var users := old(matches)[matchId]; users.arr[..users.len] == old(users.arr[..users.len])
    {
      var i := IndexOf(matches[matchId], userId, members[matchId]);
      if i == matches[matchId].len {
        Append(matchId, userId);
      }
    }

    method Append(matchId: Id, userId: Id)
      requires Valid() && matchId in matches && userId !in members[matchId]
      modifies this`matches, this`members, matches[matchId].arr
      ensures Valid() && members == old(members)[matchId := old(members)[matchId] + [userId]]
      ensures matches == old(matches)[matchId := matches[matchId]] && Appended(old(matches), matchId, matches[matchId])
      ensures var users := old(matches)[matchId]; users.arr[..users.len] == old(users.arr[..users.len])
    {
      if matches[matchId].len < matches[matchId].arr.Length {
        AppendInPlace(matchId, userId);
      } else {
        AppendGrowing(matchId, userId);
      }
    }

    /** How append makes a match's new slice from its old one: in place with room, else in a new array. */
    twostate predicate Appended(was: map<Id, Slice>, matchId: Id, new users: Slice) {
      if matchId in was && was[matchId].len < was[matchId].arr.Length
      then users == Slice(was[matchId].arr, was[matchId].len + 1)
      else fresh(users.arr) && users.len == (if matchId in was then was[matchId].len else 0) + 1
    }

    /** append(users, userId) on the nil slice of an unknown match. */
    method AppendToNil(matchId: Id, userId: Id)
      requires Valid() && matchId !in matches
      modifies this`matches, this`members
      ensures Valid() && members == old(members)[matchId := [userId]]
      ensures matches == old(matches)[matchId := matches[matchId]]
      ensures fresh(matches[matchId].arr) && matches[matchId].len == 1
    {
      var arr := new Id[1] [userId];
      matches := matches[matchId := Slice(arr, 1)];
      members := members[matchId := [userId]];
      assert arr[..1] == [userId];
    }

    /** append(users, userId) while the backing array has room. */
    method AppendInPlace(matchId: Id, userId: Id)
      requires Valid() && matchId in matches && userId !in members[matchId]
      requires matches[matchId].len < matches[matchId].arr.Length
      modifies this`matches, this`members, matches[matchId].arr
      ensures Valid() && members == old(members)[matchId := old(members)[matchId] + [userId]]
      ensures var users := old(matches)[matchId];
              && matches == old(matches)[matchId := Slice(users.arr, users.len + 1)]
              && users.arr[..users.len] == old(users.arr[..users.len])
    {
      var users := matches[matchId];
      users.arr[users.len] := userId;
      assert users.arr[..users.len + 1] == members[matchId] + [userId];
      Resliced(matchId, Slice(users.arr, users.len + 1), members[matchId] + [userId]);
      ConnectionsUntouched();
    }

    /** append(users, userId) into a larger copy. */
    method AppendGrowing(matchId: Id, userId: Id)
      requires Valid() && matchId in matches && userId !in members[matchId]
      modifies this`matches, this`members
      ensures Valid() && members == old(members)[matchId := old(members)[matchId] + [userId]]
      ensures matches == old(matches)[matchId := matches[matchId]]
      ensures fresh(matches[matchId].arr) && matches[matchId].len == old(matches)[matchId].len + 1
    {
      var users := matches[matchId];
      var grown := Grow(users, userId);
      matches := matches[matchId := grown];
      members := members[matchId := members[matchId] + [userId]];
    }

    method LeaveMatch(matchId: Id, userId: Id)
      requires Valid()
      modifies this`matches, this`members, Arrays()
      ensures Valid() && Look() == After(old(Look()), Leave(matchId, userId))
    {
      if matchId in matches {
        CutOneDistinct(members, matchId, userId);
        RemoveMember(matchId, userId, RemoveFirst(members[matchId], userId));
        ConnectionsUntouched();
      }
    }

    /** The send queue of each registered user. */
    ghost function Queues(): map<Id, seq<Message>>
      reads this, connections.Values
    {
      map u | u in connections :: connections[u].sendCh
    }

    method SendToUser(userId: Id, msg: Message) returns (r: SendResult)
      requires Valid()
      modifies connections.Values
      ensures Valid() && r == OutcomeOf(old(Queues()), userId)
      ensures Queues() == if r.Sent? then old(Queues())[userId := old(Queues())[userId] + [msg]] else old(Queues())
    {
      if userId !in connections {
        return ErrConnectionNotFound;
      }
      r := connections[userId].Send(msg);
      assert forall m :: m in matches ==> matches[m].arr[..] == old(matches[m].arr[..]);
    }

    ghost function MembersOf(matchId: Id): seq<Id>
      reads this
    {
      if matchId in members then members[matchId] else []
    }

    /** One round of the loop below; `was` are the queues when it began. */
    method SendToMember(matchId: Id, i: nat, msg: Message, ghost was: map<Id, seq<Message>>) returns (r: SendResult)
      requires Valid() && matchId in matches && i < matches[matchId].len
      requires Queues() == Delivered(was, MembersOf(matchId)[..i], msg)
      modifies connections.Values
      ensures Valid() && Queues() == Delivered(was, MembersOf(matchId)[..i + 1], msg)
      ensures r == OutcomeOf(was, MembersOf(matchId)[i])
    {
      DeliveredStep(was, MembersOf(matchId), i, msg);
      r := SendToUser(matches[matchId].arr[i], msg);
    }

    /** Every registered member whose queue has room gets the message once; nobody else gets it. The result
        is that of the first member who does not. */
    method BroadcastToMatch(matchId: Id, msg: Message) returns (first: SendResult)
      requires Valid()
      modifies connections.Values
      ensures Valid() && Queues() == Delivered(old(Queues()), MembersOf(matchId), msg)
      ensures first == FirstNotSent(OutcomesOf(old(Queues()), MembersOf(matchId)))
    {
      first := Sent;
      ghost var was, s := Queues(), MembersOf(matchId);
      assert Delivered(was, [], msg) == was;
      if matchId !in matches {
        return;
      }
      var users := matches[matchId];
      for i := 0 to users.len
        invariant Valid() && Queues() == Delivered(was, s[..i], msg)
        invariant first == FirstNotSent(OutcomesOf(was, s[..i]))
      {
        var r := SendToMember(matchId, i, msg, was);
        FirstNotSentStep(was, s, i);
        if r != Sent && first == Sent {
          first := r;
        }
      }
      assert s[..users.len] == s;
    }
  }

  /** What sending to a user gives, from the queues of the registered users. */
  function OutcomeOf(queues: map<Id, seq<Message>>, userId: Id): SendResult {
    if userId !in queues then ErrConnectionNotFound
    else if |queues[userId]| < SEND_QUEUE then Sent
    else ErrSendQueueFull
  }

  ghost function OutcomesOf(queues: map<Id, seq<Message>>, s: seq<Id>): seq<SendResult> {
    seq(|s|, i requires 0 <= i < |s| => OutcomeOf(queues, s[i]))
  }

  /** The queues after one message to each listed user. */
  ghost function Delivered(queues: map<Id, seq<Message>>, s: seq<Id>, msg: Message): map<Id, seq<Message>> {
    map u | u in queues :: if u in s && |queues[u]| < SEND_QUEUE then queues[u] + [msg] else queues[u]
  }

  /** Sending succeeds exactly for a registered user with fewer than 256 messages waiting; a broadcast adds the
      message to the queues of the listed users for whom it does, and to no other. */
  lemma SendingIs(queues: map<Id, seq<Message>>, s: seq<Id>, msg: Message, u: Id)
    ensures OutcomeOf(queues, u) == Sent <==> u in queues && |queues[u]| < 256
    ensures OutcomeOf(queues, u) == ErrConnectionNotFound <==> u !in queues
    ensures u in Delivered(queues, s, msg) <==> u in queues
    ensures u in queues ==>
              Delivered(queues, s, msg)[u]
              == if u in s && OutcomeOf(queues, u) == Sent then queues[u] + [msg] else queues[u]
  {
  }

  lemma DeliveredStep(queues: map<Id, seq<Message>>, s: seq<Id>, i: nat, msg: Message)
    requires Distinct(s) && i < |s|
    ensures var now, r := Delivered(queues, s[..i], msg), OutcomeOf(queues, s[i]);
            && OutcomeOf(now, s[i]) == r
            && Delivered(queues, s[..i + 1], msg) == (if r.Sent? then now[s[i] := now[s[i]] + [msg]] else now)
  {
    ElementsStep(s, i);
  }

  lemma FirstNotSentStep(queues: map<Id, seq<Message>>, s: seq<Id>, i: nat)
    requires i < |s|
    ensures var front := OutcomesOf(queues, s[..i]);
            FirstNotSent(OutcomesOf(queues, s[..i + 1]))
            == if FirstNotSent(front) == Sent then OutcomeOf(queues, s[i]) else FirstNotSent(front)
  {
    assert OutcomesOf(queues, s[..i + 1])[..i] == OutcomesOf(queues, s[..i]);
  }

  /** The first result that is not a success, if any. */
  ghost function FirstNotSent(rs: seq<SendResult>): SendResult {
    if rs == [] then Sent
    else
      var n := |rs| - 1;
      if FirstNotSent(rs[..n]) == Sent then rs[n] else FirstNotSent(rs[..n])
  }

  lemma {:induction false} FirstNotSentIs(rs: seq<SendResult>)
    ensures FirstNotSent(rs) == Sent <==> forall i :: 0 <= i < |rs| ==> rs[i] == Sent
    ensures FirstNotSent(rs) != Sent ==>
              exists i :: 0 <= i < |rs| && rs[i] == FirstNotSent(rs) && forall j :: 0 <= j < i ==> rs[j] == Sent
  {
    if rs != [] {
      var n := |rs| - 1;
      FirstNotSentIs(rs[..n]);
      assert forall i :: 0 <= i < n ==> rs[..n][i] == rs[i];
    }
  }

  lemma ElementsStep(s: seq<Id>, i: nat)
    requires Distinct(s) && i < |s|
    ensures s[i] !in s[..i] && forall u :: u in s[..i + 1] <==> u in s[..i] || u == s[i]
  {
    assert s[..i + 1] == s[..i] + [s[i]];
  }

  // ---------------------------------------------------------------------------------------------
  // All orders of operations
  // ---------------------------------------------------------------------------------------------

  /** The hub as a value: connections are told apart by `C`, and `closed` are those it has closed. */
  datatype View<!C(==)> = View(conns: map<Id, C>, closed: set<C>, members: map<Id, seq<Id>>)

  datatype Event<!C(==)> =
    | Register(user: Id, conn: C)
    | Unregister(user: Id)
    | Join(matchId: Id, user: Id)
    | Leave(matchId: Id, user: Id)

  /** Registered connections come fresh from NewConnection. */
  ghost predicate Enabled<C>(v: View<C>, e: Event<C>) {
    e.Register? ==> e.conn !in v.closed && e.conn !in v.conns.Values
  }

  ghost function Closing<C>(v: View<C>, user: Id): set<C> {
    if user in v.conns then {v.conns[user]} else {}
  }

  /** What the methods of Hub do, on values. */
  ghost function After<C>(v: View<C>, e: Event<C>): View<C> {
    match e
    case Register(u, c) => v.(conns := v.conns[u := c], closed := v.closed + Closing(v, u))
    case Unregister(u) => View(v.conns - {u}, v.closed + Closing(v, u), CutAll(v.members, u))
    case Join(m, u) =>
      if m in v.members && u in v.members[m] then v
      else v.(members := v.members[m := (if m in v.members then v.members[m] else []) + [u]])
    case Leave(m, u) =>
      if m in v.members then v.(members := v.members[m := RemoveFirst(v.members[m], u)]) else v
  }

  ghost predicate ViewOk<C>(v: View<C>) {
    && AllDistinct(v.members)
    && (forall u :: u in v.conns ==> v.conns[u] !in v.closed)
    && (forall u1, u2 :: u1 in v.conns && u2 in v.conns && v.conns[u1] == v.conns[u2] ==> u1 == u2)
  }

  ghost predicate Run<C>(vs: seq<View<C>>, es: seq<Event<C>>) {
    && |vs| == |es| + 1 && vs[0] == View(map[], {}, map[])
    && forall i :: 0 <= i < |es| ==> Enabled(vs[i], es[i]) && vs[i + 1] == After(vs[i], es[i])
  }

  lemma ViewOkStep<C>(v: View<C>, e: Event<C>)
    requires ViewOk(v) && Enabled(v, e)
    ensures ViewOk(After(v, e))
  {
    match e
    case Register(_, _) =>
    case Unregister(u) => CutAllDistinct(v.members, u);
    case Join(m, u) =>
      if !(m in v.members && u in v.members[m]) {
        AddOneDistinct(v.members, m, u);
      }
    case Leave(m, u) =>
      if m in v.members {
        CutOneDistinct(v.members, m, u);
      }
  }

  /** Under any order of operations member lists stay duplicate-free and every registered connection is
      open, so the one that a registration or cleanup closes was never closed before. */
  lemma {:induction false} ViewAlwaysOk<C>(vs: seq<View<C>>, es: seq<Event<C>>)
    requires Run(vs, es)
    ensures ViewOk(vs[|es|])
    decreases |es|
  {
    if es != [] {
      var n := |es| - 1;
      ViewAlwaysOk(vs[..n + 1], es[..n]);
      ViewOkStep(vs[n], es[n]);
    }
  }

  /** After UnregisterConnection, in any reachable state, the user has no connection and is in no match. */
  lemma UnregisteredIsGone<C>(vs: seq<View<C>>, es: seq<Event<C>>, u: Id)
    requires Run(vs, es)
    ensures var v := After(vs[|es|], Unregister(u)); u !in v.conns && Nowhere(v.members, u)
  {
    ViewAlwaysOk(vs, es);
    CutAllDistinct(vs[|es|].members, u);
  }

  ghost predicate IsMember<C>(v: View<C>, m: Id, u: Id) {
    m in v.members && u in v.members[m]
  }

  lemma MemberStep<C>(v: View<C>, e: Event<C>, m: Id, u: Id)
    requires ViewOk(v) && Enabled(v, e)
    ensures IsMember(After(v, e), m, u)
            <==> e == Join(m, u) || (IsMember(v, m, u) && e != Leave(m, u) && e != Unregister(u))
  {
    match e
    case Register(_, _) =>
    case Join(_, _) =>
    case Unregister(x) =>
      if m in v.members {
        RemoveFirstDistinct(v.members[m], x);
      }
    case Leave(n, x) =>
      if n in v.members {
        RemoveFirstDistinct(v.members[n], x);
      }
  }

  /** Event i lets the user join the match, and no later one takes the user out of it. */
  ghost predicate JoinsLast<C>(es: seq<Event<C>>, m: Id, u: Id, i: int) {
    0 <= i < |es| && es[i] == Join(m, u) && forall k :: i < k < |es| ==> es[k] != Leave(m, u) && es[k] != Unregister(u)
  }

  lemma JoinsLastNext<C>(es: seq<Event<C>>, m: Id, u: Id)
    requires es != []
    ensures var n := |es| - 1;
            (exists i :: JoinsLast(es, m, u, i))
            <==> es[n] == Join(m, u)
                 || ((exists i :: JoinsLast(es[..n], m, u, i)) && es[n] != Leave(m, u) && es[n] != Unregister(u))
  {
    var n := |es| - 1;
    if i :| JoinsLast(es, m, u, i) && i < n {
      assert JoinsLast(es[..n], m, u, i);
    }
    if i :| JoinsLast(es[..n], m, u, i) && es[n] != Leave(m, u) && es[n] != Unregister(u) {
      assert JoinsLast(es, m, u, i);
    }
    if es[n] == Join(m, u) {
      assert JoinsLast(es, m, u, n);
    }
  }

  /** After any run the members of a match are exactly those who joined it and have neither left it nor been
      unregistered since. */
  lemma {:induction false} MemberIff<C>(vs: seq<View<C>>, es: seq<Event<C>>, m: Id, u: Id)
    requires Run(vs, es)
    ensures IsMember(vs[|es|], m, u) <==> exists i :: JoinsLast(es, m, u, i)
    decreases |es|
  {
    if es != [] {
      var n := |es| - 1;
      MemberIff(vs[..n + 1], es[..n], m, u);
      ViewAlwaysOk(vs[..n + 1], es[..n]);
      MemberStep(vs[n], es[n], m, u);
      JoinsLastNext(es, m, u);
    }
  }

  /** The event replaces or drops the user's connection. */
  ghost predicate Ends<C>(e: Event<C>, u: Id) {
    (e.Register? || e.Unregister?) && e.user == u
  }

  ghost predicate ConnectsLast<C>(es: seq<Event<C>>, u: Id, c: C, i: int) {
    0 <= i < |es| && es[i] == Register(u, c) && forall k :: i < k < |es| ==> !Ends(es[k], u)
  }

  /** After any run a user's connection is the one registered last, unless the user was unregistered since. */
  lemma {:induction false} ConnectionIff<C>(vs: seq<View<C>>, es: seq<Event<C>>, u: Id, c: C)
    requires Run(vs, es)
    ensures (u in vs[|es|].conns && vs[|es|].conns[u] == c) <==> exists i :: ConnectsLast(es, u, c, i)
    decreases |es|
  {
    if es != [] {
      var n := |es| - 1;
      ConnectionIff(vs[..n + 1], es[..n], u, c);
      ConnectsLastNext(es, u, c);
      ConnectionStep(vs[n], es[n], u, c);
    }
  }

  lemma ConnectionStep<C>(v: View<C>, e: Event<C>, u: Id, c: C)
    ensures var v' := After(v, e);
            (u in v'.conns && v'.conns[u] == c)
            <==> e == Register(u, c) || (u in v.conns && v.conns[u] == c && !Ends(e, u))
  {
  }

  lemma ConnectsLastNext<C>(es: seq<Event<C>>, u: Id, c: C)
    requires es != []
    ensures var n := |es| - 1;
            (exists i :: ConnectsLast(es, u, c, i))
            <==> es[n] == Register(u, c) || ((exists i :: ConnectsLast(es[..n], u, c, i)) && !Ends(es[n], u))
  {
    var n := |es| - 1;
    if i :| ConnectsLast(es, u, c, i) && i < n {
      assert ConnectsLast(es[..n], u, c, i);
    }
    if i :| ConnectsLast(es[..n], u, c, i) && !Ends(es[n], u) {
      assert ConnectsLast(es, u, c, i);
    }
    if es[n] == Register(u, c) {
      assert ConnectsLast(es, u, c, n);
    }
  }

  /** Event k ends the connection that event i registered. */
  ghost predicate EndsAt<C>(es: seq<Event<C>>, c: C, i: int, k: int) {
    0 <= i < k < |es| && es[i].Register? && es[i].conn == c && Ends(es[k], es[i].user)
  }

  lemma ClosingIff<C>(vs: seq<View<C>>, es: seq<Event<C>>, e: Event<C>, c: C)
    requires Run(vs, es) && (e.Register? || e.Unregister?)
    ensures c in Closing(vs[|es|], e.user) <==> exists i :: ConnectsLast(es, e.user, c, i)
  {
    ConnectionIff(vs, es, e.user, c);
  }

  lemma EndsAtNext<C>(es: seq<Event<C>>, c: C)
    requires es != []
    ensures var n := |es| - 1;
            (exists i, k :: EndsAt(es, c, i, k))
            <==> || (exists i, k :: EndsAt(es[..n], c, i, k))
                 || (exists i :: 0 <= i < n && es[i].Register? && es[i].conn == c && Ends(es[n], es[i].user))
  {
    var n := |es| - 1;
    if i, k :| EndsAt(es, c, i, k) && k < n {
      assert EndsAt(es[..n], c, i, k);
    }
    if i, k :| EndsAt(es[..n], c, i, k) {
      assert EndsAt(es, c, i, k);
    }
    if i :| 0 <= i < n && es[i].Register? && es[i].conn == c && Ends(es[n], es[i].user) {
      assert EndsAt(es, c, i, n);
    }
  }

  /** The hub has closed exactly the connections whose user was registered again or unregistered after them. */
  lemma {:induction false} ClosedIff<C>(vs: seq<View<C>>, es: seq<Event<C>>, c: C)
    requires Run(vs, es)
    ensures c in vs[|es|].closed <==> exists i, k :: EndsAt(es, c, i, k)
    decreases |es|
  {
    if es != [] {
      var n := |es| - 1;
      ClosedIff(vs[..n + 1], es[..n], c);
      EndsAtNext(es, c);
      ClosedNext(vs, es, c);
    }
  }

  /** What the last event closes besides. */
  lemma ClosedNext<C>(vs: seq<View<C>>, es: seq<Event<C>>, c: C)
    requires Run(vs, es) && es != []
    ensures var n := |es| - 1;
            c in vs[n + 1].closed
            <==> || c in vs[n].closed
                 || (exists i :: 0 <= i < n && es[i].Register? && es[i].conn == c && Ends(es[n], es[i].user))
  {
    var n := |es| - 1;
    var vs', es', e := vs[..n + 1], es[..n], es[n];
    if i :| 0 <= i < n && es[i].Register? && es[i].conn == c && Ends(e, es[i].user) {
      assert es'[i] == es[i];
      CurrentOrClosed(vs', es', i);
    }
    if c in vs[n + 1].closed && c !in vs[n].closed {
      assert Ends(e, e.user) && c in Closing(vs[n], e.user);
      ClosingIff(vs', es', e, c);
      var i :| ConnectsLast(es', e.user, c, i);
      assert es[i] == es'[i];
    }
  }

  /** Event j registers the user, who is not unregistered afterwards. */
  ghost predicate RegistersLast<C>(es: seq<Event<C>>, u: Id, j: nat) {
    && j < |es| && es[j].Register? && es[j].user == u
    && forall k :: j < k < |es| ==> !(es[k].Unregister? && es[k].user == u)
  }

  /** A registered user's connection is that of the latest registration, with no cleanup since. */
  lemma {:induction false} LatestRegistration<C>(vs: seq<View<C>>, es: seq<Event<C>>, u: Id) returns (j: nat)
    requires Run(vs, es) && u in vs[|es|].conns
    ensures RegistersLast(es, u, j) && es[j].conn == vs[|es|].conns[u]
    ensures forall k :: j < k < |es| ==> !(es[k].Register? && es[k].user == u)
    decreases |es|
  {
    var n := |es| - 1;
    if es[n].Register? && es[n].user == u {
      j := n;
    } else {
      j := LatestRegistration(vs[..n + 1], es[..n], u);
    }
  }

  lemma {:induction false} StaysRegistered<C>(vs: seq<View<C>>, es: seq<Event<C>>, u: Id, j: nat)
    requires Run(vs, es) && RegistersLast(es, u, j)
    ensures u in vs[|es|].conns
    decreases |es|
  {
    var n := |es| - 1;
    if j < n {
      StaysRegistered(vs[..n + 1], es[..n], u, j);
    }
  }

  /** Once registered, a connection is the user's current one or has been closed. */
  lemma {:induction false} CurrentOrClosed<C>(vs: seq<View<C>>, es: seq<Event<C>>, i: nat)
    requires Run(vs, es) && i < |es| && es[i].Register?
    ensures var v := vs[|es|]; es[i].conn in v.closed || (es[i].user in v.conns && v.conns[es[i].user] == es[i].conn)
    decreases |es|
  {
    var n := |es| - 1;
    if i < n {
      CurrentOrClosed(vs[..n + 1], es[..n], i);
    }
  }

  /** HandleConnection cleans up by user, not by connection. Event i registers the connection of a handler;
      when that handler ends, its cleanup closes a connection other than its own exactly when the user has
      registered again since and has not been cleaned up after that. The newer connection, open until then,
      is dropped and the user leaves every match. */
  lemma StaleCleanup<C>(vs: seq<View<C>>, es: seq<Event<C>>, i: nat)
    requires Run(vs, es) && i < |es| && es[i].Register?
    ensures var v, v' := vs[|es|], After(vs[|es|], Unregister(es[i].user));
            && ((exists c :: c != es[i].conn && c !in v.closed && c in v'.closed)
                <==> exists j :: i < j < |es| && RegistersLast(es, es[i].user, j))
            && es[i].user !in v'.conns && Nowhere(v'.members, es[i].user)
  {
    var u, mine, v := es[i].user, es[i].conn, vs[|es|];
    ViewAlwaysOk(vs, es);
    UnregisteredIsGone(vs, es, u);
    if u in v.conns {
      var j := LatestRegistration(vs, es, u);
      if j > i {
        CurrentOrClosed(vs[..j + 1], es[..j], i);
        assert v.conns[u] != mine && v.conns[u] in Closing(v, u);
      }
    }
    if j :| i < j < |es| && RegistersLast(es, u, j) {
      StaysRegistered(vs, es, u, j);
    }
  }

  /** ... and that does happen: a reconnecting user loses the new connection to the old one's cleanup. */
  lemma ReconnectIsDropped(u: Id, first: nat, second: nat) returns (vs: seq<View<nat>>, es: seq<Event<nat>>)
    requires first != second
    ensures Run(vs, es) && es == [Register(u, first), Register(u, second), Unregister(u)]
    ensures u in vs[2].conns && vs[2].conns[u] == second && first in vs[2].closed
    ensures u !in vs[3].conns && second in vs[3].closed
  {
    es := [Register(u, first), Register(u, second), Unregister(u)];
    var v0 := View(map[], {}, map[]);
    var v1 := After(v0, es[0]);
    var v2 := After(v1, es[1]);
    vs := [v0, v1, v2, After(v2, es[2])];
    assert second !in v1.conns.Values && second !in v1.closed;
  }

  // ---------------------------------------------------------------------------------------------
  // A broadcast overtaken by a cut
  // ---------------------------------------------------------------------------------------------

  /** BroadcastToMatch walks the slice without the lock while a cut shifts the same array, one element at a
      time. `moved` counts the elements shifted so far; `read` are the users served and `behind` how many
      elements had been shifted when each was read. */
  datatype Race = Race(arr: seq<Id>, moved: nat, read: seq<Id>, behind: seq<nat>)

  datatype RaceStep = ReadNext | MoveNext

  /** `s` is the member list before, and `i` the place that is cut out. */
  ghost predicate RaceEnabled(s: seq<Id>, i: nat, r: Race, step: RaceStep) {
    |r.arr| == |s| && if step.ReadNext? then |r.read| < |s| else i + r.moved + 1 < |s|
  }

  ghost function RaceApply(s: seq<Id>, i: nat, r: Race, step: RaceStep): Race
    requires RaceEnabled(s, i, r, step)
  {
    match step
    case ReadNext => r.(read := r.read + [r.arr[|r.read|]], behind := r.behind + [r.moved])
    case MoveNext => r.(arr := r.arr[i + r.moved := r.arr[i + r.moved + 1]], moved := r.moved + 1)
  }

  ghost predicate RaceRun(s: seq<Id>, i: nat, tr: seq<Race>, steps: seq<RaceStep>) {
    && i < |s| && |tr| == |steps| + 1 && tr[0] == Race(s, 0, [], [])
    && forall k :: 0 <= k < |steps| ==>
         RaceEnabled(s, i, tr[k], steps[k]) && tr[k + 1] == RaceApply(s, i, tr[k], steps[k])
  }

  /** What slot p holds once `moved` elements are shifted. */
  ghost function Slot(s: seq<Id>, i: nat, moved: nat, p: nat): Id
    requires i + moved < |s| && p < |s|
  {
    if i <= p < i + moved then s[p + 1] else s[p]
  }

  ghost predicate RaceInv(s: seq<Id>, i: nat, r: Race) {
    && i + r.moved < |s| && |r.arr| == |s| && |r.behind| == |r.read| <= |s|
    && (forall p :: 0 <= p < |s| ==> r.arr[p] == Slot(s, i, r.moved, p))
    && (forall p :: 0 <= p < |r.read| ==> r.behind[p] <= r.moved && r.read[p] == Slot(s, i, r.behind[p], p))
    && (forall p, q :: 0 <= p < q < |r.behind| ==> r.behind[p] <= r.behind[q])
  }

  lemma {:induction false} RaceInvHolds(s: seq<Id>, i: nat, tr: seq<Race>, steps: seq<RaceStep>)
    requires RaceRun(s, i, tr, steps)
    ensures RaceInv(s, i, tr[|steps|])
    decreases |steps|
  {
    if steps != [] {
      var n := |steps| - 1;
      RaceInvHolds(s, i, tr[..n + 1], steps[..n]);
    }
  }

  lemma CountMiddle<T>(front: seq<T>, middle: seq<T>, back: seq<T>, x: T)
    requires x !in front && x !in back
    ensures multiset(front + middle + back)[x] == multiset(middle)[x]
  {
  }

  lemma ThreeParts<T>(r: seq<T>, a: nat, b: nat)
    requires a <= b <= |r|
    ensures r == r[..a] + r[a..b] + r[b..]
  {
  }

  /** A value that sits in no place but the neighbours q - 1 and q is counted there. */
  lemma CountAround<T>(r: seq<T>, q: nat, x: T)
    requires q < |r| && forall p :: 0 <= p < |r| && p != q && p != q - 1 ==> r[p] != x
    ensures multiset(r)[x] == (if q > 0 && r[q - 1] == x then 1 else 0) + (if r[q] == x then 1 else 0)
  {
    var start := if q > 0 then q - 1 else 0;
    var middle := r[start..q + 1];
    ThreeParts(r, start, q + 1);
    CountMiddle(r[..start], middle, r[q + 1..], x);
    assert q > 0 ==> middle == [r[q - 1], r[q]];
    assert q == 0 ==> middle == [r[q]];
  }

  /** How often a finished broadcast serves a member who stays: not at all when the shift passes both of the
      member's places between the two reads, twice when it stands right between the places at both, and
      once otherwise. */
  lemma ServedTimes(s: seq<Id>, i: nat, tr: seq<Race>, steps: seq<RaceStep>, q: nat)
    requires RaceRun(s, i, tr, steps) && Distinct(s) && q < |s| && q != i && |tr[|steps|].read| == |s|
    ensures var r := tr[|steps|];
            && |r.behind| == |s|
            && multiset(r.read)[s[q]] == if q < i then 1
                                         else if r.behind[q - 1] < q - i < r.behind[q] then 0
                                         else if r.behind[q - 1] == q - i == r.behind[q] then 2
                                         else 1
  {
    var r := tr[|steps|];
    RaceInvHolds(s, i, tr, steps);
    forall p | 0 <= p < |s| ensures r.read[p] == s[q] <==>
                                      (p == q && !(i <= q < i + r.behind[q]))
                                      || (p == q - 1 && i <= p < i + r.behind[p])
    {
      assert r.read[p] == Slot(s, i, r.behind[p], p);
    }
    CountAround(r.read, q, s[q]);
  }

  /** The handlers put two players in a match. Nobody who stays is missed there, but the second player is
      served twice exactly when the first is cut out after the broadcast took the list and before it read. */
  lemma PairServed(s: seq<Id>, i: nat, tr: seq<Race>, steps: seq<RaceStep>, q: nat)
    requires RaceRun(s, i, tr, steps) && Distinct(s) && |s| == 2 && q < 2 && q != i && |tr[|steps|].read| == 2
    ensures |tr[|steps|].behind| == 2
    ensures multiset(tr[|steps|].read)[s[q]] == if i == 0 && tr[|steps|].behind[0] == 1 then 2 else 1
  {
    RaceInvHolds(s, i, tr, steps);
    ServedTimes(s, i, tr, steps, q);
  }

  lemma PairServedTwice(a: Id, b: Id) returns (tr: seq<Race>, steps: seq<RaceStep>)
    requires a != b
    ensures RaceRun([a, b], 0, tr, steps) && tr[|steps|].read == [b, b]
  {
    steps := [MoveNext, ReadNext, ReadNext];
    var r0 := Race([a, b], 0, [], []);
    var r1 := RaceApply([a, b], 0, r0, MoveNext);
    var r2 := RaceApply([a, b], 0, r1, ReadNext);
    tr := [r0, r1, r2, RaceApply([a, b], 0, r2, ReadNext)];
  }

  /** A cut that happens as a whole between two reads, after k members were served, misses a staying member
      exactly when it lies behind the reader, who has not reached the last place: the one whose turn it was. */
  lemma AtomicCutSkips(s: seq<Id>, i: nat, tr: seq<Race>, steps: seq<RaceStep>, k: nat, q: nat)
    requires RaceRun(s, i, tr, steps) && Distinct(s) && q < |s| && q != i && |tr[|steps|].read| == |s| && k <= |s|
    requires |tr[|steps|].behind| == |s|
    requires forall p :: 0 <= p < |s| ==> tr[|steps|].behind[p] == if p < k then 0 else |s| - 1 - i
    ensures s[q] !in tr[|steps|].read <==> i < k < |s| - 1 && q == k
  {
    ServedTimes(s, i, tr, steps, q);
    assert s[q] !in tr[|steps|].read <==> multiset(tr[|steps|].read)[s[q]] == 0;
  }
}
