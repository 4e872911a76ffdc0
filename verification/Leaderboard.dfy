/** Leaderboard aggregates, internal/leaderboard/service.go: counters in Redis sorted sets and hashes,
    addressed by string keys. Entry expiry (entryTTL) is off. */
module Leaderboard {
  import opened Common

  datatype Request = Request(
    userId: Uuid, username: string, score: int, correctCount: int, questionCount: int,
    won: bool, windows: seq<string>, eligible: bool)

  datatype Entry = Entry(userId: Uuid, username: string, score: int, wins: int, games: int, correct: int,
                         questions: int)

  /** One hash, "wins", "games", "correct", "questions" and "username". */
  datatype Meta = Meta(username: string, wins: int, games: int, correct: int, questions: int)

  datatype Store = Store(zsets: map<string, map<Uuid, int>>, hashes: map<string, Meta>)

  const EMPTY: Store := Store(map[], map[])
  const DEFAULT_WINDOWS: seq<string> := ["daily", "weekly", "monthly", "all_time"]
  const PRIVATE: string := "private_room:"

  function EntryOf(req: Request): Entry {
    Entry(req.userId, req.username, req.score, if req.won then 1 else 0, 1, req.correctCount, req.questionCount)
  }

  // ---------------------------------------------------------------------------------------------
  // Keys
  // ---------------------------------------------------------------------------------------------

  function LeaderboardKey(prefix: string, window: string): string {
    prefix + ":" + window
  }

  function MetaKey(prefix: string, window: string, user: Uuid): string {
    prefix + ":" + window + ":meta:" + user
  }

  function PrivateRoomLeaderboardKey(prefix: string, roomCode: string): string {
    prefix + ":private_room:" + roomCode
  }

  function PrivateRoomMetaKey(prefix: string, roomCode: string, user: Uuid): string {
    prefix + ":private_room:" + roomCode + ":meta:" + user
  }

  lemma SplitEnd(a: string, b: string, x: string, y: string)
    requires a + x == b + y && |x| == |y|
    ensures a == b && x == y
  {
    assert a == (a + x)[..|a|] && b == (b + y)[..|b|];
    assert x == (a + x)[|a|..] && y == (b + y)[|b|..];
  }

  lemma SplitStart(a: string, x: string, y: string)
    requires a + x == a + y
    ensures x == y
  {
    assert x == (a + x)[|a|..] && y == (a + y)[|a|..];
  }

  /** Window keys tell windows, and users, apart. */
  lemma KeysInjective(prefix: string, w1: string, w2: string, u1: Uuid, u2: Uuid)
    ensures LeaderboardKey(prefix, w1) == LeaderboardKey(prefix, w2) <==> w1 == w2
    ensures MetaKey(prefix, w1, u1) == MetaKey(prefix, w2, u2) <==> w1 == w2 && u1 == u2
  {
    if LeaderboardKey(prefix, w1) == LeaderboardKey(prefix, w2) {
      SplitStart(prefix + ":", w1, w2);
    }
    if MetaKey(prefix, w1, u1) == MetaKey(prefix, w2, u2) {
      SplitEnd(prefix + ":" + w1 + ":meta:", prefix + ":" + w2 + ":meta:", u1, u2);
      SplitEnd(prefix + ":" + w1, prefix + ":" + w2, ":meta:", ":meta:");
      SplitStart(prefix + ":", w1, w2);
    }
  }

  /** A private room is addressed like a window named "private_room:" and its code, so it shares a
      counter with a window exactly when the window bears that name. */
  lemma PrivateKeyIsWindowKey(prefix: string, roomCode: string, w: string, u1: Uuid, u2: Uuid)
    ensures PrivateRoomLeaderboardKey(prefix, roomCode) == LeaderboardKey(prefix, PRIVATE + roomCode)
    ensures PrivateRoomMetaKey(prefix, roomCode, u1) == MetaKey(prefix, PRIVATE + roomCode, u1)
    ensures PrivateRoomLeaderboardKey(prefix, roomCode) == LeaderboardKey(prefix, w) <==> w == PRIVATE + roomCode
    ensures PrivateRoomMetaKey(prefix, roomCode, u1) == MetaKey(prefix, w, u2) <==> w == PRIVATE + roomCode && u1 == u2
  {
    assert prefix + ":private_room:" == prefix + ":" + PRIVATE;
    assert prefix + ":private_room:" + roomCode == prefix + ":" + (PRIVATE + roomCode);
    KeysInjective(prefix, PRIVATE + roomCode, w, u1, u2);
  }

  /** The keys of a daily board and of a room's board, spelled out. */
  lemma KeyExamples(u: Uuid)
    ensures LeaderboardKey("lb", "daily") == "lb:daily" && MetaKey("lb", "daily", u) == "lb:daily:meta:" + u
    ensures PrivateRoomLeaderboardKey("lb", "AB12") == "lb:private_room:AB12"
    ensures PrivateRoomMetaKey("lb", "AB12", u) == "lb:private_room:AB12:meta:" + u
  {
  }

  lemma DefaultWindowsNotPrivate(i: nat, roomCode: string)
    requires i < |DEFAULT_WINDOWS|
    ensures DEFAULT_WINDOWS[i] != PRIVATE + roomCode
  {
    assert (PRIVATE + roomCode)[0] == 'p';
  }

  // ---------------------------------------------------------------------------------------------
  // The service
  // ---------------------------------------------------------------------------------------------

  function ZGet(s: Store, key: string, u: Uuid): int {
    if key in s.zsets && u in s.zsets[key] then s.zsets[key][u] else 0
  }

  function HGet(s: Store, key: string): Meta {
    if key in s.hashes then s.hashes[key] else Meta("", 0, 0, 0, 0)
  }

  /** One transaction: ZINCRBY, four HINCRBY and one HSET. */
  function Bump(s: Store, zKey: string, metaKey: string, e: Entry): Store {
    var z := if zKey in s.zsets then s.zsets[zKey] else map[];
    var m := HGet(s, metaKey);
    Store(s.zsets[zKey := z[e.userId := ZGet(s, zKey, e.userId) + e.score]],
          s.hashes[metaKey := Meta(e.username, m.wins + e.wins, m.games + e.games,
                                   m.correct + e.correct, m.questions + e.questions)])
  }

  /** One counted entry: the window it went to, a private room being the window of its name. */
  datatype Update = Update(window: string, entry: Entry)

  function BumpAll(prefix: string, s: Store, us: seq<Update>): Store {
    if us == [] then s
    else
      var x := us[|us| - 1];
      Bump(BumpAll(prefix, s, us[..|us| - 1]),
           LeaderboardKey(prefix, x.window), MetaKey(prefix, x.window, x.entry.userId), x.entry)
  }

  function WindowsFor(own: seq<string>, req: Request): seq<string> {
    if |req.windows| == 0 then own else req.windows
  }

  /** What a call to RecordResult counts when update number `failAt` (from 0) is the first to fail. */
  function ResultUpdates(own: seq<string>, req: Request, failAt: nat): seq<Update> {
    var ws := WindowsFor(own, req);
    var n := Min(failAt, |ws|);
    if !req.eligible then [] else seq(n, i requires 0 <= i < n => Update(ws[i], EntryOf(req)))
  }

  function PrivateUpdates(roomCode: string, req: Request, ok: bool): seq<Update> {
    if req.eligible && ok then [Update(PRIVATE + roomCode, EntryOf(req))] else []
  }

  datatype Row = Row(
    userId: Uuid, username: string, score: int, wins: int, games: int, correct: int, questions: int, accuracy: real)

  /** The row holds the stored counters, and the accuracy pooled from them. */
  predicate ShowsMeta(row: Row, m: Meta) {
    && row.username == m.username && row.wins == m.wins && row.games == m.games
    && row.correct == m.correct && row.questions == m.questions
    && row.accuracy == if m.questions > 0 then m.correct as real / m.questions as real else 0.0
  }

  /** ZREVRANGE 0 n-1 on a sorted set: its n highest members, highest first. */
  ghost predicate IsRevRange(z: map<Uuid, int>, n: nat, rs: seq<(Uuid, int)>) {
    && |rs| == Min(n, |z|)
    && (forall i :: 0 <= i < |rs| ==> rs[i].0 in z && rs[i].1 == z[rs[i].0])
    && (forall i, j :: 0 <= i < j < |rs| ==> rs[i].0 != rs[j].0 && rs[i].1 >= rs[j].1)
    && (forall u, i :: u in z && 0 <= i < |rs| && (forall j :: 0 <= j < |rs| ==> rs[j].0 != u) ==> z[u] <= rs[i].1)
  }

  class Service {
    const prefix: string
    const windows: seq<string>
    const topN: nat
    var redis: Store

    constructor (prefix: string, windows: seq<string>, topN: int)
      ensures this.prefix == (if prefix == "" then "lb" else prefix)
      ensures this.windows == (if |windows| == 0 then DEFAULT_WINDOWS else windows)
      ensures this.topN == (if topN <= 0 then 50 else topN) && redis == EMPTY
    {
      this.prefix := if prefix == "" then "lb" else prefix;
      this.windows := if |windows| == 0 then DEFAULT_WINDOWS else windows;
      this.topN := if topN <= 0 then 50 else topN;
      redis := EMPTY;
    }

    method UpdateWindow(window: string, entry: Entry, ok: bool)
      modifies this`redis
      ensures redis == if ok then BumpAll(prefix, old(redis), [Update(window, entry)]) else old(redis)
    {
      if ok {
        redis := Bump(redis, LeaderboardKey(prefix, window), MetaKey(prefix, window, entry.userId), entry);
      }
      assert BumpAll(prefix, old(redis), []) == old(redis);
    }

    /** `failAt` is the number of the window update that Redis refuses, if it comes that far. */
    method RecordResult(req: Request, failAt: nat) returns (ok: bool)
      modifies this`redis
      ensures redis == BumpAll(prefix, old(redis), ResultUpdates(windows, req, failAt))
      ensures ok <==> !req.eligible || failAt >= |WindowsFor(windows, req)|
    {
      if !req.eligible {
        return true;
      }
      var ws := req.windows;
      if |ws| == 0 {
        ws := windows;
      }
      var entry := EntryOf(req);
      for i := 0 to |ws|
        invariant i <= failAt
        invariant redis == BumpAll(prefix, old(redis), ResultUpdates(windows, req, i))
      {
        var us, us' := ResultUpdates(windows, req, i), ResultUpdates(windows, req, i + 1);
        assert us' == us + [Update(ws[i], entry)];
        assert us'[..|us|] == us;
        UpdateWindow(ws[i], entry, i != failAt);
        if i == failAt {
          return false;
        }
        assert redis == BumpAll(prefix, old(redis), us') by {
          BumpAllAppend(prefix, old(redis), us, [Update(ws[i], entry)]);
        }
      }
      assert ResultUpdates(windows, req, |ws|) == ResultUpdates(windows, req, failAt);
      return true;
    }

    method RecordPrivateRoomResult(roomCode: string, req: Request, ok: bool) returns (recorded: bool)
      modifies this`redis
      ensures redis == BumpAll(prefix, old(redis), PrivateUpdates(roomCode, req, ok))
      ensures recorded <==> !req.eligible || ok
    {
      if !req.eligible {
        return true;
      }
      var entry := EntryOf(req);
      var zKey := PrivateRoomLeaderboardKey(prefix, roomCode);
      var metaKey := PrivateRoomMetaKey(prefix, roomCode, entry.userId);
      PrivateKeyIsWindowKey(prefix, roomCode, "", entry.userId, entry.userId);
      if ok {
        redis := Bump(redis, zKey, metaKey, entry);
      }
      assert BumpAll(prefix, old(redis), []) == old(redis);
      return ok;
    }

    /** `readable` is whether Redis answers. */
    method ReadMeta(window: string, user: Uuid, readable: bool) returns (r: Option<Row>)
      ensures r.None? <==> !readable
      ensures r.Some? ==> r.value.userId == user && ShowsMeta(r.value, HGet(redis, MetaKey(prefix, window, user)))
    {
      if !readable {
        return None;
      }
      var metaKey := MetaKey(prefix, window, user);
      if metaKey !in redis.hashes {
        return Some(Row(user, "", 0, 0, 0, 0, 0, 0.0));
      }
      var m := redis.hashes[metaKey];
      var accuracy := 0.0;
      if m.questions > 0 {
        accuracy := m.correct as real / m.questions as real;
      }
      return Some(Row(user, m.username, 0, m.wins, m.games, m.correct, m.questions, accuracy));
    }

    /** `results` is the reply of ZREVRANGE, none when the read fails; users whose metadata cannot be read
        are left out. */
    method Top(window: string, limit: int, results: Option<seq<(Uuid, int)>>, readable: Uuid -> bool)
      returns (r: Result<seq<Row>>)
      requires results.Some? ==>
                 var n := if limit <= 0 || limit > topN then topN else limit;
                 var key := LeaderboardKey(prefix, window);
                 IsRevRange(if key in redis.zsets then redis.zsets[key] else map[], n, results.value)
      ensures r.Err? <==> results.None?
      ensures r.Ok? ==>
                && |r.value| == |Readable(results.value, readable)| <= |results.value| <= topN
                && (forall i :: 0 <= i < |r.value| ==>
                      var row := r.value[i];
                      && row.userId == Readable(results.value, readable)[i].0
                      && row.score == ZGet(redis, LeaderboardKey(prefix, window), row.userId)
                      && ShowsMeta(row, HGet(redis, MetaKey(prefix, window, row.userId))))
                && (forall i, j :: 0 <= i < j < |r.value| ==>
                      r.value[i].score >= r.value[j].score && r.value[i].userId != r.value[j].userId)
    {
      if results.None? {
        return Err("fetch leaderboard");
      }
      var rows := RowsOf(window, results.value, readable);
      ReadableFacts(results.value, readable);
      return Ok(rows);
    }

    ghost predicate IsRow(window: string, row: Row, x: (Uuid, int))
      reads this
    {
      row.userId == x.0 && row.score == x.1 && ShowsMeta(row, HGet(redis, MetaKey(prefix, window, row.userId)))
    }

    method RowsOf(window: string, rs: seq<(Uuid, int)>, readable: Uuid -> bool) returns (rows: seq<Row>)
      ensures |rows| == |Readable(rs, readable)|
      ensures forall k :: 0 <= k < |rows| ==> IsRow(window, rows[k], Readable(rs, readable)[k])
    {
      rows := [];
      for i := 0 to |rs|
        invariant |rows| == |Readable(rs[..i], readable)|
        invariant forall k :: 0 <= k < |rows| ==> IsRow(window, rows[k], Readable(rs[..i], readable)[k])
      {
        assert rs[..i + 1][..i] == rs[..i];
        var meta := ReadMeta(window, rs[i].0, readable(rs[i].0));
        if meta.Some? {
          var row := meta.value.(score := rs[i].1);
          assert IsRow(window, row, rs[i]);
          rows := rows + [row];
        }
      }
      assert rs[..|rs|] == rs;
    }
  }

  /** The replies whose metadata can be read, in order. */
  function Readable(rs: seq<(Uuid, int)>, readable: Uuid -> bool): seq<(Uuid, int)> {
    if rs == [] then []
    else
      var n := |rs| - 1;
      Readable(rs[..n], readable) + if readable(rs[n].0) then [rs[n]] else []
  }

  /** Distinct users by falling score, as a reply lists them. */
  ghost predicate Ranked(rs: seq<(Uuid, int)>) {
    forall i, j :: 0 <= i < j < |rs| ==> rs[i].0 != rs[j].0 && rs[i].1 >= rs[j].1
  }

  /** They keep their order; nothing is dropped when all can be read. */
  lemma {:induction false} ReadableFacts(rs: seq<(Uuid, int)>, readable: Uuid -> bool)
    ensures var kept := Readable(rs, readable);
            && |kept| <= |rs| && (forall k :: 0 <= k < |kept| ==> kept[k] in rs)
            && ((forall i :: 0 <= i < |rs| ==> readable(rs[i].0)) ==> kept == rs)
            && (Ranked(rs) ==> Ranked(kept))
  {
    if rs != [] {
      var n := |rs| - 1;
      ReadableFacts(rs[..n], readable);
      assert rs == rs[..n] + [rs[n]];
      RankedAppend(rs, Readable(rs[..n], readable));
    }
  }

  lemma RankedAppend(rs: seq<(Uuid, int)>, kept: seq<(Uuid, int)>)
    requires rs != [] && forall k :: 0 <= k < |kept| ==> kept[k] in rs[..|rs| - 1]
    ensures Ranked(rs) ==> Ranked(rs[..|rs| - 1]) && (Ranked(kept) ==> Ranked(kept + [rs[|rs| - 1]]))
  {
  }

  /** They are exactly those that can be read. */
  lemma {:induction false} ReadableAre(rs: seq<(Uuid, int)>, readable: Uuid -> bool, x: (Uuid, int))
    ensures x in Readable(rs, readable) <==> x in rs && readable(x.0)
  {
    if rs != [] {
      var n := |rs| - 1;
      ReadableAre(rs[..n], readable, x);
      assert rs == rs[..n] + [rs[n]];
    }
  }

  lemma {:induction false} BumpAllAppend(prefix: string, s: Store, us: seq<Update>, vs: seq<Update>)
    ensures BumpAll(prefix, s, us + vs) == BumpAll(prefix, BumpAll(prefix, s, us), vs)
    decreases |vs|
  {
    if vs == [] {
      assert us + vs == us;
    } else {
      var n := |vs| - 1;
      assert (us + vs)[..|us + vs| - 1] == us + vs[..n];
      BumpAllAppend(prefix, s, us, vs[..n]);
    }
  }

  // ---------------------------------------------------------------------------------------------
  // Counters are folds over the entries applied
  // ---------------------------------------------------------------------------------------------

  datatype Totals = Totals(score: int, wins: int, games: int, correct: int, questions: int)

  function Plus(a: Totals, b: Totals): Totals {
    Totals(a.score + b.score, a.wins + b.wins, a.games + b.games, a.correct + b.correct, a.questions + b.questions)
  }

  function EntryTotals(e: Entry): Totals {
    Totals(e.score, e.wins, e.games, e.correct, e.questions)
  }

  /** What the store shows for a user in a window. */
  function Shown(prefix: string, s: Store, w: string, u: Uuid): Totals {
    var m := HGet(s, MetaKey(prefix, w, u));
    Totals(ZGet(s, LeaderboardKey(prefix, w), u), m.wins, m.games, m.correct, m.questions)
  }

  /** The entries of one user applied to one window. */
  function Applied(us: seq<Update>, w: string, u: Uuid): seq<Entry> {
    if us == [] then []
    else
      var x := us[|us| - 1];
      Applied(us[..|us| - 1], w, u) + if x.window == w && x.entry.userId == u then [x.entry] else []
  }

  function Fold(es: seq<Entry>): Totals {
    if es == [] then Totals(0, 0, 0, 0, 0) else Plus(Fold(es[..|es| - 1]), EntryTotals(es[|es| - 1]))
  }

  lemma BumpShown(prefix: string, s: Store, x: Update, w: string, u: Uuid)
    ensures var s' := Bump(s, LeaderboardKey(prefix, x.window), MetaKey(prefix, x.window, x.entry.userId), x.entry);
            Shown(prefix, s', w, u)
            == if x.window == w && x.entry.userId == u then Plus(Shown(prefix, s, w, u), EntryTotals(x.entry))
               else Shown(prefix, s, w, u)
  {
    KeysInjective(prefix, x.window, w, x.entry.userId, u);
  }

  lemma FoldSnoc(es: seq<Entry>, e: Entry)
    ensures Fold(es + [e]) == Plus(Fold(es), EntryTotals(e))
  {
    assert (es + [e])[..|es|] == es;
  }

  lemma PlusLaws(a: Totals, b: Totals, c: Totals)
    ensures Plus(Plus(a, b), c) == Plus(a, Plus(b, c))
    ensures Plus(a, Totals(0, 0, 0, 0, 0)) == a
  {
  }

  lemma BumpAllShown(prefix: string, s: Store, us: seq<Update>, w: string, u: Uuid)
    requires us != []
    ensures var x, before := us[|us| - 1], Shown(prefix, BumpAll(prefix, s, us[..|us| - 1]), w, u);
            Shown(prefix, BumpAll(prefix, s, us), w, u)
            == if x.window == w && x.entry.userId == u then Plus(before, EntryTotals(x.entry)) else before
  {
    BumpShown(prefix, BumpAll(prefix, s, us[..|us| - 1]), us[|us| - 1], w, u);
  }

  lemma FoldApplied(us: seq<Update>, w: string, u: Uuid)
    requires us != []
    ensures var x, before := us[|us| - 1], Fold(Applied(us[..|us| - 1], w, u));
            Fold(Applied(us, w, u))
            == if x.window == w && x.entry.userId == u then Plus(before, EntryTotals(x.entry)) else before
  {
    var a := Applied(us[..|us| - 1], w, u);
    FoldSnoc(a, us[|us| - 1].entry);
    assert a + [] == a;
  }

  /** Updates move every counter of every window by the fold over the entries applied there. */
  lemma {:induction false} CountersAdd(prefix: string, s: Store, us: seq<Update>, w: string, u: Uuid)
    ensures Shown(prefix, BumpAll(prefix, s, us), w, u) == Plus(Shown(prefix, s, w, u), Fold(Applied(us, w, u)))
    decreases |us|
  {
    var start := Shown(prefix, s, w, u);
    if us == [] {
      PlusLaws(start, start, start);
    } else {
      var n := |us| - 1;
      CountersAdd(prefix, s, us[..n], w, u);
      BumpAllShown(prefix, s, us, w, u);
      FoldApplied(us, w, u);
      PlusLaws(start, Fold(Applied(us[..n], w, u)), EntryTotals(us[n].entry));
    }
  }

  /** After any run of updates from an empty store, every counter of every window equals the fold over
      the entries applied there. */
  lemma CountersAreFolds(prefix: string, us: seq<Update>, w: string, u: Uuid)
    ensures Shown(prefix, BumpAll(prefix, EMPTY, us), w, u) == Fold(Applied(us, w, u))
  {
    CountersAdd(prefix, EMPTY, us, w, u);
  }

  /** One call to the service: its request and where Redis failed. */
  datatype Event =
    | Result(req: Request, failAt: nat)
    | PrivateResult(roomCode: string, req: Request, ok: bool)

  function UpdatesOf(own: seq<string>, e: Event): seq<Update> {
    match e
    case Result(req, failAt) => ResultUpdates(own, req, failAt)
    case PrivateResult(code, req, ok) => PrivateUpdates(code, req, ok)
  }

  function RunUpdates(own: seq<string>, run: seq<Event>): seq<Update> {
    if run == [] then [] else RunUpdates(own, run[..|run| - 1]) + UpdatesOf(own, run[|run| - 1])
  }

  function StoreAfter(prefix: string, own: seq<string>, run: seq<Event>): Store {
    BumpAll(prefix, EMPTY, RunUpdates(own, run))
  }

  lemma {:induction false} AppliedAppend(us: seq<Update>, vs: seq<Update>, w: string, u: Uuid)
    ensures Applied(us + vs, w, u) == Applied(us, w, u) + Applied(vs, w, u)
    decreases |vs|
  {
    if vs == [] {
      assert us + vs == us;
    } else {
      var n := |vs| - 1;
      assert (us + vs)[..|us + vs| - 1] == us + vs[..n];
      AppliedAppend(us, vs[..n], w, u);
    }
  }

  /** A recorded call extends the run by its updates. */
  lemma StoreStep(prefix: string, own: seq<string>, run: seq<Event>, e: Event)
    ensures StoreAfter(prefix, own, run + [e]) == BumpAll(prefix, StoreAfter(prefix, own, run), UpdatesOf(own, e))
  {
    assert (run + [e])[..|run|] == run;
    BumpAllAppend(prefix, EMPTY, RunUpdates(own, run), UpdatesOf(own, e));
  }

  /** Results recorded for private rooms change no counter of a window, unless the window is named
      like a private room. */
  lemma PrivateLeavesWindows(prefix: string, own: seq<string>, run: seq<Event>, e: Event, w: string, u: Uuid)
    requires e.PrivateResult? && w != PRIVATE + e.roomCode
    ensures Shown(prefix, StoreAfter(prefix, own, run + [e]), w, u) == Shown(prefix, StoreAfter(prefix, own, run), w, u)
  {
    var vs := UpdatesOf(own, e);
    StoreStep(prefix, own, run, e);
    CountersAdd(prefix, StoreAfter(prefix, own, run), vs, w, u);
    assert vs == [] || (vs == [vs[0]] && vs[..0] == []);
    assert Applied(vs, w, u) == [];
  }

  lemma AppliedSnoc(us: seq<Update>, x: Update, w: string, u: Uuid)
    ensures Applied(us + [x], w, u)
            == if x.window == w && x.entry.userId == u then Applied(us, w, u) + [x.entry] else Applied(us, w, u)
  {
    assert (us + [x])[..|us|] == us;
    assert Applied(us, w, u) + [] == Applied(us, w, u);
  }

  /** One entry of which only update i goes to the window reaches it once, if it gets so far. */
  lemma {:induction false} AppliedOnce(us: seq<Update>, e: Entry, w: string, i: nat, u: Uuid)
    requires forall k :: 0 <= k < |us| ==> us[k].entry == e && (us[k].window == w <==> k == i)
    ensures Applied(us, w, u) == if i < |us| && u == e.userId then [e] else []
    decreases |us|
  {
    if us != [] {
      var n := |us| - 1;
      AppliedOnce(us[..n], e, w, i, u);
      assert us == us[..n] + [us[n]];
      AppliedSnoc(us[..n], us[n], w, u);
      AppendOne(Applied(us[..n], w, u), e);
    }
  }

  lemma AppendOne<T>(s: seq<T>, x: T)
    ensures s == [] ==> s + [x] == [x]
  {
  }

  lemma AppliedInWindows(own: seq<string>, req: Request, n: nat, i: nat, u: Uuid)
    requires Distinct(own) && i < |own| && req.windows == []
    ensures Applied(ResultUpdates(own, req, n), own[i], u)
            == if req.eligible && i < n && u == req.userId then [EntryOf(req)] else []
  {
    EntriesAreOwn(own, req, n);
    AppliedOnce(ResultUpdates(own, req, n), EntryOf(req), own[i], i, u);
  }

  lemma EntriesAreOwn(own: seq<string>, req: Request, n: nat)
    ensures var us, ws := ResultUpdates(own, req, n), WindowsFor(own, req);
            && |us| == (if req.eligible then Min(n, |ws|) else 0)
            && forall k :: 0 <= k < |us| ==> us[k] == Update(ws[k], EntryOf(req))
  {
  }

  /** One more window updated is one more update at the end, until the list is exhausted. */
  lemma UpdatesStep(own: seq<string>, req: Request, n: nat)
    requires req.eligible && n > 0
    ensures var ws := WindowsFor(own, req);
            ResultUpdates(own, req, n)
            == if n <= |ws| then ResultUpdates(own, req, n - 1) + [Update(ws[n - 1], EntryOf(req))]
               else ResultUpdates(own, req, n - 1)
  {
  }

  // ---------------------------------------------------------------------------------------------
  // Counters against the recorded results
  // ---------------------------------------------------------------------------------------------

  /** How often one call counts for a user in a window: once for each time the window is listed before the first
      failure, or once for the window of its private room. */
  function Hits(own: seq<string>, e: Event, w: string, u: Uuid): nat {
    match e
    case Result(req, failAt) =>
      var ws := if req.windows == [] then own else req.windows;
      if req.eligible && req.userId == u then multiset(ws[..Min(failAt, |ws|)])[w] else 0
    case PrivateResult(code, req, ok) =>
      if req.eligible && ok && req.userId == u && w == "private_room:" + code then 1 else 0
  }

  /** What one result is worth when it counts h times. */
  function Worth(req: Request, h: nat): Totals {
    Totals(h * req.score, if req.won then h else 0, h, h * req.correctCount, h * req.questionCount)
  }

  /** The results of a run that count for a user in a window, added up. */
  function Tally(own: seq<string>, run: seq<Event>, w: string, u: Uuid): Totals {
    if run == [] then Totals(0, 0, 0, 0, 0)
    else
      var n := |run| - 1;
      Plus(Tally(own, run[..n], w, u), Worth(run[n].req, Hits(own, run[n], w, u)))
  }

  lemma WorthNext(req: Request, h: nat)
    ensures Plus(Worth(req, h), Worth(req, 1)) == Worth(req, h + 1)
    ensures Worth(req, 0) == Totals(0, 0, 0, 0, 0)
  {
  }

  lemma CountNext(ws: seq<string>, n: nat, w: string)
    requires 0 < n <= |ws|
    ensures multiset(ws[..n])[w] == multiset(ws[..n - 1])[w] + if ws[n - 1] == w then 1 else 0
  {
    assert ws[..n] == ws[..n - 1] + [ws[n - 1]];
  }

  lemma HitsNext(own: seq<string>, req: Request, n: nat, w: string)
    requires req.eligible && n > 0
    ensures var ws, hits := WindowsFor(own, req), Hits(own, Result(req, n - 1), w, req.userId);
            Hits(own, Result(req, n), w, req.userId) == hits + if n <= |ws| && ws[n - 1] == w then 1 else 0
  {
    var ws := WindowsFor(own, req);
    if n <= |ws| {
      CountNext(ws, n, w);
    }
  }

  lemma FoldNext(own: seq<string>, req: Request, n: nat, w: string)
    requires req.eligible && n > 0
    ensures var ws, before := WindowsFor(own, req), Fold(Applied(ResultUpdates(own, req, n - 1), w, req.userId));
            Fold(Applied(ResultUpdates(own, req, n), w, req.userId))
            == if n <= |ws| && ws[n - 1] == w then Plus(before, Worth(req, 1)) else before
  {
    var ws := WindowsFor(own, req);
    UpdatesStep(own, req, n);
    if n <= |ws| {
      var us, x := ResultUpdates(own, req, n - 1), Update(ws[n - 1], EntryOf(req));
      AppliedSnoc(us, x, w, req.userId);
      FoldSnoc(Applied(us, w, req.userId), x.entry);
      assert EntryTotals(x.entry) == Worth(req, 1);
    }
  }

  lemma {:induction false} ResultWorth(own: seq<string>, req: Request, n: nat, w: string)
    requires req.eligible
    ensures Fold(Applied(ResultUpdates(own, req, n), w, req.userId))
            == Worth(req, Hits(own, Result(req, n), w, req.userId))
    decreases n
  {
    if n == 0 {
      assert ResultUpdates(own, req, n) == [];
      WorthNext(req, 0);
    } else {
      ResultWorth(own, req, n - 1, w);
      HitsNext(own, req, n, w);
      FoldNext(own, req, n, w);
      WorthNext(req, Hits(own, Result(req, n - 1), w, req.userId));
    }
  }

  lemma {:induction false} NobodyElse(us: seq<Update>, w: string, u: Uuid)
    requires forall i :: 0 <= i < |us| ==> us[i].entry.userId != u || us[i].window != w
    ensures Applied(us, w, u) == []
  {
    if us != [] {
      NobodyElse(us[..|us| - 1], w, u);
    }
  }

  lemma PrivateWorth(own: seq<string>, e: Event, w: string, u: Uuid)
    requires e.PrivateResult?
    ensures Fold(Applied(UpdatesOf(own, e), w, u)) == Worth(e.req, Hits(own, e, w, u))
  {
    WorthNext(e.req, 0);
    var us := UpdatesOf(own, e);
    if us != [] {
      assert us == [] + [us[0]];
      AppliedSnoc([], us[0], w, u);
      FoldSnoc([], us[0].entry);
      assert [] + [us[0].entry] == [us[0].entry];
    }
  }

  lemma EventWorth(own: seq<string>, e: Event, w: string, u: Uuid)
    ensures Fold(Applied(UpdatesOf(own, e), w, u)) == Worth(e.req, Hits(own, e, w, u))
  {
    if e.PrivateResult? {
      PrivateWorth(own, e, w, u);
    } else if e.req.eligible && e.req.userId == u {
      ResultWorth(own, e.req, e.failAt, w);
    } else {
      var us := ResultUpdates(own, e.req, e.failAt);
      EntriesAreOwn(own, e.req, e.failAt);
      NobodyElse(us, w, u);
      WorthNext(e.req, 0);
    }
  }

  /** After any run of recorded results every shown number is the sum over the results that counted there: wins
      those won, games all of them, and score, correct answers and questions as reported. */
  lemma {:induction false} ShownIsTally(prefix: string, own: seq<string>, run: seq<Event>, w: string, u: Uuid)
    ensures Shown(prefix, StoreAfter(prefix, own, run), w, u) == Tally(own, run, w, u)
    decreases |run|
  {
    if run != [] {
      var n := |run| - 1;
      assert run == run[..n] + [run[n]];
      ShownIsTally(prefix, own, run[..n], w, u);
      StoreStep(prefix, own, run[..n], run[n]);
      CountersAdd(prefix, StoreAfter(prefix, own, run[..n]), UpdatesOf(own, run[n]), w, u);
      EventWorth(own, run[n], w, u);
    }
  }

  /** The call counts for the user in the window, when windows are listed once and none is asked for. */
  ghost predicate Counted(own: seq<string>, e: Event, w: string, u: Uuid) {
    && e.req.eligible && e.req.userId == u
    && match e
       case Result(_, failAt) => exists i :: 0 <= i < failAt && i < |own| && own[i] == w
       case PrivateResult(code, _, ok) => ok && w == "private_room:" + code
  }

  lemma CountedHits(own: seq<string>, e: Event, w: string, u: Uuid)
    requires Distinct(own) && (e.Result? ==> e.req.windows == [])
    ensures Hits(own, e, w, u) == if Counted(own, e, w, u) then 1 else 0
  {
    if e.Result? {
      var n := Min(e.failAt, |own|);
      OnceAtMost(own[..n], w);
      if i :| 0 <= i < n && own[i] == w {
        assert own[..n][i] == w;
      }
    }
  }

  lemma OnceAtMost(s: seq<string>, x: string)
    requires Distinct(s)
    ensures multiset(s)[x] == if x in s then 1 else 0
  {
    if x in s {
      var i :| 0 <= i < |s| && s[i] == x;
      assert s == s[..i] + [x] + s[i + 1..];
      assert x !in s[..i] && x !in s[i + 1..];
    }
  }

  ghost function CountedAt(own: seq<string>, run: seq<Event>, w: string, u: Uuid): set<int> {
    set k | 0 <= k < |run| && Counted(own, run[k], w, u)
  }

  ghost function WonAt(own: seq<string>, run: seq<Event>, w: string, u: Uuid): set<int> {
    set k | 0 <= k < |run| && Counted(own, run[k], w, u) && run[k].req.won
  }

  lemma CountedAtLast(own: seq<string>, run: seq<Event>, w: string, u: Uuid)
    requires run != []
    ensures var n := |run| - 1;
            && |CountedAt(own, run, w, u)|
               == |CountedAt(own, run[..n], w, u)| + (if Counted(own, run[n], w, u) then 1 else 0)
            && |WonAt(own, run, w, u)|
               == |WonAt(own, run[..n], w, u)| + (if Counted(own, run[n], w, u) && run[n].req.won then 1 else 0)
  {
    var n := |run| - 1;
    var c, won := CountedAt(own, run[..n], w, u), WonAt(own, run[..n], w, u);
    assert CountedAt(own, run, w, u) == c + if Counted(own, run[n], w, u) then {n} else {};
    assert WonAt(own, run, w, u) == won + if Counted(own, run[n], w, u) && run[n].req.won then {n} else {};
  }

  lemma {:induction false} TallyCounts(own: seq<string>, run: seq<Event>, w: string, u: Uuid)
    requires Distinct(own) && forall k :: 0 <= k < |run| && run[k].Result? ==> run[k].req.windows == []
    ensures Tally(own, run, w, u).games == |CountedAt(own, run, w, u)|
    ensures Tally(own, run, w, u).wins == |WonAt(own, run, w, u)|
    decreases |run|
  {
    if run != [] {
      var n := |run| - 1;
      TallyCounts(own, run[..n], w, u);
      CountedAtLast(own, run, w, u);
      CountedHits(own, run[n], w, u);
    } else {
      assert CountedAt(own, run, w, u) == {} == WonAt(own, run, w, u);
    }
  }

  /** Games are the matches counted for the user in the window, and wins those of them the user won. */
  lemma WinsAreMatchesWon(prefix: string, own: seq<string>, run: seq<Event>, w: string, u: Uuid)
    requires Distinct(own) && forall k :: 0 <= k < |run| && run[k].Result? ==> run[k].req.windows == []
    ensures var shown := Shown(prefix, StoreAfter(prefix, own, run), w, u);
            && shown.games == |set k | 0 <= k < |run| && Counted(own, run[k], w, u)|
            && shown.wins == |set k | 0 <= k < |run| && Counted(own, run[k], w, u) && run[k].req.won|
  {
    ShownIsTally(prefix, own, run, w, u);
    TallyCounts(own, run, w, u);
  }

  /** The name shown is the one of the latest result that counted. */
  lemma NameIsLatest(prefix: string, s: Store, us: seq<Update>, x: Update, w: string, u: Uuid)
    ensures var name := HGet(BumpAll(prefix, s, us + [x]), MetaKey(prefix, w, u)).username;
            name == if x.window == w && x.entry.userId == u then x.entry.username
                    else HGet(BumpAll(prefix, s, us), MetaKey(prefix, w, u)).username
  {
    assert (us + [x])[..|us|] == us;
    KeysInjective(prefix, x.window, w, x.entry.userId, u);
  }

  // ---------------------------------------------------------------------------------------------
  // Pooled accuracy
  // ---------------------------------------------------------------------------------------------

  function EntryAccuracy(e: Entry): real
    requires e.questions > 0
  {
    e.correct as real / e.questions as real
  }

  ghost predicate AccuraciesBetween(es: seq<Entry>, lo: real, hi: real) {
    forall i :: 0 <= i < |es| ==> es[i].questions > 0 && lo <= EntryAccuracy(es[i]) <= hi
  }

  lemma QuotientBounds(c: int, q: int, lo: real, hi: real)
    requires q > 0
    ensures lo <= c as real / q as real <= hi <==> lo * q as real <= c as real <= hi * q as real
  {
    var a, d := c as real / q as real, q as real;
    assert a * d == c as real;
    if lo <= a { assert lo * d <= a * d; } else { assert a * d < lo * d; }
    if a <= hi { assert a * d <= hi * d; } else { assert hi * d < a * d; }
  }

  lemma ScaleSum(k: real, x: int, y: int)
    ensures k * (x + y) as real == k * x as real + k * y as real
  {
    assert (x + y) as real == x as real + y as real;
  }

  /** The quotient of correct answers and questions lies between the bounds. */
  ghost predicate Within(correct: int, questions: int, lo: real, hi: real) {
    lo * questions as real <= correct as real <= hi * questions as real
  }

  lemma WithinAdds(c1: int, q1: int, c2: int, q2: int, lo: real, hi: real)
    requires Within(c1, q1, lo, hi) && Within(c2, q2, lo, hi)
    ensures Within(c1 + c2, q1 + q2, lo, hi)
  {
    ScaleSum(lo, q1, q2);
    ScaleSum(hi, q1, q2);
  }

  lemma EntryWithin(e: Entry, lo: real, hi: real)
    requires e.questions > 0 && lo <= EntryAccuracy(e) <= hi
    ensures Within(e.correct, e.questions, lo, hi)
  {
    QuotientBounds(e.correct, e.questions, lo, hi);
  }

  lemma {:induction false} FoldBounds(es: seq<Entry>, lo: real, hi: real)
    requires AccuraciesBetween(es, lo, hi)
    ensures Fold(es).questions >= |es| && Within(Fold(es).correct, Fold(es).questions, lo, hi)
    decreases |es|
  {
    if es != [] {
      var n := |es| - 1;
      FoldBounds(es[..n], lo, hi);
      EntryWithin(es[n], lo, hi);
      WithinAdds(Fold(es[..n]).correct, Fold(es[..n]).questions, es[n].correct, es[n].questions, lo, hi);
    }
  }

  lemma FoldAccuracyBetween(es: seq<Entry>, lo: real, hi: real)
    requires es != [] && AccuraciesBetween(es, lo, hi)
    ensures var t := Fold(es);
            t.questions > 0 && lo <= t.correct as real / t.questions as real <= hi
  {
    FoldBounds(es, lo, hi);
    QuotientBounds(Fold(es).correct, Fold(es).questions, lo, hi);
  }

  /** The accuracy shown for a user lies between the least and the greatest accuracy of the matches
      that were counted. */
  lemma PooledAccuracyBetween(prefix: string, us: seq<Update>, w: string, u: Uuid, lo: real, hi: real)
    requires Applied(us, w, u) != [] && AccuraciesBetween(Applied(us, w, u), lo, hi)
    ensures var t := Shown(prefix, BumpAll(prefix, EMPTY, us), w, u);
            t.questions > 0 && lo <= t.correct as real / t.questions as real <= hi
  {
    CountersAreFolds(prefix, us, w, u);
    FoldAccuracyBetween(Applied(us, w, u), lo, hi);
  }
}
