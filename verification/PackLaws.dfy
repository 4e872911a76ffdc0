/** When a pack is made, and of what: the outcome of internal/question/service.go:64-391 in terms of the ids in
    the histories, the pool and the generator's replies. */
module PackLaws {
  import opened Common
  import opened MatchRecords
  import opened PackCache
  import opened Regeneration
  import opened QuestionPack

  // ---------------------------------------------------------------------------------------------
  // Counting
  // ---------------------------------------------------------------------------------------------

  /** The places of a list whose id is in the set (with `keep`) or is not (without). */
  ghost function Places(qs: seq<Question>, ids: set<string>, keep: bool): set<int> {
    set i | 0 <= i < |qs| && (qs[i].id in ids) == keep
  }

  lemma {:induction false} FilterCount(qs: seq<Question>, ids: set<string>, keep: bool)
    ensures |Filter(qs, ids, keep)| == |Places(qs, ids, keep)|
  {
    if qs == [] {
      assert Places(qs, ids, keep) == {};
    } else {
      var n := |qs| - 1;
      FilterCount(qs[..n], ids, keep);
      assert Places(qs, ids, keep) == Places(qs[..n], ids, keep) + if (qs[n].id in ids) == keep then {n} else {};
    }
  }

  /** Filtering keeps the order: the kept questions stand at rising places of the list. */
  lemma {:induction false} FilterInOrder(qs: seq<Question>, ids: set<string>, keep: bool) returns (at: seq<nat>)
    ensures |at| == |Filter(qs, ids, keep)| && forall j, k :: 0 <= j < k < |at| ==> at[j] < at[k]
    ensures forall k :: 0 <= k < |at| ==> at[k] < |qs| && Filter(qs, ids, keep)[k] == qs[at[k]]
  {
    if qs == [] {
      at := [];
    } else {
      var n := |qs| - 1;
      at := FilterInOrder(qs[..n], ids, keep);
      if (qs[n].id in ids) == keep {
        at := at + [n];
      }
    }
  }

  lemma KeptIds(qs: seq<Question>, ids: set<string>, keep: bool)
    ensures IdSet(Filter(qs, ids, keep)) == if keep then IdSet(qs) * ids else IdSet(qs) - ids
  {
    FilterMember(qs, ids, keep);
    var kept := Filter(qs, ids, keep);
    forall id | id in IdSet(kept) ensures id in IdSet(qs) && (id in ids) == keep {
      var i :| 0 <= i < |kept| && Ids(kept)[i] == id;
      assert kept[i] in kept;
      var j :| 0 <= j < |qs| && qs[j] == kept[i];
      InIds(qs, j);
    }
    forall id | id in IdSet(qs) && (id in ids) == keep ensures id in IdSet(kept) {
      var j :| 0 <= j < |qs| && Ids(qs)[j] == id;
      assert qs[j] in kept;
      var i :| 0 <= i < |kept| && kept[i] == qs[j];
      InIds(kept, i);
    }
  }

  lemma SetDisjointSum<T>(a: set<T>, b: set<T>)
    ensures |a + b| == |a| + |b - a|
  {
    assert a + b == a + (b - a);
  }

  /** Fresh questions are as many as there are new ids, or as there is room for. */
  lemma FreshCount(qs: seq<Question>, taken: set<string>, room: nat)
    ensures |Fresh(qs, taken, room)| == Min(room, |IdSet(qs) - taken|)
    ensures IdSet(Fresh(qs, taken, room)) <= IdSet(qs) - taken
  {
    FreshFacts(qs, taken, room);
    var r := Fresh(qs, taken, room);
    forall id | id in IdSet(r) ensures id in IdSet(qs) - taken {
      var i :| 0 <= i < |r| && Ids(r)[i] == id;
      assert r[i] in r;
      var j :| 0 <= j < |qs| && qs[j] == r[i];
      InIds(qs, j);
    }
    CountIds(r);
    SubsetCount(IdSet(r), IdSet(qs) - taken);
    if |r| < room {
      assert IdSet(r) == IdSet(qs) - taken;
    }
  }

  // ---------------------------------------------------------------------------------------------
  // The generator
  // ---------------------------------------------------------------------------------------------

  /** What the generator gives, which may be nothing. */
  function Reply(w: World, asked: AIRequest): seq<Question> {
    if w.ai.None? then []
    else
      match w.ai.value(asked)
      case None => []
      case Some(qs) => qs
  }

  /** The request for `needed` questions in the proportions of the pack, none of its difficulties left out. */
  ghost function AskAgain(req: PackRequest, needed: nat, suffix: string): AIRequest
    requires req.totalQuestions > 0
  {
    var needs := Needs(req.difficultyCounts, req.totalQuestions, needed);
    AIRequest(req.category, MapSum(needs), req.seed + suffix, needs)
  }

  /** The ids of the questions that pass their own history check, where a failed check passes everything. */
  ghost function PassingIds(qs: seq<Question>, history: set<string>, readable: nat -> bool): set<string> {
    set i: nat | i < |qs| && !(readable(i) && qs[i].id in history) :: qs[i].id
  }

  lemma {:induction false} RecheckedIds(qs: seq<Question>, history: set<string>, readable: nat -> bool)
    ensures IdSet(Rechecked(qs, history, readable)) == PassingIds(qs, history, readable)
  {
    if qs == [] {
      assert PassingIds(qs, history, readable) == {} == IdSet([]);
    } else {
      var n := |qs| - 1;
      RecheckedIds(qs[..n], history, readable);
      PassingStep(qs, history, readable);
      var r := Rechecked(qs[..n], history, readable);
      IdsAppend(r, qs[n]);
      EmptyPlus(r);
    }
  }

  lemma PassingStep(qs: seq<Question>, history: set<string>, readable: nat -> bool)
    requires qs != []
    ensures var n := |qs| - 1;
            PassingIds(qs, history, readable)
            == PassingIds(qs[..n], history, readable)
               + if readable(n) && qs[n].id in history then {} else {qs[n].id}
  {
    var n := |qs| - 1;
    forall id | id in PassingIds(qs[..n], history, readable) ensures id in PassingIds(qs, history, readable) {
      var i: nat :| i < n && !(readable(i) && qs[..n][i].id in history) && qs[..n][i].id == id;
      assert qs[i].id == id;
    }
    forall id | id in PassingIds(qs, history, readable)
      ensures id in PassingIds(qs[..n], history, readable)
              || (id == qs[n].id && !(readable(n) && qs[n].id in history))
    {
      var i: nat :| i < |qs| && !(readable(i) && qs[i].id in history) && qs[i].id == id;
      if i < n {
        assert qs[..n][i].id == id;
      }
    }
  }

  lemma AllChecked(qs: seq<Question>, history: set<string>, readable: nat -> bool)
    requires forall i :: readable(i)
    ensures PassingIds(qs, history, readable) == IdSet(qs) - history
  {
    forall id | id in IdSet(qs) - history ensures id in PassingIds(qs, history, readable) {
      var i :| 0 <= i < |qs| && Ids(qs)[i] == id;
      assert qs[i].id == id;
    }
    forall id | id in PassingIds(qs, history, readable) ensures id in IdSet(qs) {
      var i: nat :| i < |qs| && !(readable(i) && qs[i].id in history) && qs[i].id == id;
      InIds(qs, i);
    }
  }

  // ---------------------------------------------------------------------------------------------
  // Two players
  // ---------------------------------------------------------------------------------------------

  /** One of the players has seen more than three questions of the list. */
  ghost predicate ManySeen(base: seq<Question>, h1: set<string>, h2: set<string>) {
    |Places(base, h1, true)| > 3 || |Places(base, h2, true)| > 3
  }

  lemma FirstStays(base: seq<Question>, history: set<string>)
    ensures var first := Fresh(Unseen(base, history), {}, |base|);
            IdSet(first) == IdSet(base) - history && |first| == |IdSet(base) - history| && Distinct(Ids(first))
  {
    var unseen := Unseen(base, history);
    KeptIds(base, history, false);
    FreshCount(unseen, {}, |base|);
    FilterSplits(base, history);
    CountIds(unseen);
    var first := Fresh(unseen, {}, |base|);
    FreshFacts(unseen, {}, |base|);
    CountIds(first);
    assert IdSet(unseen) - {} == IdSet(unseen);
    SubsetCount(IdSet(first), IdSet(unseen));
  }

  /** Fresh questions among those that pass their check. */
  lemma FreshOfChecked(more: seq<Question>, history: set<string>, readable: nat -> bool, passing: set<string>,
                       taken: set<string>, room: nat)
    returns (r: seq<Question>)
    requires passing == PassingIds(more, history, readable)
    ensures r == NewAndChecked(more, history, readable, taken, room) && |r| == Min(room, |passing - taken|)
    ensures IdSet(r) <= passing && forall q :: q in r ==> q in more
  {
    RecheckedIds(more, history, readable);
    var passed := Rechecked(more, history, readable);
    FreshCount(passed, taken, room);
    FreshFacts(passed, taken, room);
    RecheckedFacts(more, history, readable);
    r := Fresh(passed, taken, room);
  }

  lemma UniqueReplyIs(req: PackRequest, w: World, needed: nat)
    requires req.totalQuestions > 0
    ensures Given(UniqueReply(req, w, needed)) == Reply(w, AskAgain(req, needed, "-unique"))
  {
  }

  lemma FirstPart(base: seq<Question>, history: set<string>, stay: set<string>) returns (first: seq<Question>)
    requires stay == IdSet(base) - history
    ensures first == Fresh(Unseen(base, history), {}, |base|) && IdSet(first) == stay && |first| == |stay|
    ensures forall q :: q in first ==> q in base
  {
    first := Fresh(Unseen(base, history), {}, |base|);
    FirstStays(base, history);
    FirstFrom(base, history);
  }

  lemma AddedPart(req: PackRequest, w: World, history: set<string>, first: seq<Question>, stay: set<string>,
                  more: seq<Question>, passing: set<string>)
    returns (added: seq<Question>)
    requires IdSet(first) == stay && |first| < req.totalQuestions
    requires more == Given(UniqueReply(req, w, req.totalQuestions - |first|))
    requires passing == PassingIds(more, history, w.recheckReadable)
    ensures added == Added(req, w, history, first) && |added| == Min(req.totalQuestions - |first|, |passing - stay|)
    ensures IdSet(added) <= passing && forall q :: q in added ==> q in more
  {
    added := FreshOfChecked(more, history, w.recheckReadable, passing, stay, req.totalQuestions - |first|);
  }

  lemma ReplacedIs(req: PackRequest, w: World, history: set<string>, base: seq<Question>, stay: set<string>,
                   more: seq<Question>)
    requires stay == IdSet(base) - history && |stay| < req.totalQuestions
    requires more == Given(UniqueReply(req, w, req.totalQuestions - |stay|))
    ensures var pack, passing := Replaced(req, w, history, base), PassingIds(more, history, w.recheckReadable);
            && (|pack| >= req.totalQuestions <==> |stay + passing| >= req.totalQuestions)
            && stay <= IdSet(pack) <= stay + passing && forall q :: q in pack ==> q in base || q in more
  {
    var passing := PassingIds(more, history, w.recheckReadable);
    var first := FirstPart(base, history, stay);
    var added := AddedPart(req, w, history, first, stay, more, passing);
    JoinCounts(first, added, stay, passing, req.totalQuestions);
  }

  lemma FirstFrom(base: seq<Question>, history: set<string>)
    ensures forall q :: q in Fresh(Unseen(base, history), {}, |base|) ==> q in base
  {
    FreshFacts(Unseen(base, history), {}, |base|);
    FilterMember(base, history, false);
  }

  lemma JoinCounts(first: seq<Question>, added: seq<Question>, stay: set<string>, passing: set<string>, total: nat)
    requires IdSet(first) == stay && |first| == |stay| < total
    requires |added| == Min(total - |stay|, |passing - stay|) && IdSet(added) <= passing
    ensures |first + added| >= total <==> |stay + passing| >= total
    ensures stay <= IdSet(first + added) <= stay + passing
  {
    SetDisjointSum(stay, passing);
    IdsConcat(first, added);
  }

  lemma ManySeenMeans(base: seq<Question>, h1: set<string>, h2: set<string>)
    requires ManySeen(base, h1, h2)
    ensures Max(|Seen(base, h1)|, |Seen(base, h2)|) > 3 && |IdSet(base) - (h1 + h2)| < |base|
  {
    FilterCount(base, h1, true);
    FilterCount(base, h2, true);
    SeenByEither(base, h1, h2);
    SeenByEither(base, h2, h1);
    assert h2 + h1 == h1 + h2;
    FirstStays(base, h1 + h2);
    FilterSplits(base, h1 + h2);
    FreshFacts(Unseen(base, h1 + h2), {}, |base|);
  }

  lemma ManySeenOutcome(req: PackRequest, w: World, h1: set<string>, h2: set<string>, base: seq<Question>,
                        r: Result<seq<Question>>)
    requires TwoPlayerOutcome(req, w, h1, h2, base, r) && ManySeen(base, h1, h2)
    ensures r.Ok? <==> |Replaced(req, w, h1 + h2, base)| >= req.totalQuestions
    ensures r.Ok? ==> r.value == Replaced(req, w, h1 + h2, base)
  {
    ManySeenMeans(base, h1, h2);
  }

  lemma ManySeenWith(req: PackRequest, w: World, h1: set<string>, h2: set<string>, base: seq<Question>,
                     r: Result<seq<Question>>, stay: set<string>, more: seq<Question>, passing: set<string>)
    requires TwoPlayerOutcome(req, w, h1, h2, base, r) && ManySeen(base, h1, h2)
    requires stay == IdSet(base) - (h1 + h2) && |stay| < req.totalQuestions
    requires more == Reply(w, AskAgain(req, req.totalQuestions - |stay|, "-unique"))
    requires passing == PassingIds(more, h1 + h2, w.recheckReadable)
    ensures r.Ok? <==> |stay + passing| >= req.totalQuestions
    ensures r.Ok? ==> stay <= IdSet(r.value) <= stay + passing && forall q :: q in r.value ==> q in base || q in more
  {
    ManySeenOutcome(req, w, h1, h2, base, r);
    UniqueReplyIs(req, w, req.totalQuestions - |stay|);
    ReplacedIs(req, w, h1 + h2, base, stay, more);
  }

  /** The ids left unseen and the reply to the second request. */
  lemma LeftAndReply(req: PackRequest, w: World, h1: set<string>, h2: set<string>, base: seq<Question>)
    returns (stay: set<string>, more: seq<Question>)
    requires |base| == req.totalQuestions && ManySeen(base, h1, h2)
    ensures stay == IdSet(base) - (h1 + h2) && |stay| < req.totalQuestions
    ensures more == Reply(w, AskAgain(req, req.totalQuestions - |stay|, "-unique"))
  {
    ManySeenMeans(base, h1, h2);
    stay := IdSet(base) - (h1 + h2);
    more := Reply(w, AskAgain(req, req.totalQuestions - |stay|, "-unique"));
  }

  /** With more than three seen, a pack is made exactly when the ids left unseen and those that the generator
      replies with and that pass their check fill it; every question of it comes from the one or the other. */
  lemma ManySeenSucceedsIff(req: PackRequest, w: World, h1: set<string>, h2: set<string>, base: seq<Question>,
                            r: Result<seq<Question>>)
    returns (stay: set<string>, more: seq<Question>)
    requires |base| == req.totalQuestions && TwoPlayerOutcome(req, w, h1, h2, base, r) && ManySeen(base, h1, h2)
    ensures stay == IdSet(base) - (h1 + h2) && |stay| < req.totalQuestions
    ensures more == Reply(w, AskAgain(req, req.totalQuestions - |stay|, "-unique"))
    ensures var passing := PassingIds(more, h1 + h2, w.recheckReadable);
            && (r.Ok? <==> |stay + passing| >= req.totalQuestions)
            && (r.Ok? ==> && stay <= IdSet(r.value) <= stay + passing
                          && forall q :: q in r.value ==> q in base || q in more)
  {
    stay, more := LeftAndReply(req, w, h1, h2, base);
    ManySeenWith(req, w, h1, h2, base, r, stay, more, PassingIds(more, h1 + h2, w.recheckReadable));
  }

  lemma IdsConcat(a: seq<Question>, b: seq<Question>)
    ensures IdSet(a + b) == IdSet(a) + IdSet(b)
  {
    assert Ids(a + b) == Ids(a) + Ids(b);
  }

  /** When every check is answered, that is: when enough ids of the list and the reply are in neither history. */
  lemma ManySeenAllChecked(req: PackRequest, w: World, h1: set<string>, h2: set<string>, base: seq<Question>,
                           r: Result<seq<Question>>)
    returns (stay: set<string>, more: seq<Question>)
    requires |base| == req.totalQuestions && TwoPlayerOutcome(req, w, h1, h2, base, r) && ManySeen(base, h1, h2)
    requires forall i :: w.recheckReadable(i)
    ensures stay == IdSet(base) - (h1 + h2) && |stay| < req.totalQuestions
    ensures more == Reply(w, AskAgain(req, req.totalQuestions - |stay|, "-unique"))
    ensures r.Ok? <==> |(IdSet(base) + IdSet(more)) - (h1 + h2)| >= req.totalQuestions
  {
    stay, more := ManySeenSucceedsIff(req, w, h1, h2, base, r);
    AllChecked(more, h1 + h2, w.recheckReadable);
    UnionMinus(IdSet(base), IdSet(more), h1 + h2);
  }

  lemma UnionMinus<T>(a: set<T>, b: set<T>, c: set<T>)
    ensures (a - c) + (b - c) == (a + b) - c
  {
  }

  /** A list of which neither player has seen anything stays as it is. */
  lemma NothingSeen(req: PackRequest, w: World, h1: set<string>, h2: set<string>, base: seq<Question>,
                    r: Result<seq<Question>>)
    requires TwoPlayerOutcome(req, w, h1, h2, base, r) && IdSet(base) !! h1 + h2
    ensures r == Ok(base)
  {
    forall q | q in base ensures q.id !in h1 && q.id !in h2 {
      var i :| 0 <= i < |base| && base[i] == q;
      InIds(base, i);
    }
    FilterAll(base, h1, false);
    FilterAll(base, h2, false);
  }

  // ---------------------------------------------------------------------------------------------
  // A single user
  // ---------------------------------------------------------------------------------------------

  /** The places at which a check is answered and finds the question seen. */
  ghost function FoundSeen(qs: seq<Question>, history: set<string>, readable: nat -> bool): set<int> {
    set i: nat | i < |qs| && readable(i) && qs[i].id in history
  }

  lemma FoundSeenLast(qs: seq<Question>, history: set<string>, readable: nat -> bool)
    requires qs != []
    ensures var n := |qs| - 1;
            |FoundSeen(qs, history, readable)|
            == |FoundSeen(qs[..n], history, readable)| + if readable(n) && qs[n].id in history then 1 else 0
  {
    var n := |qs| - 1;
    assert FoundSeen(qs, history, readable)
        == FoundSeen(qs[..n], history, readable) + if readable(n) && qs[n].id in history then {n} else {};
  }

  lemma {:induction false} PassedCount(qs: seq<Question>, history: set<string>, readable: nat -> bool)
    ensures |qs| - |PassedIds(Ids(qs), history, readable)| == |FoundSeen(qs, history, readable)|
  {
    if qs == [] {
      assert FoundSeen(qs, history, readable) == {};
    } else {
      var n := |qs| - 1;
      PassedCount(qs[..n], history, readable);
      FoundSeenLast(qs, history, readable);
      assert Ids(qs)[..n] == Ids(qs[..n]);
    }
  }

  lemma {:induction false} PassedAre(qs: seq<Question>, history: set<string>, readable: nat -> bool)
    ensures Elements(PassedIds(Ids(qs), history, readable)) == PassingIds(qs, history, readable)
  {
    if qs == [] {
      assert PassingIds(qs, history, readable) == {};
    } else {
      var n := |qs| - 1;
      PassedAre(qs[..n], history, readable);
      PassingStep(qs, history, readable);
      assert Ids(qs)[..n] == Ids(qs[..n]);
      var r := PassedIds(Ids(qs[..n]), history, readable);
      assert Elements(r + [qs[n].id]) == Elements(r) + {qs[n].id};
      EmptyPlus(r);
    }
  }

  lemma FlooredReplyIs(req: PackRequest, w: World, needed: nat)
    requires req.totalQuestions > 0
    ensures var needs := Shares(req.difficultyCounts, req.totalQuestions, needed);
            Given(FlooredReply(req, w, needed))
            == Reply(w, AIRequest(req.category, MapSum(needs), req.seed + "-unique", needs))
  {
  }

  /** The questions with an id that passed somewhere. */
  lemma KeptPart(base: seq<Question>, history: set<string>, readable: nat -> bool)
    ensures var stay := PassingIds(base, history, readable);
            var kept := SingleKept(base, history, readable);
            |kept| == |Places(base, stay, true)| && IdSet(kept) == stay
  {
    var stay := PassingIds(base, history, readable);
    PassedAre(base, history, readable);
    FilterCount(base, stay, true);
    KeptIds(base, stay, true);
    StayInBase(base, history, readable);
    MeetSmaller(stay, IdSet(base));
  }

  lemma StayInBase(base: seq<Question>, history: set<string>, readable: nat -> bool)
    ensures PassingIds(base, history, readable) <= IdSet(base)
  {
    forall id | id in PassingIds(base, history, readable) ensures id in IdSet(base) {
      var i: nat :| i < |base| && !(readable(i) && base[i].id in history) && base[i].id == id;
      InIds(base, i);
    }
  }

  lemma MeetSmaller<T>(a: set<T>, b: set<T>)
    requires a <= b
    ensures b * a == a
  {
  }

  lemma SingleReplacedIs(req: PackRequest, w: World, history: set<string>, base: seq<Question>, stay: set<string>,
                         kept: nat, more: seq<Question>)
    requires stay == PassingIds(base, history, w.readable) && kept == |Places(base, stay, true)| < req.totalQuestions
    requires more == Given(FlooredReply(req, w, req.totalQuestions - kept))
    ensures |SingleReplaced(req, w, history, base)| >= req.totalQuestions
            <==> kept + |PassingIds(more, history, w.recheckReadable) - stay| >= req.totalQuestions
  {
    var before, passing := SingleKept(base, history, w.readable), PassingIds(more, history, w.recheckReadable);
    KeptPart(base, history, w.readable);
    var added := SingleAddedPart(req, w, history, before, stay, more, passing);
    assert SingleReplaced(req, w, history, base) == before + added;
  }

  ghost function SingleKept(base: seq<Question>, history: set<string>, readable: nat -> bool): seq<Question> {
    Filter(base, Elements(PassedIds(Ids(base), history, readable)), true)
  }

  lemma SingleAddedPart(req: PackRequest, w: World, history: set<string>, kept: seq<Question>, stay: set<string>,
                        more: seq<Question>, passing: set<string>)
    returns (added: seq<Question>)
    requires IdSet(kept) == stay && |kept| < req.totalQuestions
    requires more == Given(FlooredReply(req, w, req.totalQuestions - |kept|))
    requires passing == PassingIds(more, history, w.recheckReadable)
    ensures added == SingleAdded(req, w, history, kept)
    ensures |added| == Min(req.totalQuestions - |kept|, |passing - stay|)
  {
    added := FreshOfChecked(more, history, w.recheckReadable, passing, stay, req.totalQuestions - |kept|);
  }

  lemma SingleLong(req: PackRequest, w: World, history: set<string>, base: seq<Question>)
    requires |Places(base, PassingIds(base, history, w.readable), true)| >= req.totalQuestions
    ensures SingleReplaced(req, w, history, base) == base
  {
    KeptPart(base, history, w.readable);
  }

  /** The same for the deprecated single-user branch, which rounds its shares down and keeps repetitions. */
  lemma SingleManySeenSucceedsIff(req: PackRequest, w: World, history: set<string>, base: seq<Question>,
                                  r: Result<seq<Question>>)
    returns (stay: set<string>, kept: nat, more: seq<Question>)
    requires |base| == req.totalQuestions && SingleOutcome(req, w, history, base, r)
    requires |FoundSeen(base, history, w.readable)| > 3
    ensures stay == PassingIds(base, history, w.readable) && kept == |Places(base, stay, true)|
    ensures kept >= req.totalQuestions ==> r == Ok(base)
    ensures kept < req.totalQuestions ==>
              var needs := Shares(req.difficultyCounts, req.totalQuestions, req.totalQuestions - kept);
              && more == Reply(w, AIRequest(req.category, MapSum(needs), req.seed + "-unique", needs))
              && (r.Ok? <==> kept + |PassingIds(more, history, w.recheckReadable) - stay| >= req.totalQuestions)
  {
    stay, kept := PassingPlaces(base, history, w.readable);
    more := [];
    SingleManySeenOutcome(req, w, history, base, r);
    if kept >= req.totalQuestions {
      SingleLong(req, w, history, base);
    } else {
      FlooredReplyIs(req, w, req.totalQuestions - kept);
      more := Given(FlooredReply(req, w, req.totalQuestions - kept));
      SingleReplacedIs(req, w, history, base, stay, kept, more);
    }
  }

  lemma PassingPlaces(base: seq<Question>, history: set<string>, readable: nat -> bool)
    returns (stay: set<string>, kept: nat)
    ensures stay == PassingIds(base, history, readable) && kept == |Places(base, stay, true)|
  {
    stay := PassingIds(base, history, readable);
    kept := |Places(base, stay, true)|;
  }

  lemma SingleManySeenOutcome(req: PackRequest, w: World, history: set<string>, base: seq<Question>,
                              r: Result<seq<Question>>)
    requires SingleOutcome(req, w, history, base, r) && |FoundSeen(base, history, w.readable)| > 3
    ensures r.Ok? <==> |SingleReplaced(req, w, history, base)| >= req.totalQuestions
    ensures r.Ok? ==> r.value == SingleReplaced(req, w, history, base)
  {
    PassedCount(base, history, w.readable);
  }

  // ---------------------------------------------------------------------------------------------
  // Gathering and the duplicate check
  // ---------------------------------------------------------------------------------------------

  /** The duplicate check lets a list through when it is long enough, or when it has a repetition and the reply
      to a second request has enough new ids; a short list without repetition fails. */
  lemma LevelOneSucceedsIff(req: PackRequest, w: World, gathered: seq<Question>)
    ensures |gathered + Extra(req, w, gathered)| >= req.totalQuestions
            <==> || |gathered| >= req.totalQuestions
                 || (&& !Distinct(Ids(gathered))
                     && var more := Reply(w, AskAgain(req, req.totalQuestions - |gathered|, "-retry"));
                        |gathered| + |IdSet(more) - IdSet(gathered)| >= req.totalQuestions)
  {
    if |gathered| < req.totalQuestions && !Distinct(Ids(gathered)) {
      var needed := req.totalQuestions - |gathered|;
      var more := Reply(w, AskAgain(req, needed, "-retry"));
      FreshCount(more, IdSet(gathered), needed);
    }
  }

  /** The part of a map that concerns the listed difficulties. */
  ghost function Part(m: map<string, int>, order: seq<string>): map<string, int> {
    map d | d in m && d in order :: m[d]
  }

  lemma PartNext(m: map<string, int>, order: seq<string>, d: string)
    requires d !in order
    ensures MapSum(Part(m, order + [d])) == MapSum(Part(m, order)) + if d in m then m[d] else 0
  {
    var more := Part(m, order + [d]);
    if d in m {
      assert more - {d} == Part(m, order);
      MapSumPick(more, d);
    } else {
      assert more == Part(m, order);
    }
  }

  lemma {:induction false} CuratedFills(req: PackRequest, w: World, order: seq<string>)
    requires Distinct(order) && forall d :: d in order ==> d in req.difficultyCounts && w.curated(d).Some?
    requires forall d :: d in order ==> |w.curated(d).value| <= req.difficultyCounts[d]
    ensures |Curated(order, w)| + MapSum(Part(Missing(req, w), order)) == MapSum(Part(req.difficultyCounts, order))
    decreases |order|
  {
    if order == [] {
      assert Part(Missing(req, w), order) == map[] == Part(req.difficultyCounts, order);
    } else {
      var n := |order| - 1;
      var d := order[n];
      assert order == order[..n] + [d] && d !in order[..n];
      CuratedFills(req, w, order[..n]);
      PartNext(Missing(req, w), order[..n], d);
      PartNext(req.difficultyCounts, order[..n], d);
      CuratedLast(order[..n], d, w);
    }
  }

  /** What the pool lacks of each difficulty is what the generator is asked for. If it gives as many questions as
      it is asked for and the pool never more, the list has exactly as many as the request wants. */
  lemma GatheringFills(req: PackRequest, w: World, order: seq<string>, gathered: seq<Question>)
    requires IsGathered(req, w, order, gathered)
    requires forall d :: d in req.difficultyCounts ==> |w.curated(d).value| <= req.difficultyCounts[d]
    ensures var lacking := map d | d in req.difficultyCounts && |w.curated(d).value| < req.difficultyCounts[d] ::
                             req.difficultyCounts[d] - |w.curated(d).value|;
            var reply := Reply(w, AIRequest(req.category, MapSum(lacking), req.seed, lacking));
            && |Curated(order, w)| + MapSum(lacking) == MapSum(req.difficultyCounts)
            && gathered == Curated(order, w) + (if MapSum(lacking) > 0 then reply else [])
            && (|reply| == MapSum(lacking) ==> |gathered| == MapSum(req.difficultyCounts))
  {
    forall d | d in order ensures d in req.difficultyCounts {
      assert d in Elements(order);
    }
    OrderCovers(req.difficultyCounts, order);
    OrderCovers(Missing(req, w), order);
    CuratedFills(req, w, order);
    LackingIsMissing(req, w);
  }

  lemma LackingIsMissing(req: PackRequest, w: World)
    requires PoolAnswers(req, w)
    ensures Missing(req, w)
            == map d | d in req.difficultyCounts && |w.curated(d).value| < req.difficultyCounts[d] ::
                 req.difficultyCounts[d] - |w.curated(d).value|
  {
  }

  lemma OrderCovers(m: map<string, int>, order: seq<string>)
    requires m.Keys <= Elements(order)
    ensures Part(m, order) == m
  {
    forall d | d in m ensures d in order {
      assert d in Elements(order);
    }
  }

  // ---------------------------------------------------------------------------------------------
  // By match mode
  // ---------------------------------------------------------------------------------------------

  /** A random match of two known players whose histories can be read and are checked holds at most three
      questions that either has seen. */
  lemma RandomPairIsFair(svc: QuestionPack.Service, req: PackRequest, w: World, base: seq<Question>,
                         r: Result<seq<Question>>, p1: Id, p2: Id)
    requires |base| == req.totalQuestions && svc.ModeOutcome(req, w, base, r) && r.Ok?
    requires req.matchMode == "random_1v1" && |req.userIds| >= 2
    requires req.userIds[0] == Some(p1) && req.userIds[1] == Some(p2) && p1 != NIL && p2 != NIL
    requires svc.redis && w.batchReadable && forall i :: w.recheckReadable(i)
    ensures |r.value| == req.totalQuestions
    ensures |Places(r.value, svc.HistoryOf(p1) + svc.HistoryOf(p2), true)| <= 3
  {
    var h1, h2 := svc.HistoryOf(p1), svc.HistoryOf(p2);
    AtMostThreeSeen(req, w, h1, h2, base, r);
    TwoPlayerSize(req, w, h1, h2, base, r);
    FilterCount(r.value, h1 + h2, true);
  }

  /** Packs of other matches are not checked against histories, nor are those of two players of whom one is
      unknown or whose histories cannot be read. */
  lemma UncheckedStays(svc: QuestionPack.Service, req: PackRequest, w: World, base: seq<Question>,
                       r: Result<seq<Question>>)
    requires svc.ModeOutcome(req, w, base, r)
    requires || req.matchMode != "random_1v1" || !svc.redis
             || (|req.userIds| >= 2 && req.userIds[0].Some? && req.userIds[1].Some?
                 && (!w.batchReadable || req.userIds[0] == Some(NIL) || req.userIds[1] == Some(NIL)))
             || ((|req.userIds| < 2 || req.userIds[0].None? || req.userIds[1].None?)
                 && (req.userId.None? || req.userId == Some(NIL)))
    ensures r == Ok(base)
  {
  }

  /** One of two user ids missing, the single user's history is what counts. */
  lemma SingleUserChecked(svc: QuestionPack.Service, req: PackRequest, w: World, base: seq<Question>,
                          r: Result<seq<Question>>, u: Id)
    requires svc.ModeOutcome(req, w, base, r) && req.matchMode == "random_1v1" && svc.redis
    requires |req.userIds| < 2 || req.userIds[0].None? || req.userIds[1].None?
    requires req.userId == Some(u) && u != NIL
    ensures SingleOutcome(req, w, svc.HistoryOf(u), base, r)
  {
  }
}
