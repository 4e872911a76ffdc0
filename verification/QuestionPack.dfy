/** Assembling a match's question pack, internal/question/service.go: curated questions, AI fallback, the
    within-match duplicate check, the cross-match history check, and the cache in front of it all. */
module QuestionPack {
  import opened Common
  import opened MatchRecords
  import opened PackCache
  import opened Regeneration

  // ---------------------------------------------------------------------------------------------
  // Lists of questions
  // ---------------------------------------------------------------------------------------------

  function Ids(qs: seq<Question>): (r: seq<string>)
    ensures |r| == |qs|
  {
    seq(|qs|, i requires 0 <= i < |qs| => qs[i].id)
  }

  ghost function IdSet(qs: seq<Question>): set<string> {
    Elements(Ids(qs))
  }

  /** The questions whose id is in `ids` (with `keep`) or is not (without), in order. */
  ghost function Filter(qs: seq<Question>, ids: set<string>, keep: bool): seq<Question> {
    if qs == [] then []
    else
      var n := |qs| - 1;
      Filter(qs[..n], ids, keep) + if (qs[n].id in ids) == keep then [qs[n]] else []
  }

  ghost function Seen(qs: seq<Question>, history: set<string>): seq<Question> {
    Filter(qs, history, true)
  }

  ghost function Unseen(qs: seq<Question>, history: set<string>): seq<Question> {
    Filter(qs, history, false)
  }

  lemma InIds(qs: seq<Question>, i: nat)
    requires i < |qs|
    ensures qs[i].id in IdSet(qs)
  {
    assert Ids(qs)[i] in Ids(qs);
  }

  lemma IdsAppend(qs: seq<Question>, q: Question)
    ensures Ids(qs + [q]) == Ids(qs) + [q.id]
    ensures IdSet(qs + [q]) == IdSet(qs) + {q.id}
  {
    assert Ids(qs + [q]) == Ids(qs) + [q.id];
  }

  lemma Snoc(qs: seq<Question>)
    requires qs != []
    ensures qs == qs[..|qs| - 1] + [qs[|qs| - 1]]
    ensures Ids(qs) == Ids(qs[..|qs| - 1]) + [qs[|qs| - 1].id]
  {
    IdsAppend(qs[..|qs| - 1], qs[|qs| - 1]);
  }

  /** Keeping and dropping split a list: nothing is lost and nothing is added. */
  lemma {:induction false} FilterSplits(qs: seq<Question>, ids: set<string>)
    ensures multiset(Filter(qs, ids, true)) + multiset(Filter(qs, ids, false)) == multiset(qs)
    ensures |Filter(qs, ids, true)| + |Filter(qs, ids, false)| == |qs|
  {
    if qs != [] {
      Snoc(qs);
      FilterSplits(qs[..|qs| - 1], ids);
    }
  }

  lemma FilterStep(qs: seq<Question>, i: nat, ids: set<string>, keep: bool)
    requires i < |qs|
    ensures Filter(qs[..i + 1], ids, keep) ==
            if (qs[i].id in ids) == keep then Filter(qs[..i], ids, keep) + [qs[i]] else Filter(qs[..i], ids, keep)
  {
    assert qs[..i + 1][..i] == qs[..i];
  }

  lemma {:induction false} FilterMember(qs: seq<Question>, ids: set<string>, keep: bool)
    ensures forall q :: q in Filter(qs, ids, keep) <==> q in qs && (q.id in ids) == keep
  {
    if qs != [] {
      Snoc(qs);
      FilterMember(qs[..|qs| - 1], ids, keep);
    }
  }

  lemma {:induction false} FilterAll(qs: seq<Question>, ids: set<string>, keep: bool)
    requires forall q :: q in qs ==> (q.id in ids) == keep
    ensures Filter(qs, ids, keep) == qs && Filter(qs, ids, !keep) == []
  {
    if qs != [] {
      Snoc(qs);
      FilterAll(qs[..|qs| - 1], ids, keep);
    }
  }

  lemma {:induction false} FilterConcat(a: seq<Question>, b: seq<Question>, ids: set<string>, keep: bool)
    ensures Filter(a + b, ids, keep) == Filter(a, ids, keep) + Filter(b, ids, keep)
  {
    if b == [] {
      assert a + b == a;
    } else {
      var n := |b| - 1;
      assert (a + b)[..|a + b| - 1] == a + b[..n];
      FilterConcat(a, b[..n], ids, keep);
    }
  }

  /** Only the marking of the listed questions matters. */
  lemma {:induction false} FilterSame(qs: seq<Question>, s: set<string>, sk: bool, t: set<string>, tk: bool)
    requires forall q :: q in qs ==> ((q.id in s) == sk <==> (q.id in t) == tk)
    ensures Filter(qs, s, sk) == Filter(qs, t, tk)
  {
    if qs != [] {
      Snoc(qs);
      FilterSame(qs[..|qs| - 1], s, sk, t, tk);
    }
  }

  // ---------------------------------------------------------------------------------------------
  // Level 1: duplicates within the match
  // ---------------------------------------------------------------------------------------------

  function FirstOccurrences(ids: seq<string>): seq<string> {
    if ids == [] then []
    else
      var n := |ids| - 1;
      FirstOccurrences(ids[..n]) + if ids[n] in ids[..n] then [] else [ids[n]]
  }

  /** The first occurrences repeat nothing and miss nothing. */
  lemma {:induction false} FirstOccurrencesFacts(ids: seq<string>)
    ensures Distinct(FirstOccurrences(ids)) && Elements(FirstOccurrences(ids)) == Elements(ids)
    ensures |FirstOccurrences(ids)| == |ids| <==> Distinct(ids)
    ensures |FirstOccurrences(ids)| <= |ids|
  {
    if ids != [] {
      var n := |ids| - 1;
      FirstOccurrencesFacts(ids[..n]);
      assert ids == ids[..n] + [ids[n]];
      assert Elements(ids) == Elements(ids[..n]) + {ids[n]};
      var r := FirstOccurrences(ids[..n]);
      if ids[n] in ids[..n] {
        var i :| 0 <= i < n && ids[..n][i] == ids[n];
        assert ids[i] == ids[n];
        assert FirstOccurrences(ids) == r;
      } else {
        assert ids[n] !in Elements(r);
        assert Elements(r + [ids[n]]) == Elements(r) + {ids[n]};
        DistinctAppend(r, ids[n]);
        DistinctAppend(ids[..n], ids[n]);
      }
    }
  }

  lemma DistinctAppend<T>(s: seq<T>, x: T)
    requires x !in s
    ensures Distinct(s + [x]) <==> Distinct(s)
  {
    if Distinct(s + [x]) {
      forall i, j | 0 <= i < j < |s| ensures s[i] != s[j] {
        assert (s + [x])[i] != (s + [x])[j];
      }
    }
  }

  method CheckWithinMatchDuplicates(ids: seq<string>) returns (unique: seq<string>, hasDuplicates: bool)
    ensures unique == FirstOccurrences(ids)
    ensures hasDuplicates <==> !Distinct(ids)
  {
    var seen: set<string> := {};
    unique := [];
    hasDuplicates := false;
    for i := 0 to |ids|
      invariant seen == Elements(ids[..i]) && unique == FirstOccurrences(ids[..i])
      invariant hasDuplicates <==> |unique| < i
    {
      FirstOccurrencesStep(ids, i);
      if ids[i] in seen {
        hasDuplicates := true;
      } else {
        seen := seen + {ids[i]};
        unique := unique + [ids[i]];
      }
    }
    assert ids[..|ids|] == ids;
    FirstOccurrencesFacts(ids);
  }

  lemma FirstOccurrencesStep(ids: seq<string>, i: nat)
    requires i < |ids|
    ensures var first := FirstOccurrences(ids[..i]);
            && |first| <= i && Elements(ids[..i + 1]) == Elements(ids[..i]) + {ids[i]}
            && FirstOccurrences(ids[..i + 1]) == if ids[i] in Elements(ids[..i]) then first else first + [ids[i]]
  {
    FirstOccurrencesFacts(ids[..i]);
    assert ids[..i + 1][..i] == ids[..i] && ids[..i + 1] == ids[..i] + [ids[i]];
    EmptyPlus(FirstOccurrences(ids[..i]));
  }

  function Marks(ids: seq<string>): (r: set<string>)
    ensures r == Elements(ids)
  {
    set id | id in ids
  }

  /** The loop that rebuilds a list from the questions with a marked id. */
  method KeepMarked(qs: seq<Question>, marked: set<string>) returns (r: seq<Question>)
    ensures r == Filter(qs, marked, true)
  {
    r := [];
    for i := 0 to |qs|
      invariant r == Filter(qs[..i], marked, true)
    {
      assert qs[..i + 1][..i] == qs[..i];
      if qs[i].id in marked {
        r := r + [qs[i]];
      }
    }
    assert qs[..|qs|] == qs;
  }

  /** The filter meant to remove repetitions marks every id, so it keeps every list as it is. */
  lemma LevelOneKeepsEverything(qs: seq<Question>)
    ensures Filter(qs, Elements(FirstOccurrences(Ids(qs))), true) == qs
  {
    FirstOccurrencesFacts(Ids(qs));
    forall q | q in qs ensures q.id in Elements(FirstOccurrences(Ids(qs))) {
      var i :| 0 <= i < |qs| && qs[i] == q;
      InIds(qs, i);
    }
    FilterAll(qs, Elements(FirstOccurrences(Ids(qs))), true);
  }

  /** The questions of `qs`, in order, that are neither `taken` nor already picked, up to `room` of them. */
  ghost function Fresh(qs: seq<Question>, taken: set<string>, room: int): seq<Question> {
    if qs == [] then []
    else
      var q := qs[|qs| - 1];
      var r := Fresh(qs[..|qs| - 1], taken, room);
      if q.id !in taken && q.id !in IdSet(r) && |r| < room then r + [q] else r
  }

  lemma FreshStep(qs: seq<Question>, q: Question, taken: set<string>, room: int)
    ensures var r := Fresh(qs, taken, room);
            Fresh(qs + [q], taken, room) == if q.id !in taken && q.id !in IdSet(r) && |r| < room then r + [q] else r
  {
    assert (qs + [q])[..|qs|] == qs;
  }

  lemma {:induction false} FreshFacts(qs: seq<Question>, taken: set<string>, room: int)
    ensures var r := Fresh(qs, taken, room);
            && Distinct(Ids(r)) && IdSet(r) !! taken && |r| <= Max(room, 0) && |r| <= |qs|
            && (forall q :: q in r ==> q in qs)
            && (|r| < room ==> IdSet(qs) <= taken + IdSet(r))
  {
    if qs != [] {
      var q, r := qs[|qs| - 1], Fresh(qs[..|qs| - 1], taken, room);
      Snoc(qs);
      IdsAppend(qs[..|qs| - 1], q);
      FreshFacts(qs[..|qs| - 1], taken, room);
      if q.id !in taken && q.id !in IdSet(r) && |r| < room {
        IdsAppend(r, q);
        DistinctAppend(Ids(r), q.id);
      }
    }
  }

  /** Keeping first occurrences instead would leave no repetition and lose no id. */
  lemma KeepingFirstsWouldWork(qs: seq<Question>)
    ensures var r := Fresh(qs, {}, |qs|); Distinct(Ids(r)) && IdSet(r) == IdSet(qs)
  {
    FreshFacts(qs, {}, |qs|);
    var r := Fresh(qs, {}, |qs|);
    forall id | id in IdSet(r) ensures id in IdSet(qs) {
      var i :| 0 <= i < |r| && Ids(r)[i] == id;
      assert r[i] in qs;
      var j :| 0 <= j < |qs| && qs[j] == r[i];
      InIds(qs, j);
    }
    if |r| == |qs| {
      FullFresh(qs, {}, |qs|);
    }
  }

  lemma {:induction false} FullFresh(qs: seq<Question>, taken: set<string>, room: int)
    requires |Fresh(qs, taken, room)| == |qs|
    ensures Fresh(qs, taken, room) == qs
  {
    if qs != [] {
      FreshFacts(qs[..|qs| - 1], taken, room);
      FullFresh(qs[..|qs| - 1], taken, room);
      Snoc(qs);
    }
  }

  // ---------------------------------------------------------------------------------------------
  // The outside world
  // ---------------------------------------------------------------------------------------------

  datatype AIRequest = AIRequest(category: string, count: int, seed: string, difficultyCounts: map<string, int>)

  /** What the systems outside answer during one call. `curated` is the question pool's answer for each
      difficulty, `ai` the generator if there is one; the rest says which Redis calls succeed. */
  datatype World = World(
    curated: string -> Option<seq<Question>>,
    ai: Option<AIRequest -> Option<seq<Question>>>,
    cacheReadable: bool,
    cacheWritable: bool,
    batchReadable: bool,
    readable: nat -> bool,
    recheckReadable: nat -> bool)

  ghost function AIReply(w: World, category: string, needs: map<string, int>, seed: string): Option<seq<Question>> {
    match w.ai
    case None => None
    case Some(generate) => generate(AIRequest(category, MapSum(needs), seed, needs))
  }

  method FetchAIMixed(w: World, category: string, needs: map<string, int>, seed: string)
    returns (r: Option<seq<Question>>)
    ensures r == AIReply(w, category, needs, seed)
  {
    if w.ai.None? {
      return None;
    }
    var total := SumOf(needs);
    var generate := w.ai.value;
    r := generate(AIRequest(category, total, seed, needs));
  }

  // ---------------------------------------------------------------------------------------------
  // What the steps compute
  // ---------------------------------------------------------------------------------------------

  ghost function Missing(req: PackRequest, w: World): map<string, int> {
    map d | d in req.difficultyCounts && w.curated(d).Some? && req.difficultyCounts[d] > |w.curated(d).value| ::
      req.difficultyCounts[d] - |w.curated(d).value|
  }

  ghost function Curated(order: seq<string>, w: World): seq<Question> {
    if order == [] then []
    else
      var n := |order| - 1;
      Curated(order[..n], w) + if w.curated(order[n]).Some? then w.curated(order[n]).value else []
  }

  ghost predicate PoolAnswers(req: PackRequest, w: World) {
    forall d :: d in req.difficultyCounts ==> w.curated(d).Some?
  }

  ghost function Fallback(req: PackRequest, w: World): Option<seq<Question>> {
    if MapSum(Missing(req, w)) > 0 then AIReply(w, req.category, Missing(req, w), req.seed) else Some([])
  }

  /** `gathered` is what the pool and the fallback give when the difficulties are walked in `order`. */
  ghost predicate IsGathered(req: PackRequest, w: World, order: seq<string>, gathered: seq<Question>) {
    && Distinct(order) && Elements(order) == req.difficultyCounts.Keys
    && PoolAnswers(req, w) && Fallback(req, w).Some?
    && gathered == Curated(order, w) + Fallback(req, w).value
  }

  /** What the duplicate check adds: new ids only, and only to a short list with a repetition in it. */
  ghost function Extra(req: PackRequest, w: World, gathered: seq<Question>): seq<Question> {
    var needed := req.totalQuestions - |gathered|;
    if Distinct(Ids(gathered)) || needed <= 0 then []
    else
      var needs := Needs(req.difficultyCounts, req.totalQuestions, needed);
      Fresh(Given(AIReply(w, req.category, needs, req.seed + "-retry")), IdSet(gathered), needed)
  }

  /** Questions that pass their own history check, where a failed read passes everything. */
  ghost function Rechecked(qs: seq<Question>, history: set<string>, readable: nat -> bool): seq<Question> {
    if qs == [] then []
    else
      var n := |qs| - 1;
      Rechecked(qs[..n], history, readable) + if readable(n) && qs[n].id in history then [] else [qs[n]]
  }

  /** What is generated again for a list too short by some questions: unseen and new to the list. */
  ghost function Added(req: PackRequest, w: World, history: set<string>, first: seq<Question>): seq<Question> {
    var needed := req.totalQuestions - |first|;
    if needed <= 0 then []
    else NewAndChecked(Given(UniqueReply(req, w, needed)), history, w.recheckReadable, IdSet(first), needed)
  }

  /** The questions that pass their check and have an id not yet taken, while there is room. */
  ghost function NewAndChecked(qs: seq<Question>, history: set<string>, readable: nat -> bool, taken: set<string>,
                               room: int): seq<Question> {
    Fresh(Rechecked(qs, history, readable), taken, room)
  }

  lemma NothingNew(start: seq<Question>, history: set<string>, readable: nat -> bool, taken: set<string>, room: int)
    ensures start + NewAndChecked([], history, readable, taken, room) == start
  {
  }

  /** What a reply amounts to. */
  function Given(reply: Option<seq<Question>>): seq<Question> {
    match reply
    case None => []
    case Some(qs) => qs
  }

  ghost function UniqueReply(req: PackRequest, w: World, needed: nat): Option<seq<Question>>
    requires req.totalQuestions > 0
  {
    AIReply(w, req.category, Needs(req.difficultyCounts, req.totalQuestions, needed), req.seed + "-unique")
  }

  /** What the branch for more than three seen questions builds. */
  ghost function Replaced(req: PackRequest, w: World, history: set<string>, base: seq<Question>): seq<Question> {
    var first := Fresh(Unseen(base, history), {}, |base|);
    first + Added(req, w, history, first)
  }

  /** `r` is `base` with the seen questions moved to the end, in any order. */
  ghost predicate SeenMovedBack(base: seq<Question>, history: set<string>, r: seq<Question>) {
    && Unseen(base, history) <= r
    && multiset(r[|Unseen(base, history)|..]) == multiset(Seen(base, history))
  }

  /** The result of the two-player branch on a full pack, when both histories could be read. */
  ghost predicate TwoPlayerOutcome(req: PackRequest, w: World, h1: set<string>, h2: set<string>, base: seq<Question>,
                                   r: Result<seq<Question>>) {
    var most, both := Max(|Seen(base, h1)|, |Seen(base, h2)|), Seen(base, h1 + h2);
    if most == 0 then r == Ok(base)
    else if most <= 3 then
      && (r.Ok? <==> |both| <= most && Distinct(Ids(both)))
      && (r.Ok? ==> SeenMovedBack(base, h1 + h2, r.value))
    else
      var pack := Replaced(req, w, h1 + h2, base);
      && (r.Ok? <==> |pack| >= req.totalQuestions)
      && (r.Ok? ==> r.value == pack)
  }

  // ---------------------------------------------------------------------------------------------
  // The loops
  // ---------------------------------------------------------------------------------------------

  /** The marked questions, each id once. */
  method DistinctMarked(qs: seq<Question>, marked: set<string>) returns (r: seq<Question>)
    ensures r == Fresh(Filter(qs, marked, true), {}, |qs|)
  {
    var seenInMatch: set<string> := {};
    r := [];
    for i := 0 to |qs|
      invariant r == Fresh(Filter(qs[..i], marked, true), {}, |qs|) && |r| <= i && seenInMatch == IdSet(r)
    {
      FilterStep(qs, i, marked, true);
      FreshStep(Filter(qs[..i], marked, true), qs[i], {}, |qs|);
      if qs[i].id in marked && qs[i].id !in seenInMatch {
        IdsAppend(r, qs[i]);
        r := r + [qs[i]];
        seenInMatch := seenInMatch + {qs[i].id};
      }
    }
    assert qs[..|qs|] == qs;
  }

  lemma CuratedStep(order: seq<string>, d: string, w: World)
    requires d !in Elements(order) && Distinct(order) && w.curated(d).Some?
    ensures Curated(order + [d], w) == Curated(order, w) + w.curated(d).value
    ensures Distinct(order + [d]) && Elements(order + [d]) == Elements(order) + {d}
  {
    DistinctAppend(order, d);
    assert (order + [d])[..|order|] == order;
  }

  lemma MissingStep(req: PackRequest, w: World, left: set<string>, d: string)
    requires d in left && left <= req.difficultyCounts.Keys && w.curated(d).Some?
    ensures var needed, rest := req.difficultyCounts[d] - |w.curated(d).value|, Missing(req, w) - left;
            Missing(req, w) - (left - {d}) == if needed > 0 then rest[d := needed] else rest
  {
  }

  /** Walks the difficulties in an arbitrary order. */
  method GatherCurated(req: PackRequest, w: World)
    returns (r: Option<seq<Question>>, missing: map<string, int>, ghost order: seq<string>)
    ensures r.Some? <==> PoolAnswers(req, w)
    ensures r.Some? ==> r.value == Curated(order, w) && missing == Missing(req, w)
    ensures r.Some? ==> Distinct(order) && Elements(order) == req.difficultyCounts.Keys
  {
    var result: seq<Question> := [];
    missing := map[];
    order := [];
    var left := req.difficultyCounts.Keys;
    while left != {}
      invariant left <= req.difficultyCounts.Keys && Elements(order) == req.difficultyCounts.Keys - left
                && Distinct(order)
      invariant forall d :: d in order ==> w.curated(d).Some?
      invariant result == Curated(order, w)
      invariant missing == Missing(req, w) - left
      decreases left
    {
      var d :| d in left;
      var curated := w.curated(d);
      if curated.None? {
        return None, map[], [];
      }
      CuratedStep(order, d, w);
      MissingStep(req, w, left, d);
      order := order + [d];
      result := result + curated.value;
      var needed := req.difficultyCounts[d] - |curated.value|;
      if needed > 0 {
        missing := missing[d := needed];
      }
      left := left - {d};
    }
    forall d | d in req.difficultyCounts ensures w.curated(d).Some? {
      assert d in Elements(order);
    }
    assert missing == Missing(req, w) - {} == Missing(req, w);
    return Some(result), missing, order;
  }

  /** Curated questions, then one call for everything still missing. */
  method Gather(req: PackRequest, w: World) returns (r: Result<seq<Question>>, ghost order: seq<string>)
    ensures r.Ok? <==> PoolAnswers(req, w) && Fallback(req, w).Some?
    ensures r.Ok? ==> IsGathered(req, w, order, r.value)
  {
    var result, missing;
    result, missing, order := GatherCurated(req, w);
    if result.None? {
      return Err("curated questions failed"), order;
    }
    var totalNeeded := SumOf(missing);
    if totalNeeded > 0 {
      var reply := FetchAIMixed(w, req.category, missing, req.seed);
      if reply.None? {
        return Err("ai fallback failed"), order;
      }
      return Ok(result.value + reply.value), order;
    }
    assert result.value + [] == result.value;
    return Ok(result.value), order;
  }

  method SizeChecked(result: seq<Question>, total: nat) returns (r: Result<seq<Question>>)
    ensures if |result| < total then r.Err? else r == Ok(result[..total])
  {
    if |result| < total {
      return Err("insufficient questions");
    }
    if |result| > total {
      return Ok(result[..total]);
    }
    assert result[..total] == result;
    return Ok(result);
  }

  /** The duplicate check and the size check. */
  method LevelOne(req: PackRequest, w: World, gathered: seq<Question>) returns (r: Result<seq<Question>>)
    ensures var all := gathered + Extra(req, w, gathered);
            if |all| < req.totalQuestions then r.Err? else r == Ok(all[..req.totalQuestions])
  {
    var unique, hasDuplicates := CheckWithinMatchDuplicates(Ids(gathered));
    if !hasDuplicates {
      assert gathered + [] == gathered;
      r := SizeChecked(gathered, req.totalQuestions);
      return;
    }
    LevelOneKeepsEverything(gathered);
    var filtered := KeepMarked(gathered, Marks(unique));
    var result := Refill(req, w, filtered);
    r := SizeChecked(result, req.totalQuestions);
  }

  /** Generates again what a list with repetitions lacks. */
  method Refill(req: PackRequest, w: World, filtered: seq<Question>) returns (r: seq<Question>)
    requires !Distinct(Ids(filtered))
    ensures r == filtered + Extra(req, w, filtered)
  {
    r := filtered;
    var needed := req.totalQuestions - |filtered|;
    if needed > 0 {
      var needs := ProportionalNeeds(req.difficultyCounts, req.totalQuestions, needed);
      var more := FetchAIMixed(w, req.category, needs, req.seed + "-retry");
      EmptyPlus(filtered);
      if more.Some? {
        r := AppendFresh(more.value, filtered, req.totalQuestions);
      }
    } else {
      EmptyPlus(filtered);
    }
  }

  /** What the appending loops keep: `r` is `start` with the fresh ones among the questions that passed so
      far, and `existing` are all their ids. */
  ghost predicate Collected(passed: seq<Question>, start: seq<Question>, total: nat, r: seq<Question>,
                            existing: set<string>) {
    var added := Fresh(passed, IdSet(start), total - |start|);
    r == start + added && existing == IdSet(start) + IdSet(added)
  }

  /** One round of such a loop. */
  method AddIfNew(q: Question, unseen: bool, r: seq<Question>, existing: set<string>, total: nat,
                  ghost passed: seq<Question>, ghost start: seq<Question>)
    returns (r': seq<Question>, existing': set<string>)
    requires Collected(passed, start, total, r, existing)
    ensures Collected(if unseen then passed + [q] else passed, start, total, r', existing')
  {
    r', existing' := r, existing;
    FreshStep(passed, q, IdSet(start), total - |start|);
    if unseen && q.id !in existing && |r| < total {
      IdsAppend(Fresh(passed, IdSet(start), total - |start|), q);
      r', existing' := r + [q], existing + {q.id};
    }
  }

  /** Appends the questions with ids not yet taken, while there is room. */
  method AppendFresh(qs: seq<Question>, start: seq<Question>, total: nat) returns (r: seq<Question>)
    ensures r == start + Fresh(qs, IdSet(start), total - |start|)
  {
    var existing := Marks(Ids(start));
    r := start;
    for i := 0 to |qs|
      invariant Collected(qs[..i], start, total, r, existing)
    {
      assert qs[..i + 1] == qs[..i] + [qs[i]];
      r, existing := AddIfNew(qs[i], true, r, existing, total, qs[..i], start);
    }
    assert qs[..|qs|] == qs;
  }

  /** Walks the index in an arbitrary order, adding its questions while there is room. */
  method AddBack(start: seq<Question>, byId: map<string, Question>, total: nat)
    returns (r: seq<Question>, ghost dups: seq<Question>)
    requires |start| <= total && forall id :: id in byId ==> byId[id].id == id
    ensures r == start + dups && |dups| == Min(|byId|, total - |start|) && Distinct(Ids(dups))
    ensures forall q :: q in dups ==> q.id in byId && q == byId[q.id]
  {
    dups := [];
    r := start;
    var left := byId.Keys;
    while left != {}
      invariant left <= byId.Keys && r == start + dups
      invariant IdSet(dups) <= byId.Keys - left && Distinct(Ids(dups))
      invariant |dups| == Min(|byId| - |left|, total - |start|)
      invariant forall q :: q in dups ==> q.id in byId && q == byId[q.id]
      decreases left
    {
      var id :| id in left;
      if |r| < total {
        IdsAppend(dups, byId[id]);
        DistinctAppend(Ids(dups), id);
        dups := dups + [byId[id]];
        r := r + [byId[id]];
      }
      left := left - {id};
    }
  }

  /** Keeps the questions with `marked` ids and, when at most `most` are missing, fills up with the others,
      one per id. */
  method KeepFew(base: seq<Question>, marked: set<string>, most: nat, total: nat) returns (r: seq<Question>)
    requires |base| == total
    ensures var kept, out := Filter(base, marked, true), Filter(base, marked, false);
            && kept <= r && |r| <= total
            && (|r| == total <==> |out| <= most && Distinct(Ids(out)))
            && (|r| == total ==> multiset(r[|kept|..]) == multiset(out))
  {
    FilterSplits(base, marked);
    ghost var out := Filter(base, marked, false);
    CountIds(out);
    r := KeepMarked(base, marked);
    var needed := total - |r|;
    if needed > 0 && needed <= most {
      var byId := SeenById(base, marked);
      ghost var dups;
      r, dups := AddBack(r, byId, total);
      assert r[|Filter(base, marked, true)|..] == dups;
      assert |byId| == |IdSet(out)|;
      if |dups| == |out| {
        SamePermutation(dups, out, byId);
      }
    }
  }

  /** The last question with each id outside `marked`. */
  method SeenById(base: seq<Question>, marked: set<string>) returns (byId: map<string, Question>)
    ensures byId.Keys == IdSet(Filter(base, marked, false))
    ensures forall id :: id in byId ==> byId[id].id == id && byId[id] in Filter(base, marked, false)
  {
    byId := map[];
    for i := 0 to |base|
      invariant byId.Keys == IdSet(Filter(base[..i], marked, false))
      invariant forall id :: id in byId ==> byId[id].id == id && byId[id] in Filter(base[..i], marked, false)
    {
      FilterStep(base, i, marked, false);
      if base[i].id !in marked {
        IdsAppend(Filter(base[..i], marked, false), base[i]);
        ghost var was := byId;
        byId := byId[base[i].id := base[i]];
        assert byId.Keys == was.Keys + {base[i].id};
      }
    }
    assert base[..|base|] == base;
  }

  lemma CountIds(qs: seq<Question>)
    ensures |IdSet(qs)| <= |qs| && (|IdSet(qs)| == |qs| <==> Distinct(Ids(qs)))
  {
    FirstOccurrencesFacts(Ids(qs));
    DistinctCount(FirstOccurrences(Ids(qs)));
  }

  /** Two lists of distinct ids that draw the same number of questions from one index are permutations. */
  lemma SamePermutation(a: seq<Question>, b: seq<Question>, byId: map<string, Question>)
    requires |a| == |b| && Distinct(Ids(a)) && byId.Keys == IdSet(b) && |byId.Keys| >= |b|
    requires forall q :: q in a ==> q.id in byId && q == byId[q.id]
    requires forall id :: id in byId ==> byId[id].id == id && byId[id] in b
    ensures multiset(a) == multiset(b)
  {
    CountIds(b);
    OfDistinctIds(a);
    OfDistinctIds(b);
    CountIds(a);
    forall id | id in IdSet(a) ensures id in IdSet(b) {
      var i :| 0 <= i < |a| && Ids(a)[i] == id;
      assert a[i] in a;
    }
    SubsetCount(IdSet(a), IdSet(b));
    forall q | q in b ensures q in a {
      var j :| 0 <= j < |b| && b[j] == q;
      InIds(b, j);
      var i :| 0 <= i < |a| && Ids(a)[i] == q.id;
      assert a[i] in a && a[i] == byId[q.id];
      SameQuestion(b, q, byId[q.id]);
    }
    forall q | q in a ensures q in b {
    }
    assert forall q :: multiset(a)[q] == multiset(b)[q];
  }

  lemma SameQuestion(qs: seq<Question>, p: Question, q: Question)
    requires Distinct(Ids(qs)) && p in qs && q in qs && p.id == q.id
    ensures p == q
  {
    var i :| 0 <= i < |qs| && qs[i] == p;
    var j :| 0 <= j < |qs| && qs[j] == q;
    assert Ids(qs)[i] == Ids(qs)[j];
  }

  lemma {:induction false} OfDistinctIds(qs: seq<Question>)
    requires Distinct(Ids(qs))
    ensures forall q :: multiset(qs)[q] == if q in qs then 1 else 0
  {
    if qs != [] {
      var n := |qs| - 1;
      Snoc(qs);
      forall i, j | 0 <= i < j < n ensures Ids(qs[..n])[i] != Ids(qs[..n])[j] {
        assert Ids(qs)[i] != Ids(qs)[j];
      }
      OfDistinctIds(qs[..n]);
      forall i | 0 <= i < n ensures qs[..n][i] != qs[n] {
        assert Ids(qs)[i] != Ids(qs)[n];
      }
    }
  }

  // ---------------------------------------------------------------------------------------------
  // Level 2: what the players have seen before
  // ---------------------------------------------------------------------------------------------

  /** The ids in a history (with `keep`) or outside it (without), in order. */
  ghost function IdFilter(ids: seq<string>, history: set<string>, keep: bool): seq<string> {
    if ids == [] then []
    else
      var n := |ids| - 1;
      IdFilter(ids[..n], history, keep) + if (ids[n] in history) == keep then [ids[n]] else []
  }

  /** The ids that pass the per-question check, where a failed read passes everything. */
  ghost function PassedIds(ids: seq<string>, history: set<string>, readable: nat -> bool): seq<string> {
    if ids == [] then []
    else
      var n := |ids| - 1;
      PassedIds(ids[..n], history, readable) + if readable(n) && ids[n] in history then [] else [ids[n]]
  }

  lemma OnePassed(id: string, history: set<string>, readable: bool)
    ensures PassedIds([id], history, _ => readable) == if readable && id in history then [] else [id]
  {
    assert [id][..0] == [];
  }

  lemma {:induction false} PassedIdsAre(ids: seq<string>, history: set<string>, readable: nat -> bool)
    ensures |PassedIds(ids, history, readable)| <= |ids|
    ensures (forall i :: readable(i)) ==> PassedIds(ids, history, readable) == IdFilter(ids, history, false)
  {
    if ids != [] {
      PassedIdsAre(ids[..|ids| - 1], history, readable);
    }
  }

  /** What the single-user branch generates again: each share rounded down, zeros left as they are. */
  ghost function SingleReplaced(req: PackRequest, w: World, history: set<string>, base: seq<Question>): seq<Question> {
    var kept := Filter(base, Elements(PassedIds(Ids(base), history, w.readable)), true);
    if |kept| >= req.totalQuestions then base else kept + SingleAdded(req, w, history, kept)
  }

  /** What that branch adds to a short list. */
  ghost function SingleAdded(req: PackRequest, w: World, history: set<string>, kept: seq<Question>): seq<Question>
    requires |kept| < req.totalQuestions
  {
    var needed := req.totalQuestions - |kept|;
    NewAndChecked(Given(FlooredReply(req, w, needed)), history, w.recheckReadable, IdSet(kept), needed)
  }

  ghost function FlooredReply(req: PackRequest, w: World, needed: nat): Option<seq<Question>>
    requires req.totalQuestions > 0
  {
    AIReply(w, req.category, Shares(req.difficultyCounts, req.totalQuestions, needed), req.seed + "-unique")
  }

  lemma SingleReplacedSize(req: PackRequest, w: World, history: set<string>, base: seq<Question>)
    requires |base| == req.totalQuestions
    ensures |SingleReplaced(req, w, history, base)| <= req.totalQuestions
  {
    var marked := Elements(PassedIds(Ids(base), history, w.readable));
    FilterSplits(base, marked);
    var kept := Filter(base, marked, true);
    var needed := req.totalQuestions - |kept|;
    if needed > 0 {
      var reply := FlooredReply(req, w, needed);
      if reply.Some? {
        FreshFacts(Rechecked(reply.value, history, w.recheckReadable), IdSet(kept), needed);
      }
    }
  }

  /** The result of the single-user branch on a full pack, with Redis there: `passed` are the ids not found
      in the history. */
  ghost predicate SingleOutcome(req: PackRequest, w: World, history: set<string>, base: seq<Question>,
                                r: Result<seq<Question>>)
  {
    var passed := PassedIds(Ids(base), history, w.readable);
    var dup := |base| - |passed|;
    var kept, out := Filter(base, Elements(passed), true), Filter(base, Elements(passed), false);
    if dup <= 0 then r == Ok(base)
    else if dup <= 3 then
      && (r.Ok? <==> |out| <= dup && Distinct(Ids(out)))
      && (r.Ok? ==> kept <= r.value && multiset(r.value[|kept|..]) == multiset(out))
    else
      var pack := SingleReplaced(req, w, history, base);
      && (r.Ok? <==> |pack| >= req.totalQuestions)
      && (r.Ok? ==> r.value == pack)
  }

  lemma SingleSize(req: PackRequest, w: World, history: set<string>, base: seq<Question>, r: Result<seq<Question>>)
    requires |base| == req.totalQuestions && SingleOutcome(req, w, history, base, r) && r.Ok?
    ensures |r.value| == req.totalQuestions
  {
    var passed := PassedIds(Ids(base), history, w.readable);
    FilterSplits(base, Elements(passed));
    SingleReplacedSize(req, w, history, base);
    var out := Filter(base, Elements(passed), false);
    if 0 < |base| - |passed| <= 3 {
      var kept := Filter(base, Elements(passed), true);
      SameLength(r.value[|kept|..], out);
    }
  }

  lemma SameLength<T>(a: seq<T>, b: seq<T>)
    requires multiset(a) == multiset(b)
    ensures |a| == |b|
  {
    assert |multiset(a)| == |a| && |multiset(b)| == |b|;
  }

  lemma {:induction false} IdFilterOfIds(qs: seq<Question>, history: set<string>, keep: bool)
    ensures IdFilter(Ids(qs), history, keep) == Ids(Filter(qs, history, keep))
  {
    if qs != [] {
      var n := |qs| - 1;
      Snoc(qs);
      assert Ids(qs)[..n] == Ids(qs[..n]);
      IdFilterOfIds(qs[..n], history, keep);
      IdsAppend(Filter(qs[..n], history, keep), qs[n]);
    }
  }

  /** The mark left by an unseen list on its own questions is "unseen". */
  lemma MarkedIsUnseen(base: seq<Question>, history: set<string>)
    ensures var marked := Elements(IdFilter(Ids(base), history, false));
            Filter(base, marked, true) == Unseen(base, history) && Filter(base, marked, false) == Seen(base, history)
  {
    var unseen := Unseen(base, history);
    var marked := Elements(IdFilter(Ids(base), history, false));
    IdFilterOfIds(base, history, false);
    FilterMember(base, history, false);
    assert marked == IdSet(unseen);
    forall q | q in base ensures q.id in marked <==> q.id !in history {
      if q.id in marked {
        var i :| 0 <= i < |unseen| && Ids(unseen)[i] == q.id;
        assert unseen[i] in unseen;
      }
      if q.id !in history {
        var i :| 0 <= i < |unseen| && unseen[i] == q;
        InIds(unseen, i);
      }
    }
    FilterSame(base, marked, true, history, false);
    FilterSame(base, marked, false, history, true);
  }

  lemma {:induction false} SeenByEither(qs: seq<Question>, h1: set<string>, h2: set<string>)
    ensures |Seen(qs, h1 + h2)| >= |Seen(qs, h1)|
    ensures |Seen(qs, h1 + h2)| == |Seen(qs, h1)| <==> forall q :: q in qs && q.id in h2 ==> q.id in h1
  {
    if qs != [] {
      var n := |qs| - 1;
      Snoc(qs);
      SeenByEither(qs[..n], h1, h2);
      assert forall q :: q in qs <==> q in qs[..n] || q == qs[n];
    }
  }

  /** What the check of a pack against two histories finds. */
  lemma TwoHistories(base: seq<Question>, h1: set<string>, h2: set<string>)
    ensures |IdFilter(Ids(base), h1, true)| == |Seen(base, h1)| && |IdFilter(Ids(base), h2, true)| == |Seen(base, h2)|
    ensures |Seen(base, h1 + h2)| >= Max(|Seen(base, h1)|, |Seen(base, h2)|)
    ensures var marked := Elements(IdFilter(Ids(base), h1 + h2, false));
            && Filter(base, marked, true) == Unseen(base, h1 + h2)
            && Filter(base, marked, false) == Seen(base, h1 + h2)
  {
    IdFilterOfIds(base, h1, true);
    IdFilterOfIds(base, h2, true);
    MarkedIsUnseen(base, h1 + h2);
    SeenByEither(base, h1, h2);
    SeenByEither(base, h2, h1);
    assert h2 + h1 == h1 + h2;
  }

  lemma RecheckedStep(qs: seq<Question>, i: nat, history: set<string>, readable: nat -> bool)
    requires i < |qs|
    ensures var passed := Rechecked(qs[..i], history, readable);
            Rechecked(qs[..i + 1], history, readable)
            == if !(readable(i) && qs[i].id in history) then passed + [qs[i]] else passed
  {
    assert qs[..i + 1][..i] == qs[..i];
    EmptyPlus(Rechecked(qs[..i], history, readable));
  }

  lemma OneId(id: string, history: set<string>)
    ensures IdFilter([id], history, false) == if id in history then [] else [id]
  {
    assert [id][..0] == [];
  }

  lemma AddedFacts(req: PackRequest, w: World, history: set<string>, first: seq<Question>)
    ensures var added := Added(req, w, history, first);
            && |added| <= Max(req.totalQuestions - |first|, 0)
            && Distinct(Ids(added)) && IdSet(added) !! IdSet(first)
            && ((forall i :: w.recheckReadable(i)) ==> forall q :: q in added ==> q.id !in history)
  {
    var needed := req.totalQuestions - |first|;
    if needed > 0 {
      var reply := UniqueReply(req, w, needed);
      if reply.Some? {
        FreshFacts(Rechecked(reply.value, history, w.recheckReadable), IdSet(first), needed);
        RecheckedFacts(reply.value, history, w.recheckReadable);
      }
    }
  }

  /** Replacing leaves at most a full pack. */
  lemma ReplacedSize(req: PackRequest, w: World, history: set<string>, base: seq<Question>)
    requires |base| == req.totalQuestions && |Seen(base, history)| > 0
    ensures |Fresh(Unseen(base, history), {}, |base|)| < req.totalQuestions
    ensures |Replaced(req, w, history, base)| <= req.totalQuestions
  {
    FilterSplits(base, history);
    FreshFacts(Unseen(base, history), {}, |base|);
    AddedFacts(req, w, history, Fresh(Unseen(base, history), {}, |base|));
  }

  lemma {:induction false} RecheckedFacts(qs: seq<Question>, history: set<string>, readable: nat -> bool)
    ensures forall q :: q in Rechecked(qs, history, readable) ==> q in qs
    ensures (forall i :: readable(i)) ==> forall q :: q in Rechecked(qs, history, readable) ==> q.id !in history
  {
    if qs != [] {
      Snoc(qs);
      RecheckedFacts(qs[..|qs| - 1], history, readable);
    }
  }

  method Regenerate(req: PackRequest, w: World, needed: nat) returns (more: Option<seq<Question>>)
    requires req.totalQuestions > 0
    ensures more == UniqueReply(req, w, needed)
  {
    var needs := ProportionalNeeds(req.difficultyCounts, req.totalQuestions, needed);
    more := FetchAIMixed(w, req.category, needs, req.seed + "-unique");
  }

  method RegenerateFloored(req: PackRequest, w: World, needed: nat) returns (more: Option<seq<Question>>)
    requires req.totalQuestions > 0
    ensures more == FlooredReply(req, w, needed)
  {
    var needs := FlooredNeeds(req.difficultyCounts, req.totalQuestions, needed);
    more := FetchAIMixed(w, req.category, needs, req.seed + "-unique");
  }

  class Service {
    const cache: Cache
    const redis: bool
    var history: map<Id, set<string>>

    constructor (cache: Cache, redis: bool)
      ensures this.cache == cache && this.redis == redis && history == map[]
    {
      this.cache := cache;
      this.redis := redis;
      history := map[];
    }

    function HistoryOf(user: Id): set<string>
      reads this
    {
      if user in history then history[user] else {}
    }

    /** Whether the history check of two players gets an answer. */
    predicate Answers(p1: Id, p2: Id, readable: bool) {
      redis && p1 != NIL && p2 != NIL && readable
    }

    method CheckBothPlayersHistory(p1: Id, p2: Id, ids: seq<string>, readable: bool)
      returns (unseen: seq<string>, dup1: nat, dup2: nat)
      ensures if Answers(p1, p2, readable) then
                && unseen == IdFilter(ids, HistoryOf(p1) + HistoryOf(p2), false)
                && dup1 == |IdFilter(ids, HistoryOf(p1), true)| && dup2 == |IdFilter(ids, HistoryOf(p2), true)|
              else unseen == ids && dup1 == dup2 == 0
    {
      if !redis || p1 == NIL || p2 == NIL {
        return ids, 0, 0;
      }
      if |ids| == 0 {
        return [], 0, 0;
      }
      if !readable {
        return ids, 0, 0;
      }
      unseen, dup1, dup2 := [], 0, 0;
      for i := 0 to |ids|
        invariant unseen == IdFilter(ids[..i], HistoryOf(p1) + HistoryOf(p2), false)
        invariant dup1 == |IdFilter(ids[..i], HistoryOf(p1), true)| && dup2 == |IdFilter(ids[..i], HistoryOf(p2), true)|
      {
        assert ids[..i + 1][..i] == ids[..i];
        var seen1, seen2 := ids[i] in HistoryOf(p1), ids[i] in HistoryOf(p2);
        if seen1 {
          dup1 := dup1 + 1;
        }
        if seen2 {
          dup2 := dup2 + 1;
        }
        if !seen1 && !seen2 {
          unseen := unseen + [ids[i]];
        }
      }
      assert ids[..|ids|] == ids;
    }

    /** SADD then EXPIRE; a failed EXPIRE is reported though the ids are stored. */
    method AddUserQuestionHistory(user: Id, ids: seq<string>, addOk: bool, expireOk: bool) returns (ok: bool)
      modifies this`history
      ensures var skip := !redis || user == NIL || ids == [];
              && (ok <==> skip || (addOk && expireOk))
              && HistoryOf(user) == (if skip || !addOk then old(HistoryOf(user))
                                     else old(HistoryOf(user)) + Elements(ids))
      ensures forall u: Id :: u != user ==> HistoryOf(u) == old(HistoryOf(u))
    {
      if !redis || user == NIL || |ids| == 0 {
        return true;
      }
      if !addOk {
        return false;
      }
      history := history[user := HistoryOf(user) + Marks(ids)];
      return expireOk;
    }

    method UnseenByBoth(p1: Id, p2: Id, id: string, readable: bool) returns (ok: bool)
      requires Answers(p1, p2, true)
      ensures ok <==> !(readable && id in HistoryOf(p1) + HistoryOf(p2))
    {
      OneId(id, HistoryOf(p1) + HistoryOf(p2));
      var unseen, _, _ := CheckBothPlayersHistory(p1, p2, [id], readable);
      ok := |unseen| > 0;
    }

    /** Adds regenerated questions that neither player has seen and that are new to the match. */
    method AppendUnseen(p1: Id, p2: Id, qs: seq<Question>, start: seq<Question>, total: nat, readable: nat -> bool)
      returns (r: seq<Question>)
      requires Answers(p1, p2, true)
      ensures r == start + NewAndChecked(qs, HistoryOf(p1) + HistoryOf(p2), readable, IdSet(start), total - |start|)
    {
      ghost var seen := HistoryOf(p1) + HistoryOf(p2);
      var seenInMatch := Marks(Ids(start));
      r := start;
      for i := 0 to |qs|
        invariant Collected(Rechecked(qs[..i], seen, readable), start, total, r, seenInMatch)
      {
        RecheckedStep(qs, i, seen, readable);
        var unseen := UnseenByBoth(p1, p2, qs[i].id, readable(i));
        r, seenInMatch := AddIfNew(qs[i], unseen, r, seenInMatch, total, Rechecked(qs[..i], seen, readable), start);
      }
      assert qs[..|qs|] == qs;
    }

    /** More than three seen: only unseen questions stay, and the rest is generated again. */
    method ReplaceSeen(req: PackRequest, w: World, p1: Id, p2: Id, base: seq<Question>, unseenByBoth: seq<string>)
      returns (result: seq<Question>)
      requires |base| == req.totalQuestions && Answers(p1, p2, true)
      requires unseenByBoth == IdFilter(Ids(base), HistoryOf(p1) + HistoryOf(p2), false)
      requires |Seen(base, HistoryOf(p1) + HistoryOf(p2))| > 0
      ensures result == Replaced(req, w, HistoryOf(p1) + HistoryOf(p2), base)
    {
      ghost var seen := HistoryOf(p1) + HistoryOf(p2);
      MarkedIsUnseen(base, seen);
      ReplacedSize(req, w, seen, base);
      var filtered := DistinctMarked(base, Marks(unseenByBoth));
      if |filtered| < req.totalQuestions {
        result := TopUp(req, w, p1, p2, filtered);
      } else {
        result := base;
      }
    }

    method TopUp(req: PackRequest, w: World, p1: Id, p2: Id, filtered: seq<Question>) returns (result: seq<Question>)
      requires |filtered| < req.totalQuestions && Answers(p1, p2, true)
      ensures result == filtered + Added(req, w, HistoryOf(p1) + HistoryOf(p2), filtered)
    {
      var more := Regenerate(req, w, req.totalQuestions - |filtered|);
      result := AppendGiven(more, w, p1, p2, filtered, req.totalQuestions);
    }

    method AppendGiven(more: Option<seq<Question>>, w: World, p1: Id, p2: Id, filtered: seq<Question>, total: nat)
      returns (result: seq<Question>)
      requires Answers(p1, p2, true)
      ensures result == filtered + NewAndChecked(Given(more), HistoryOf(p1) + HistoryOf(p2), w.recheckReadable,
                                                 IdSet(filtered), total - |filtered|)
    {
      result := filtered;
      NothingNew(filtered, HistoryOf(p1) + HistoryOf(p2), w.recheckReadable, IdSet(filtered), total - |filtered|);
      if more.Some? {
        result := AppendUnseen(p1, p2, more.value, filtered, total, w.recheckReadable);
      }
    }

    /** The cross-match check for two players, on a full pack. */
    method CrossMatch(req: PackRequest, w: World, p1: Id, p2: Id, base: seq<Question>)
      returns (r: Result<seq<Question>>)
      requires |base| == req.totalQuestions
      ensures if Answers(p1, p2, w.batchReadable) then TwoPlayerOutcome(req, w, HistoryOf(p1), HistoryOf(p2), base, r)
              else r == Ok(base)
    {
      var unseenByBoth, dup1, dup2 := CheckBothPlayersHistory(p1, p2, Ids(base), w.batchReadable);
      var maxDup := dup1;
      if dup2 > maxDup {
        maxDup := dup2;
      }
      ghost var h1, h2 := HistoryOf(p1), HistoryOf(p2);
      if Answers(p1, p2, w.batchReadable) {
        TwoHistories(base, h1, h2);
      }
      var result := base;
      if maxDup > 3 {
        ReplacedSize(req, w, h1 + h2, base);
        result := ReplaceSeen(req, w, p1, p2, base, unseenByBoth);
      } else if maxDup > 0 {
        result := KeepFew(base, Marks(unseenByBoth), maxDup, req.totalQuestions);
      }
      r := SizeChecked(result, req.totalQuestions);
      assert |result| == req.totalQuestions ==> result[..req.totalQuestions] == result;
    }

    /** The per-question check of the deprecated single-user branch; a failed read counts as unseen. */
    method CheckUserQuestionHistory(user: Id, ids: seq<string>, readable: nat -> bool)
      returns (unseen: seq<string>, dup: nat)
      ensures unseen == if redis && user != NIL then PassedIds(ids, HistoryOf(user), readable) else ids
      ensures |unseen| + dup == |ids|
    {
      if !redis || user == NIL {
        return ids, 0;
      }
      unseen, dup := [], 0;
      for i := 0 to |ids|
        invariant unseen == PassedIds(ids[..i], HistoryOf(user), readable) && |unseen| + dup == i
      {
        assert ids[..i + 1][..i] == ids[..i];
        if !readable(i) || ids[i] !in HistoryOf(user) {
          unseen := unseen + [ids[i]];
        } else {
          dup := dup + 1;
        }
      }
      assert ids[..|ids|] == ids;
    }

    method Passes(user: Id, id: string, readable: bool) returns (ok: bool)
      requires redis && user != NIL
      ensures ok <==> !(readable && id in HistoryOf(user))
    {
      OnePassed(id, HistoryOf(user), readable);
      var unseen, _ := CheckUserQuestionHistory(user, [id], _ => readable);
      ok := |unseen| > 0;
    }

    /** Adds regenerated questions that the user has not seen and that are new to the match. */
    method AppendPassed(user: Id, qs: seq<Question>, start: seq<Question>, total: nat, readable: nat -> bool)
      returns (r: seq<Question>)
      requires redis && user != NIL
      ensures r == start + NewAndChecked(qs, HistoryOf(user), readable, IdSet(start), total - |start|)
    {
      var existing := Marks(Ids(start));
      r := start;
      for i := 0 to |qs|
        invariant Collected(Rechecked(qs[..i], HistoryOf(user), readable), start, total, r, existing)
      {
        RecheckedStep(qs, i, HistoryOf(user), readable);
        var unseen := Passes(user, qs[i].id, readable(i));
        r, existing :=
          AddIfNew(qs[i], unseen, r, existing, total, Rechecked(qs[..i], HistoryOf(user), readable), start);
      }
      assert qs[..|qs|] == qs;
    }

    /** The deprecated branch for a single user. */
    method CrossMatchSingle(req: PackRequest, w: World, user: Id, base: seq<Question>)
      returns (r: Result<seq<Question>>)
      requires |base| == req.totalQuestions
      ensures if redis && user != NIL then SingleOutcome(req, w, HistoryOf(user), base, r) else r == Ok(base)
    {
      var unseen, dup := CheckUserQuestionHistory(user, Ids(base), w.readable);
      var result := base;
      if dup > 3 {
        SingleReplacedSize(req, w, HistoryOf(user), base);
        result := ReplaceSeenSingle(req, w, user, base, unseen);
      } else if dup > 0 {
        result := KeepFew(base, Marks(unseen), dup, req.totalQuestions);
      }
      r := SizeChecked(result, req.totalQuestions);
      assert |result| == req.totalQuestions ==> result[..req.totalQuestions] == result;
    }

    method ReplaceSeenSingle(req: PackRequest, w: World, user: Id, base: seq<Question>, unseen: seq<string>)
      returns (result: seq<Question>)
      requires redis && user != NIL && unseen == PassedIds(Ids(base), HistoryOf(user), w.readable)
      ensures result == SingleReplaced(req, w, HistoryOf(user), base)
    {
      var filtered := KeepMarked(base, Marks(unseen));
      var needed := req.totalQuestions - |filtered|;
      if needed <= 0 {
        return base;
      }
      result := TopUpSingle(req, w, user, filtered);
    }

    /** Fills a short list up with regenerated questions. */
    method TopUpSingle(req: PackRequest, w: World, user: Id, filtered: seq<Question>) returns (result: seq<Question>)
      requires redis && user != NIL && |filtered| < req.totalQuestions
      ensures result == filtered + SingleAdded(req, w, HistoryOf(user), filtered)
    {
      var more := RegenerateFloored(req, w, req.totalQuestions - |filtered|);
      result := AppendGivenPassed(more, w, user, filtered, req.totalQuestions);
    }

    method AppendGivenPassed(more: Option<seq<Question>>, w: World, user: Id, filtered: seq<Question>, total: nat)
      returns (result: seq<Question>)
      requires redis && user != NIL
      ensures result == filtered + NewAndChecked(Given(more), HistoryOf(user), w.recheckReadable, IdSet(filtered),
                                                 total - |filtered|)
    {
      result := filtered;
      NothingNew(filtered, HistoryOf(user), w.recheckReadable, IdSet(filtered), total - |filtered|);
      if more.Some? {
        result := AppendPassed(user, more.value, filtered, total, w.recheckReadable);
      }
    }

    /** What the rest of the call makes of a full pack, by match mode. */
    ghost predicate ModeOutcome(req: PackRequest, w: World, base: seq<Question>, r: Result<seq<Question>>)
      reads this
    {
      if TwoPlayers(req) then
        var p1, p2 := req.userIds[0].value, req.userIds[1].value;
        if Answers(p1, p2, w.batchReadable) then TwoPlayerOutcome(req, w, HistoryOf(p1), HistoryOf(p2), base, r)
        else r == Ok(base)
      else if SingleUser(req) then
        if redis then SingleOutcome(req, w, HistoryOf(req.userId.value), base, r) else r == Ok(base)
      else r == Ok(base)
    }

    /** A pack built without the cache. */
    method Assemble(req: PackRequest, w: World)
      returns (r: Result<seq<Question>>, ghost order: seq<string>, ghost gathered: seq<Question>)
      ensures !(PoolAnswers(req, w) && Fallback(req, w).Some?) ==> r.Err?
      ensures PoolAnswers(req, w) && Fallback(req, w).Some? ==>
                && IsGathered(req, w, order, gathered)
                && var all := gathered + Extra(req, w, gathered);
                  if |all| < req.totalQuestions then r.Err? else ModeOutcome(req, w, all[..req.totalQuestions], r)
      ensures r.Ok? ==> |r.value| == req.totalQuestions
    {
      var found;
      found, order := Gather(req, w);
      if found.Err? {
        return found, order, [];
      }
      gathered := found.value;
      var base := LevelOne(req, w, found.value);
      if base.Err? {
        return base, order, gathered;
      }
      if TwoPlayers(req) {
        r := CrossMatch(req, w, req.userIds[0].value, req.userIds[1].value, base.value);
        if r.Ok? && Answers(req.userIds[0].value, req.userIds[1].value, w.batchReadable) {
          TwoPlayerSize(req, w, HistoryOf(req.userIds[0].value), HistoryOf(req.userIds[1].value), base.value, r);
        }
      } else if SingleUser(req) {
        r := CrossMatchSingle(req, w, req.userId.value, base.value);
        if r.Ok? && redis {
          SingleSize(req, w, HistoryOf(req.userId.value), base.value, r);
        }
      } else {
        r := base;
      }
    }

    /** `hit` is whether the pack came from the cache. */
    method FetchPack(req: PackRequest, w: World)
      returns (r: Result<seq<Question>>, ghost hit: bool, ghost order: seq<string>, ghost gathered: seq<Question>)
      modifies cache
      ensures hit <==> w.cacheReadable && exists key :: IsKey(req, key) && key in old(cache.client)
      ensures hit ==>
                r.Ok? && exists key :: IsKey(req, key) && key in old(cache.client) && r.value == old(cache.client)[key]
      ensures hit || r.Err? ==> cache.client == old(cache.client)
      ensures !hit && r.Ok? ==>
                exists key :: IsKey(req, key) &&
                  cache.client == if w.cacheWritable then old(cache.client)[key := r.value] else old(cache.client)
      ensures !hit && !(PoolAnswers(req, w) && Fallback(req, w).Some?) ==> r.Err?
      ensures !hit && PoolAnswers(req, w) && Fallback(req, w).Some? ==>
                && IsGathered(req, w, order, gathered)
                && var all := gathered + Extra(req, w, gathered);
                  if |all| < req.totalQuestions then r.Err? else old(ModeOutcome(req, w, all[..req.totalQuestions], r))
      ensures old(PacksSized(cache.client)) && NamesOk(req) ==>
                PacksSized(cache.client) && (r.Ok? ==> |r.value| == req.totalQuestions)
    {
      var cached := cache.Get(req, w.cacheReadable);
      ghost var key :|
        && IsKey(req, key)
        && cached == if w.cacheReadable && key in cache.client then Some(cache.client[key]) else None;
      hit, order, gathered := cached.Some?, [], [];
      forall k | IsKey(req, k) ensures k == key {
        KeyUnique(req, k, key);
      }
      if cached.Some? {
        if PacksSized(cache.client) && NamesOk(req) {
          CachedSize(req, key, cache.client);
        }
        return Ok(cached.value), hit, order, gathered;
      }
      r, order, gathered := Assemble(req, w);
      if r.Ok? {
        cache.Set(req, r.value, w.cacheWritable);
        if old(PacksSized(cache.client)) && NamesOk(req) {
          assert SizedFor(req, key, r.value);
        }
      }
    }
  }

  /** Two players in a random one-on-one match. */
  predicate TwoPlayers(req: PackRequest) {
    req.matchMode == "random_1v1" && |req.userIds| >= 2 && req.userIds[0].Some? && req.userIds[1].Some?
  }

  predicate SingleUser(req: PackRequest) {
    !TwoPlayers(req) && req.matchMode == "random_1v1" && req.userId.Some? && req.userId.value != NIL
  }

  // ---------------------------------------------------------------------------------------------
  // Pack sizes, fresh or cached
  // ---------------------------------------------------------------------------------------------

  ghost predicate SizedFor(req: PackRequest, key: string, pack: seq<Question>) {
    IsKey(req, key) && NamesOk(req) && |pack| == req.totalQuestions
  }

  /** Each cached pack has the size that some request with its key asks for. */
  ghost predicate PacksSized(client: map<string, seq<Question>>) {
    forall key :: key in client ==> exists req :: SizedFor(req, key, client[key])
  }

  lemma CachedSize(req: PackRequest, key: string, client: map<string, seq<Question>>)
    requires PacksSized(client) && key in client && IsKey(req, key) && NamesOk(req)
    ensures |client[key]| == req.totalQuestions
  {
    var other :| SizedFor(other, key, client[key]);
    KeyDetermines(req, other, key, key);
  }

  lemma TwoPlayerSize(req: PackRequest, w: World, h1: set<string>, h2: set<string>, base: seq<Question>,
                      r: Result<seq<Question>>)
    requires |base| == req.totalQuestions && TwoPlayerOutcome(req, w, h1, h2, base, r) && r.Ok?
    ensures |r.value| == req.totalQuestions
  {
    SeenByEither(base, h1, h2);
    SeenByEither(base, h2, h1);
    assert h2 + h1 == h1 + h2;
    FilterSplits(base, h1 + h2);
    var most := Max(|Seen(base, h1)|, |Seen(base, h2)|);
    if most > 3 {
      ReplacedSize(req, w, h1 + h2, base);
    } else if most > 0 {
      var back := r.value[|Unseen(base, h1 + h2)|..];
      assert |multiset(back)| == |back| && |multiset(Seen(base, h1 + h2))| == |Seen(base, h1 + h2)|;
    }
  }

  // ---------------------------------------------------------------------------------------------
  // Repetitions within a pack
  // ---------------------------------------------------------------------------------------------

  /** The duplicate check never turns repetition into variety: a full pack is free of repetitions exactly
      when its questions came without any from the first gathering. */
  lemma DuplicateCheckNeverHelps(req: PackRequest, w: World, gathered: seq<Question>)
    requires |gathered + Extra(req, w, gathered)| >= req.totalQuestions
    ensures var base := (gathered + Extra(req, w, gathered))[..req.totalQuestions];
            Distinct(Ids(base)) <==> |gathered| >= req.totalQuestions && Distinct(Ids(gathered[..req.totalQuestions]))
  {
    var base := (gathered + Extra(req, w, gathered))[..req.totalQuestions];
    if |gathered| >= req.totalQuestions {
      assert base == gathered[..req.totalQuestions];
    } else {
      var i, j :| 0 <= i < j < |gathered| && Ids(gathered)[i] == Ids(gathered)[j];
      assert Ids(base)[i] == Ids(base)[j];
    }
  }

  /** A pool that gives the same two questions for every difficulty, and no generator. */
  function SmallPool(): World {
    var a, b := Question("a", "x"), Question("b", "y");
    World(d => Some(if d == "hard" then [a] else [a, b]), None, true, true, true, _ => true, _ => true)
  }

  function PrivateFive(): PackRequest {
    PackRequest("general", FixedDistribution(5), 5, "seed", None, [], "private_room")
  }

  lemma SmallPoolGathers() returns (order: seq<string>, gathered: seq<Question>)
    ensures IsGathered(PrivateFive(), SmallPool(), order, gathered)
    ensures |gathered| == 5 && gathered[0].id == gathered[2].id
  {
    var w, a, b := SmallPool(), Question("a", "x"), Question("b", "y");
    order, gathered := ["easy", "medium", "hard"], [a, b] + [a, b] + [a];
    CuratedOfThree(w, "easy", "medium", "hard");
    NoneMissing(PrivateFive(), w);
    FixedKeys();
    EmptyPlus(Curated(order, w));
  }

  lemma FixedKeys()
    ensures FixedDistribution(5).Keys == Elements(["easy", "medium", "hard"]) && Distinct(["easy", "medium", "hard"])
  {
    assert "easy"[0] == 'e' && "medium"[0] == 'm' && "hard"[0] == 'h';
  }

  /** The pool draws at random for each difficulty anew: a private pack of five in which the draws repeat. */
  lemma RepetitionSurvives() returns (req: PackRequest, w: World, gathered: seq<Question>, order: seq<string>)
    ensures req.difficultyCounts == FixedDistribution(5) && req.totalQuestions == 5 && req.matchMode == "private_room"
    ensures IsGathered(req, w, order, gathered) && !TwoPlayers(req) && !SingleUser(req)
    ensures var all := gathered + Extra(req, w, gathered);
            |all| >= req.totalQuestions && !Distinct(Ids(all[..req.totalQuestions]))
  {
    req, w := PrivateFive(), SmallPool();
    order, gathered := SmallPoolGathers();
    RepeatsStay(req, w, gathered, 0, 2);
  }

  /** A pool that has enough for every difficulty needs no fallback. */
  lemma NoneMissing(req: PackRequest, w: World)
    requires PoolAnswers(req, w)
    requires forall d :: d in req.difficultyCounts ==> |w.curated(d).value| >= req.difficultyCounts[d]
    ensures Fallback(req, w) == Some([])
  {
    assert Missing(req, w) == map[];
  }

  lemma RepeatsStay(req: PackRequest, w: World, gathered: seq<Question>, i: nat, j: nat)
    requires |gathered| == req.totalQuestions && i < j < |gathered| && gathered[i].id == gathered[j].id
    ensures var all := gathered + Extra(req, w, gathered);
            |all| >= req.totalQuestions && !Distinct(Ids(all[..req.totalQuestions]))
  {
    var n := req.totalQuestions;
    assert gathered[..n] == gathered;
    DuplicateCheckNeverHelps(req, w, gathered);
    assert Ids(gathered)[i] == Ids(gathered)[j];
  }

  lemma CuratedLast(order: seq<string>, d: string, w: World)
    requires w.curated(d).Some?
    ensures Curated(order + [d], w) == Curated(order, w) + w.curated(d).value
  {
    assert (order + [d])[..|order|] == order;
  }

  lemma CuratedOfThree(w: World, d1: string, d2: string, d3: string)
    requires w.curated(d1).Some? && w.curated(d2).Some? && w.curated(d3).Some?
    ensures Curated([d1, d2, d3], w) == w.curated(d1).value + w.curated(d2).value + w.curated(d3).value
  {
    var one: seq<string>, two: seq<string> := [] + [d1], [] + [d1] + [d2];
    CuratedLast([], d1, w);
    CuratedLast(one, d2, w);
    CuratedLast(two, d3, w);
    assert two + [d3] == [d1, d2, d3];
    EmptyPlus(w.curated(d1).value);
  }

  lemma EmptyPlus<T>(a: seq<T>)
    ensures [] + a == a && a + [] == a
  {
  }

  // ---------------------------------------------------------------------------------------------
  // Fairness across matches
  // ---------------------------------------------------------------------------------------------

  /** One of two players has seen every listed question that the other has seen. */
  ghost predicate OneSawAll(qs: seq<Question>, h1: set<string>, h2: set<string>) {
    || (forall q :: q in qs && q.id in h1 ==> q.id in h2)
    || (forall q :: q in qs && q.id in h2 ==> q.id in h1)
  }

  /** With one to three seen questions a pack is made exactly when one player saw all that the other saw
      and no seen question repeats; it is then the same pack in another order. */
  lemma FewSeenSucceedsIff(req: PackRequest, w: World, h1: set<string>, h2: set<string>, base: seq<Question>,
                           r: Result<seq<Question>>)
    requires |base| == req.totalQuestions && TwoPlayerOutcome(req, w, h1, h2, base, r)
    requires 1 <= Max(|Seen(base, h1)|, |Seen(base, h2)|) <= 3
    ensures r.Ok? <==> OneSawAll(base, h1, h2) && Distinct(Ids(Seen(base, h1 + h2)))
    ensures r.Ok? ==> multiset(r.value) == multiset(base)
    ensures r.Ok? ==> |Seen(r.value, h1 + h2)| <= 3
  {
    SeenByEither(base, h1, h2);
    SeenByEither(base, h2, h1);
    assert h2 + h1 == h1 + h2;
    if r.Ok? {
      MovedBackCounts(base, h1 + h2, r.value);
    }
  }

  /** The failing case is an everyday one: whatever pool and generator answer, no pack is made when each
      player has seen a question of the list that the other has not, and neither more than three. */
  lemma DifferentSeenFails(req: PackRequest, w: World, h1: set<string>, h2: set<string>, base: seq<Question>,
                           r: Result<seq<Question>>, i: nat, j: nat)
    requires |base| == req.totalQuestions && TwoPlayerOutcome(req, w, h1, h2, base, r)
    requires |Seen(base, h1)| <= 3 && |Seen(base, h2)| <= 3 && i < |base| && j < |base|
    requires base[i].id in h1 && base[i].id !in h2 && base[j].id in h2 && base[j].id !in h1
    ensures r.Err?
  {
    FilterMember(base, h1, true);
    assert base[i] in Seen(base, h1);
    FewSeenSucceedsIff(req, w, h1, h2, base, r);
  }

  /** Five different questions of which each player has seen one, and no pack. */
  lemma OneSeenEachFails(w: World)
    returns (req: PackRequest, base: seq<Question>, h1: set<string>, h2: set<string>)
    ensures TwoPlayers(req) && req.difficultyCounts == FixedDistribution(5) && |base| == req.totalQuestions == 5
    ensures Distinct(Ids(base)) && |h1| == 1 && |h2| == 1
    ensures forall r :: TwoPlayerOutcome(req, w, h1, h2, base, r) ==> r.Err?
  {
    req := PackRequest("general", FixedDistribution(5), 5, "seed", None, [Some(1), Some(2)], "random_1v1");
    base, h1, h2 := seq(5, i requires 0 <= i < 5 => Question([i as char], "x")), {[0 as char]}, {[1 as char]};
    FewIds(base, h1, [0 as char]);
    FewIds(base, h2, [1 as char]);
    assert base[0].id == [0 as char] && base[1].id == [1 as char] && [0 as char][0] != [1 as char][0];
    forall r | TwoPlayerOutcome(req, w, h1, h2, base, r) ensures r.Err? {
      DifferentSeenFails(req, w, h1, h2, base, r, 0, 1);
    }
  }

  /** Of different questions at most one has a given id. */
  lemma {:induction false} FewIds(qs: seq<Question>, h: set<string>, id: string)
    requires Distinct(Ids(qs)) && h == {id}
    ensures |Seen(qs, h)| <= 1 && (id !in IdSet(qs) ==> Seen(qs, h) == [])
  {
    if qs != [] {
      var n := |qs| - 1;
      Snoc(qs);
      forall i, j | 0 <= i < j < n ensures Ids(qs[..n])[i] != Ids(qs[..n])[j] {
        assert Ids(qs)[i] != Ids(qs)[j];
      }
      FewIds(qs[..n], h, id);
      IdsAppend(qs[..n], qs[n]);
      if qs[n].id == id {
        forall i | 0 <= i < n ensures Ids(qs[..n])[i] != id {
          assert Ids(qs)[i] != Ids(qs)[n];
        }
      }
    }
  }

  lemma MovedBackCounts(base: seq<Question>, history: set<string>, r: seq<Question>)
    requires SeenMovedBack(base, history, r)
    ensures multiset(r) == multiset(base) && |Seen(r, history)| == |Seen(base, history)|
  {
    var front, back := Unseen(base, history), r[|Unseen(base, history)|..];
    assert r == front + back;
    FilterSplits(base, history);
    BackIsSeen(base, history, back);
    FilterMember(base, history, false);
    FilterAll(front, history, false);
    FilterConcat(front, back, history, true);
    EmptyPlus(back);
  }

  lemma BackIsSeen(base: seq<Question>, history: set<string>, back: seq<Question>)
    requires multiset(back) == multiset(Seen(base, history))
    ensures |back| == |Seen(base, history)| && Filter(back, history, true) == back
  {
    FilterMember(base, history, true);
    forall q | q in back ensures q.id in history {
      assert q in multiset(back);
      assert q in Seen(base, history);
    }
    FilterAll(back, history, true);
    SameLength(back, Seen(base, history));
  }

  /** With more than three seen questions, a pack repeats nothing; when every check is answered, neither
      player has seen any of it. */
  lemma ManySeenAllReplaced(req: PackRequest, w: World, h1: set<string>, h2: set<string>, base: seq<Question>,
                            r: Result<seq<Question>>)
    requires |base| == req.totalQuestions && TwoPlayerOutcome(req, w, h1, h2, base, r) && r.Ok?
    requires Max(|Seen(base, h1)|, |Seen(base, h2)|) > 3
    ensures Distinct(Ids(r.value))
    ensures (forall i :: w.recheckReadable(i)) ==> Seen(r.value, h1 + h2) == []
  {
    var seen := h1 + h2;
    var first := Fresh(Unseen(base, seen), {}, |base|);
    FreshFacts(Unseen(base, seen), {}, |base|);
    FilterMember(base, seen, false);
    AddedFacts(req, w, seen, first);
    DistinctConcat(first, Added(req, w, seen, first));
    if forall i :: w.recheckReadable(i) {
      FilterAll(r.value, seen, false);
    }
  }

  lemma DistinctConcat(a: seq<Question>, b: seq<Question>)
    requires Distinct(Ids(a)) && Distinct(Ids(b)) && IdSet(a) !! IdSet(b)
    ensures Distinct(Ids(a + b))
  {
    assert Ids(a + b) == Ids(a) + Ids(b);
    forall i, j | 0 <= i < j < |a + b| ensures Ids(a + b)[i] != Ids(a + b)[j] {
      if i < |a| <= j {
        assert Ids(a)[i] in IdSet(a) && Ids(b)[j - |a|] in IdSet(b);
      }
    }
  }

  /** When every check is answered, at most three questions of a two-player pack were seen by a player. */
  lemma AtMostThreeSeen(req: PackRequest, w: World, h1: set<string>, h2: set<string>, base: seq<Question>,
                        r: Result<seq<Question>>)
    requires |base| == req.totalQuestions && TwoPlayerOutcome(req, w, h1, h2, base, r) && r.Ok?
    requires forall i :: w.recheckReadable(i)
    ensures |Seen(r.value, h1 + h2)| <= 3
  {
    var most := Max(|Seen(base, h1)|, |Seen(base, h2)|);
    if most > 3 {
      ManySeenAllReplaced(req, w, h1, h2, base, r);
    } else if most > 0 {
      FewSeenSucceedsIff(req, w, h1, h2, base, r);
    } else {
      FilterMember(base, h1, true);
      FilterMember(base, h2, true);
      forall q | q in base ensures q.id !in h1 + h2 {
        assert q !in Seen(base, h1) && q !in Seen(base, h2);
      }
      FilterAll(base, h1 + h2, false);
    }
  }

  /** A pack stored in either player's history shares at most three questions with their next pack. */
  lemma NextPackMostlyNew(req: PackRequest, w: World, h1: set<string>, h2: set<string>, base: seq<Question>,
                          r: Result<seq<Question>>, previous: seq<Question>)
    requires |base| == req.totalQuestions && TwoPlayerOutcome(req, w, h1, h2, base, r) && r.Ok?
    requires forall i :: w.recheckReadable(i)
    requires IdSet(previous) <= h1 + h2
    ensures |Seen(r.value, IdSet(previous))| <= 3
  {
    AtMostThreeSeen(req, w, h1, h2, base, r);
    SeenByEither(r.value, IdSet(previous), h1 + h2);
    assert IdSet(previous) + (h1 + h2) == h1 + h2;
  }
}
