/** The question-pack cache, internal/question/cache.go: its key, and what the key determines. */
module PackCache {
  import opened Common
  import opened Text
  import opened MatchRecords

  datatype PackRequest = PackRequest(
    category: string,
    difficultyCounts: map<string, int>,
    totalQuestions: nat,
    seed: string,
    userId: Option<Id>,
    userIds: seq<Option<Id>>,
    matchMode: string)

  /** "name:count" */
  function Part(name: string, count: int): string {
    name + ":" + Decimal(count)
  }

  ghost function Parts(counts: map<string, int>): set<string> {
    set d | d in counts :: Part(d, counts[d])
  }

  function KeyString(req: PackRequest, parts: seq<string>): string {
    "questionpack" + ":" + req.category + ":" + req.seed + ":" + Decimal(req.totalQuestions) + ":" + Join(parts, "|")
  }

  ghost predicate IsKey(req: PackRequest, key: string) {
    exists parts ::
      StrictlySorted(parts) && Elements(parts) == Parts(req.difficultyCounts) && key == KeyString(req, parts)
  }

  lemma ExampleParts(counts: map<string, int>)
    requires counts == map["hard" := 1, "easy" := 2]
    ensures StrictlySorted(["easy:2", "hard:1"]) && Elements(["easy:2", "hard:1"]) == Parts(counts)
  {
    var parts := ["easy:2", "hard:1"];
    ExampleTexts();
    assert parts[0] == "easy:2" && parts[1] == "hard:1" && "easy:2"[0] < "hard:1"[0];
    assert Part("easy", counts["easy"]) in Parts(counts) && Part("hard", counts["hard"]) in Parts(counts);
  }

  lemma ExampleTexts()
    ensures Part("easy", 2) == "easy:2" && Part("hard", 1) == "hard:1" && Decimal(3) == "3"
    ensures Join(["easy:2", "hard:1"], "|") == "easy:2|hard:1"
  {
    assert Join(["easy:2"], "|") == "easy:2";
    assert ["easy:2", "hard:1"][..1] == ["easy:2"] && ["easy:2", "hard:1"][1..] == ["hard:1"];
    assert Join(["hard:1"], "|") == "hard:1";
  }

  /** The key of a request for two easy questions and a hard one, spelled out. */
  lemma KeyExample(req: PackRequest)
    requires req.totalQuestions == 3 && req.difficultyCounts == map["hard" := 1, "easy" := 2]
    ensures IsKey(req, "questionpack:" + req.category + ":" + req.seed + ":3:easy:2|hard:1")
  {
    ExampleParts(req.difficultyCounts);
    ExampleTexts();
    var parts := ["easy:2", "hard:1"];
    Spelled(req.category, req.seed, "easy:2|hard:1");
    assert KeyString(req, parts) == "questionpack:" + req.category + ":" + req.seed + ":3:easy:2|hard:1";
  }

  lemma Spelled(category: string, seed: string, parts: string)
    ensures "questionpack" + ":" + category + ":" + seed + ":" + "3" + ":" + parts
            == "questionpack:" + category + ":" + seed + ":3:" + parts
  {
  }

  lemma PartInjective(n1: string, c1: int, n2: string, c2: int)
    requires Part(n1, c1) == Part(n2, c2)
    ensures n1 == n2 && c1 == c2
  {
    assert Part(n1, c1) == n1 + [':'] + Decimal(c1);
    assert Part(n2, c2) == n2 + [':'] + Decimal(c2);
    LastDelimiter(n1, ':', Decimal(c1), n2, ':', Decimal(c2), {':'});
    DecimalInjective(c1, c2);
  }

  class Cache {
    var client: map<string, seq<Question>>

    constructor ()
      ensures client == map[]
    {
      client := map[];
    }

    /** The map is walked in an arbitrary order. */
    method KeyOf(req: PackRequest) returns (key: string)
      ensures IsKey(req, key)
    {
      var diffParts: seq<string> := [];
      var left := req.difficultyCounts.Keys;
      while left != {}
        invariant left <= req.difficultyCounts.Keys
        invariant Distinct(diffParts)
        invariant Elements(diffParts)
                  == set d | d in req.difficultyCounts && d !in left :: Part(d, req.difficultyCounts[d])
        decreases left
      {
        var d :| d in left;
        var part := Part(d, req.difficultyCounts[d]);
        assert part !in diffParts by {
          if part in diffParts {
            assert part in Elements(diffParts);
            var e :| e in req.difficultyCounts && e !in left && Part(e, req.difficultyCounts[e]) == part;
            PartInjective(e, req.difficultyCounts[e], d, req.difficultyCounts[d]);
          }
        }
        ghost var was := diffParts;
        diffParts := diffParts + [part];
        left := left - {d};
        assert Elements(diffParts) == Elements(was) + {part};
      }
      var sorted := SortStrings(diffParts);
      key := KeyString(req, sorted);
    }

    /** `readable` is whether Redis answers; an error counts as a miss for the caller. */
    method Get(req: PackRequest, readable: bool) returns (r: Option<seq<Question>>)
      ensures exists key :: IsKey(req, key) && r == if readable && key in client then Some(client[key]) else None
    {
      var key := KeyOf(req);
      if !readable || key !in client {
        return None;
      }
      return Some(client[key]);
    }

    method Set(req: PackRequest, pack: seq<Question>, writable: bool)
      modifies this
      ensures exists key :: IsKey(req, key) && client == if writable then old(client)[key := pack] else old(client)
    {
      var k := KeyOf(req);
      if writable {
        client := client[k := pack];
      }
    }
  }

  // ---------------------------------------------------------------------------------------------
  // What a key determines
  // ---------------------------------------------------------------------------------------------

  /** The key does not depend on the order in which the map was walked. */
  lemma KeyUnique(req: PackRequest, k1: string, k2: string)
    requires IsKey(req, k1) && IsKey(req, k2)
    ensures k1 == k2
  {
    var p1 :| StrictlySorted(p1) && Elements(p1) == Parts(req.difficultyCounts) && k1 == KeyString(req, p1);
    var p2 :| StrictlySorted(p2) && Elements(p2) == Parts(req.difficultyCounts) && k2 == KeyString(req, p2);
    SortedUnique(p1, p2);
  }

  ghost predicate DelimiterFree(name: string) {
    ':' !in name && '|' !in name
  }

  /** Difficulty names are free of the key's delimiters, as "easy", "medium" and "hard" are. */
  ghost predicate NamesOk(req: PackRequest) {
    forall d :: d in req.difficultyCounts ==> DelimiterFree(d)
  }

  ghost predicate IsPart(s: string) {
    exists name, count :: DelimiterFree(name) && s == Part(name, count)
  }

  ghost predicate ArePartsOf(parts: seq<string>) {
    forall i :: 0 <= i < |parts| ==> IsPart(parts[i])
  }

  lemma Assoc(a: string, c: char, n: string, v: string)
    ensures a + [c] + (n + ":" + v) == (a + [c] + n) + [':'] + v
  {
  }

  lemma CutNamed(a: string, c: char, n1: string, v1: string, b: string, d: char, n2: string, v2: string)
    requires a + [c] + (n1 + ":" + v1) == b + [d] + (n2 + ":" + v2)
    requires (c == ':' || c == '|') && (d == ':' || d == '|')
    requires DelimiterFree(n1) && DelimiterFree(n2) && ':' !in v1 && ':' !in v2
    ensures a == b && c == d && n1 == n2 && v1 == v2
  {
    Assoc(a, c, n1, v1);
    Assoc(b, d, n2, v2);
    LastDelimiter(a + [c] + n1, ':', v1, b + [d] + n2, ':', v2, {':'});
    LastDelimiter(a, c, n1, b, d, n2, {':', '|'});
  }

  /** A part at the end of a string, after a delimiter, can be cut off in one way only. */
  lemma CutPart(a: string, c: char, p: string, b: string, d: char, q: string)
    requires a + [c] + p == b + [d] + q
    requires (c == ':' || c == '|') && (d == ':' || d == '|') && IsPart(p) && IsPart(q)
    ensures a == b && c == d && p == q
  {
    var n1, c1 :| DelimiterFree(n1) && p == Part(n1, c1);
    var n2, c2 :| DelimiterFree(n2) && q == Part(n2, c2);
    CutNamed(a, c, n1, Decimal(c1), b, d, n2, Decimal(c2));
  }

  lemma LastOf(a: string, b: string)
    requires b != ""
    ensures a + b != "" && (a + b)[|a + b| - 1] == b[|b| - 1]
  {
  }

  /** A joined list is empty or ends in a digit. */
  lemma JoinEnd(parts: seq<string>)
    requires ArePartsOf(parts)
    ensures var j := Join(parts, "|"); if parts == [] then j == "" else j != "" && j[|j| - 1] != ':'
  {
    if parts != [] {
      var last := parts[|parts| - 1];
      var name, count :| DelimiterFree(name) && last == Part(name, count);
      LastOf(name + ":", Decimal(count));
      LastOf(JoinFront(parts, "|"), last);
    }
  }

  /** What follows the last ':' of the prefix in a key is one joined list only. */
  lemma {:induction false} CutParts(a: string, ps: seq<string>, b: string, qs: seq<string>)
    requires ArePartsOf(ps) && ArePartsOf(qs)
    requires a + [':'] + Join(ps, "|") == b + [':'] + Join(qs, "|")
    ensures a == b && ps == qs
    decreases |ps|
  {
    if ps == [] || qs == [] {
      CutEmpty(a, ps, b, qs);
    } else {
      CutLast(a, ps, b, qs);
      if |ps| > 1 {
        CutParts(a, ps[..|ps| - 1], b, qs[..|qs| - 1]);
      }
      SameEnds(ps, qs);
    }
  }

  lemma SameEnds<T>(ps: seq<T>, qs: seq<T>)
    requires ps != [] && qs != [] && ps[|ps| - 1] == qs[|qs| - 1]
    requires if |ps| > 1 then ps[..|ps| - 1] == qs[..|qs| - 1] else |qs| == 1
    ensures ps == qs
  {
    assert ps == ps[..|ps| - 1] + [ps[|ps| - 1]] && qs == qs[..|qs| - 1] + [qs[|qs| - 1]];
  }

  lemma CutEmpty(a: string, ps: seq<string>, b: string, qs: seq<string>)
    requires ArePartsOf(ps) && ArePartsOf(qs) && (ps == [] || qs == [])
    requires a + [':'] + Join(ps, "|") == b + [':'] + Join(qs, "|")
    ensures a == b && ps == qs
  {
    JoinEnd(ps);
    JoinEnd(qs);
    EndsAgree(a, Join(ps, "|"), b, Join(qs, "|"));
  }

  lemma EndsAgree(a: string, j: string, b: string, k: string)
    requires a + [':'] + j == b + [':'] + k && (j == "" || k == "")
    requires j != "" ==> j[|j| - 1] != ':'
    requires k != "" ==> k[|k| - 1] != ':'
    ensures a == b && j == k
  {
    EndOf(a, j);
    EndOf(b, k);
    var s, t := a + [':'] + j, b + [':'] + k;
    assert a == s[..|s| - 1] && b == t[..|t| - 1];
  }

  lemma EndOf(a: string, j: string)
    requires j != "" ==> j[|j| - 1] != ':'
    ensures var s := a + [':'] + j; s[|s| - 1] == ':' <==> j == ""
  {
    if j != "" {
      LastOf(a + [':'], j);
    }
  }

  lemma CutLast(a: string, ps: seq<string>, b: string, qs: seq<string>)
    requires ps != [] && qs != [] && ArePartsOf(ps) && ArePartsOf(qs)
    requires a + [':'] + Join(ps, "|") == b + [':'] + Join(qs, "|")
    ensures ps[|ps| - 1] == qs[|qs| - 1] && (|ps| == 1 <==> |qs| == 1)
    ensures |ps| == 1 ==> a == b
    ensures |ps| > 1 ==> a + [':'] + Join(ps[..|ps| - 1], "|") == b + [':'] + Join(qs[..|qs| - 1], "|")
  {
    var a', c := Before(a, ps);
    var b', d := Before(b, qs);
    CutPart(a', c, ps[|ps| - 1], b', d, qs[|qs| - 1]);
  }

  /** The text before the last part, and the delimiter in front of it. */
  lemma Before(a: string, ps: seq<string>) returns (a': string, c: char)
    requires ps != []
    ensures a + [':'] + Join(ps, "|") == a' + [c] + ps[|ps| - 1]
    ensures if |ps| == 1 then c == ':' && a' == a
            else c == '|' && a' == a + [':'] + Join(ps[..|ps| - 1], "|")
  {
    if |ps| == 1 {
      a', c := a, ':';
    } else {
      var front, last := Join(ps[..|ps| - 1], "|"), ps[|ps| - 1];
      a', c := a + [':'] + front, '|';
      Regroup(a + [':'], front, "|", last);
    }
  }

  lemma Regroup(x: string, y: string, z: string, w: string)
    ensures x + (y + z + w) == x + y + z + w
  {
  }

  lemma PartsAre(req: PackRequest, parts: seq<string>)
    requires NamesOk(req) && Elements(parts) == Parts(req.difficultyCounts)
    ensures ArePartsOf(parts)
  {
    forall i | 0 <= i < |parts| ensures IsPart(parts[i]) {
      assert parts[i] in Elements(parts);
    }
  }

  lemma PartsDetermineCounts(m1: map<string, int>, m2: map<string, int>)
    requires Parts(m1) == Parts(m2)
    ensures m1 == m2
  {
    forall d | d in m1 ensures d in m2 && m2[d] == m1[d] {
      assert Part(d, m1[d]) in Parts(m2);
      var e :| e in m2 && Part(e, m2[e]) == Part(d, m1[d]);
      PartInjective(e, m2[e], d, m1[d]);
    }
    forall d | d in m2 ensures d in m1 {
      assert Part(d, m2[d]) in Parts(m1);
      var e :| e in m1 && Part(e, m1[e]) == Part(d, m2[d]);
      PartInjective(e, m1[e], d, m2[d]);
    }
  }

  /** The one part of a request that a key does not tell apart further. */
  function CategoryAndSeed(req: PackRequest): string {
    req.category + ":" + req.seed
  }

  ghost predicate SameKeyed(r1: PackRequest, r2: PackRequest) {
    && r1.totalQuestions == r2.totalQuestions && r1.difficultyCounts == r2.difficultyCounts
    && CategoryAndSeed(r1) == CategoryAndSeed(r2)
  }

  /** Keys are equal exactly when the totals, the difficulty counts and the joined category and seed are. */
  lemma KeyDetermines(r1: PackRequest, r2: PackRequest, k1: string, k2: string)
    requires IsKey(r1, k1) && IsKey(r2, k2) && NamesOk(r1) && NamesOk(r2)
    ensures k1 == k2 <==> SameKeyed(r1, r2)
  {
    var p1 :| StrictlySorted(p1) && Elements(p1) == Parts(r1.difficultyCounts) && k1 == KeyString(r1, p1);
    var p2 :| StrictlySorted(p2) && Elements(p2) == Parts(r2.difficultyCounts) && k2 == KeyString(r2, p2);
    KeyShape(r1, p1);
    KeyShape(r2, p2);
    if k1 == k2 {
      PartsAre(r1, p1);
      PartsAre(r2, p2);
      var t1, t2 := Decimal(r1.totalQuestions), Decimal(r2.totalQuestions);
      var x1, x2 := HEAD + CategoryAndSeed(r1), HEAD + CategoryAndSeed(r2);
      CutParts(x1 + [':'] + t1, p1, x2 + [':'] + t2, p2);
      LastDelimiter(x1, ':', t1, x2, ':', t2, {':'});
      DecimalInjective(r1.totalQuestions, r2.totalQuestions);
      PartsDetermineCounts(r1.difficultyCounts, r2.difficultyCounts);
      AfterHead(CategoryAndSeed(r1), CategoryAndSeed(r2));
    } else if SameKeyed(r1, r2) {
      SortedUnique(p1, p2);
    }
  }

  const HEAD: string := "questionpack:"

  lemma KeyShape(req: PackRequest, parts: seq<string>)
    ensures KeyString(req, parts)
            == HEAD + CategoryAndSeed(req) + [':'] + Decimal(req.totalQuestions) + [':'] + Join(parts, "|")
  {
    assert "questionpack" + ":" + req.category + ":" + req.seed == HEAD + CategoryAndSeed(req);
  }

  lemma AfterHead(x: string, y: string)
    requires HEAD + x == HEAD + y
    ensures x == y
  {
    assert x == (HEAD + x)[|HEAD|..] && y == (HEAD + y)[|HEAD|..];
  }

  /** With seeds free of colons, keys tell all of category, seed, total and counts, whatever clients put
      into the category. */
  lemma SeedsSuffice(r1: PackRequest, r2: PackRequest, k1: string, k2: string)
    requires IsKey(r1, k1) && IsKey(r2, k2) && NamesOk(r1) && NamesOk(r2)
    requires ':' !in r1.seed && ':' !in r2.seed
    ensures k1 == k2 <==>
            && r1.totalQuestions == r2.totalQuestions && r1.difficultyCounts == r2.difficultyCounts
            && r1.category == r2.category && r1.seed == r2.seed
  {
    KeyDetermines(r1, r2, k1, k2);
    if CategoryAndSeed(r1) == CategoryAndSeed(r2) {
      LastDelimiter(r1.category, ':', r1.seed, r2.category, ':', r2.seed, {':'});
    }
  }

  /** The seed of a created match: its id and the time in seconds. */
  function SeedHash(matchId: Uuid, unix: nat): string {
    matchId + "-" + Decimal(unix)
  }

  lemma SeedHashTellsMatches(m1: Uuid, u1: nat, m2: Uuid, u2: nat)
    ensures ':' !in SeedHash(m1, u1)
    ensures SeedHash(m1, u1) == SeedHash(m2, u2) <==> m1 == m2 && u1 == u2
  {
    if SeedHash(m1, u1) == SeedHash(m2, u2) {
      var s1, s2 := SeedHash(m1, u1), SeedHash(m2, u2);
      assert s1[..36] == m1 && s2[..36] == m2;
      assert s1[37..] == Decimal(u1) && s2[37..] == Decimal(u2);
      DecimalInjective(u1, u2);
    }
  }

  /** Two matches never share a cached pack, whatever categories their clients ask for. */
  lemma MatchesNeverShareKeys(r1: PackRequest, m1: Uuid, u1: nat, r2: PackRequest, m2: Uuid, u2: nat, k1: string,
                              k2: string)
    requires IsKey(r1, k1) && IsKey(r2, k2) && NamesOk(r1) && NamesOk(r2)
    requires r1.seed == SeedHash(m1, u1) && r2.seed == SeedHash(m2, u2) && m1 != m2
    ensures k1 != k2
  {
    SeedHashTellsMatches(m1, u1, m2, u2);
    SeedHashTellsMatches(m2, u2, m2, u2);
    SeedsSuffice(r1, r2, k1, k2);
  }

  /** A colon in a seed, which no created match has, is what would let categories and seeds collide. */
  lemma ColonsCollide() returns (r1: PackRequest, r2: PackRequest, key: string)
    ensures IsKey(r1, key) && IsKey(r2, key) && NamesOk(r1) && NamesOk(r2)
    ensures r1.category != r2.category && r1.seed != r2.seed && ':' !in r1.seed
  {
    r1 := PackRequest("a:b", map[], 5, "c", None, [], "");
    r2 := PackRequest("a", map[], 5, "b:c", None, [], "");
    key := KeyString(r1, []);
    assert "a:b" + ":" + "c" == "a" + ":" + "b:c";
    assert KeyString(r2, []) == key;
    assert Elements<string>([]) == {} == Parts(map[]);
    assert StrictlySorted([]);
  }

  /** The condition on difficulty names is needed: a colon in one makes requests for five and for six
      questions collide. */
  lemma NamesCollide() returns (r1: PackRequest, r2: PackRequest, key: string)
    ensures IsKey(r1, key) && IsKey(r2, key) && r1.totalQuestions == 5 && r2.totalQuestions == 6
  {
    r1 := PackRequest("c", map["6:a" := 1], 5, "s", None, [], "");
    r2 := PackRequest("c", map["a" := 1], 6, "s:5", None, [], "");
    var p1, p2 := [Part("6:a", 1)], [Part("a", 1)];
    key := KeyString(r1, p1);
    OnePart("6:a", 1);
    OnePart("a", 1);
    KeyShape(r1, p1);
    KeyShape(r2, p2);
    assert Decimal(5) == "5" && Decimal(6) == "6";
    assert CategoryAndSeed(r2) == CategoryAndSeed(r1) + ":" + "5" && "6:a" == "6" + ":" + "a";
    Regrouped(HEAD, CategoryAndSeed(r1), "5", "6", "a", Decimal(1));
  }

  lemma Regrouped(h: string, s: string, f: string, x: string, a: string, v: string)
    ensures h + s + [':'] + f + [':'] + (x + ":" + a + ":" + v) == h + (s + ":" + f) + [':'] + x + [':'] + (a + ":" + v)
  {
  }

  lemma OnePart(name: string, count: int)
    ensures StrictlySorted([Part(name, count)]) && Join([Part(name, count)], "|") == Part(name, count)
    ensures Elements([Part(name, count)]) == Parts(map[name := count])
  {
    var m := map[name := count];
    assert name in m && Part(name, m[name]) in Parts(m);
    assert forall p :: p in Parts(m) ==> p == Part(name, count);
    assert Elements([Part(name, count)]) == {Part(name, count)};
  }
}
