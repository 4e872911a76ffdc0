/** The random 1v1 queue, internal/match/queue/manager.go. */
module Matchmaking {
  import opened Common

  datatype Player = Player(userId: Id, username: string, isGuest: bool, category: string, queuedAt: int, token: Id)

  datatype Request = Request(userId: Id, username: string, isGuest: bool, category: string)

  datatype Pair = Pair(player1: Player, player2: Player)

  function NormalizeCategory(category: string): string {
    if category == "" then "general" else category
  }

  predicate IsCompatible(p1: Player, p2: Player) {
    NormalizeCategory(p1.category) == NormalizeCategory(p2.category)
  }

  /** The queue with its history: the tokens ever issued, and those that left by a match or a cancel. */
  datatype View = View(waiting: map<Id, Player>, issued: set<Id>, matched: set<Id>, dequeued: set<Id>)

  const EMPTY: View := View(map[], {}, {}, {})

  function NewPlayer(req: Request, token: Id, now: int): Player {
    Player(req.userId, req.username, req.isGuest, req.category, now, token)
  }

  /** Someone else waits in the request's category. */
  ghost predicate HasOpponent(v: View, req: Request) {
    exists t :: t in v.waiting && Opponent(v, req, t)
  }

  ghost predicate Opponent(v: View, req: Request, t: Id)
    requires t in v.waiting
  {
    v.waiting[t].userId != req.userId && NormalizeCategory(v.waiting[t].category) == NormalizeCategory(req.category)
  }

  /** What Enqueue may do: match any opponent (Go's map order decides which), else wait. */
  ghost predicate Enqueued(v: View, req: Request, token: Id, now: int, pair: Option<Pair>, v': View) {
    && v'.issued == v.issued + {token} && v'.dequeued == v.dequeued
    && match pair
       case Some(p) =>
         && p.player1 == NewPlayer(req, token, now)
         && p.player2.token in v.waiting && v.waiting[p.player2.token] == p.player2 && Opponent(v, req, p.player2.token)
         && v'.waiting == v.waiting - {p.player2.token}
         && v'.matched == v.matched + {token, p.player2.token}
       case None =>
         && !HasOpponent(v, req)
         && v'.waiting == v.waiting[token := NewPlayer(req, token, now)]
         && v'.matched == v.matched
  }

  ghost predicate Dequeued(v: View, token: Id, ok: bool, v': View) {
    if token in v.waiting
    then ok && v' == v.(waiting := v.waiting - {token}, dequeued := v.dequeued + {token})
    else !ok && v' == v
  }

  class Manager {
    var waiting: map<Id, Player>
    ghost var issued: set<Id>
    ghost var matched: set<Id>
    ghost var dequeued: set<Id>

    constructor ()
      ensures Look() == EMPTY
    {
      waiting := map[];
      issued, matched, dequeued := {}, {}, {};
    }

    ghost function Look(): View
      reads this
    {
      View(waiting, issued, matched, dequeued)
    }

    /** `token` is the UUID drawn for the call. */
    method Enqueue(req: Request, token: Id, now: int) returns (pair: Option<Pair>)
      requires Inv(Look()) && token !in issued
      modifies this
      ensures Inv(Look()) && Enqueued(old(Look()), req, token, now, pair, Look())
      ensures pair.Some? ==> pair.value.player1.userId != pair.value.player2.userId
                             && IsCompatible(pair.value.player1, pair.value.player2)
    {
      var player := NewPlayer(req, token, now);
      issued := issued + {token};
      var unseen := waiting.Keys;
      while unseen != {}
        invariant unseen <= waiting.Keys
        invariant forall t :: t in waiting && t !in unseen ==> !Opponent(old(Look()), req, t)
        decreases unseen
      {
        var other :| other in unseen;
        unseen := unseen - {other};
        if waiting[other].userId == req.userId {
          continue;
        }
        if IsCompatible(player, waiting[other]) {
          pair := Some(Pair(player, waiting[other]));
          waiting := waiting - {other};
          matched := matched + {token, other};
          EnqueueKeepsInv(old(Look()), req, token, now, pair, Look());
          return;
        }
      }
      waiting := waiting[token := player];
      pair := None;
      EnqueueKeepsInv(old(Look()), req, token, now, pair, Look());
    }

    method Dequeue(token: Id) returns (ok: bool)
      requires Inv(Look())
      modifies this
      ensures Inv(Look()) && Dequeued(old(Look()), token, ok, Look())
    {
      if token !in waiting {
        return false;
      }
      waiting := waiting - {token};
      dequeued := dequeued + {token};
      DequeueKeepsInv(old(Look()), token, true, Look());
      return true;
    }
  }

  // ---------------------------------------------------------------------------------------------
  // The invariant
  // ---------------------------------------------------------------------------------------------

  /** All who wait in one category are one and the same user. */
  ghost predicate OneUserPerCategory(v: View) {
    forall t1, t2 :: t1 in v.waiting && t2 in v.waiting && IsCompatible(v.waiting[t1], v.waiting[t2]) ==>
      v.waiting[t1].userId == v.waiting[t2].userId
  }

  /** Every issued token is in exactly one of waiting, matched and dequeued. */
  ghost predicate TokensPartitioned(v: View) {
    && v.issued == v.waiting.Keys + v.matched + v.dequeued
    && v.waiting.Keys !! v.matched !! v.dequeued
    && (forall t :: t in v.waiting ==> v.waiting[t].token == t)
  }

  ghost predicate Inv(v: View) {
    OneUserPerCategory(v) && TokensPartitioned(v)
  }

  lemma EnqueueKeepsInv(v: View, req: Request, token: Id, now: int, pair: Option<Pair>, v': View)
    requires Inv(v) && token !in v.issued && Enqueued(v, req, token, now, pair, v')
    ensures Inv(v')
  {
    if pair.None? {
      forall t | t in v.waiting && IsCompatible(v.waiting[t], v'.waiting[token])
        ensures v.waiting[t].userId == req.userId
      {
        assert !Opponent(v, req, t);
      }
    }
  }

  lemma DequeueKeepsInv(v: View, token: Id, ok: bool, v': View)
    requires Inv(v) && Dequeued(v, token, ok, v')
    ensures Inv(v')
  {
  }

  datatype Event =
    | EnqueueEvent(req: Request, token: Id, now: int, pair: Option<Pair>)
    | DequeueEvent(token: Id, ok: bool)

  ghost predicate Next(v: View, e: Event, v': View) {
    match e
    case EnqueueEvent(req, token, now, pair) => token !in v.issued && Enqueued(v, req, token, now, pair, v')
    case DequeueEvent(token, ok) => Dequeued(v, token, ok, v')
  }

  ghost predicate Run(vs: seq<View>, es: seq<Event>) {
    && |vs| == |es| + 1 && vs[0] == EMPTY
    && forall i :: 0 <= i < |es| ==> Next(vs[i], es[i], vs[i + 1])
  }

  lemma {:induction false} InvHolds(vs: seq<View>, es: seq<Event>)
    requires Run(vs, es)
    ensures Inv(vs[|es|])
    decreases |es|
  {
    if es != [] {
      var n := |es| - 1;
      InvHolds(vs[..n + 1], es[..n]);
      match es[n]
      case EnqueueEvent(req, token, now, pair) => EnqueueKeepsInv(vs[n], req, token, now, pair, vs[n + 1]);
      case DequeueEvent(token, ok) => DequeueKeepsInv(vs[n], token, ok, vs[n + 1]);
    }
  }

  /** In every reachable queue the opponent's user is the same whatever order the map is walked in:
      any two outcomes of the same call agree on whether there is a match and on who it is. */
  lemma OpponentDetermined(vs: seq<View>, es: seq<Event>, req: Request, token: Id, now: int,
                           pair1: Option<Pair>, v1: View, pair2: Option<Pair>, v2: View)
    requires Run(vs, es) && token !in vs[|es|].issued
    requires Enqueued(vs[|es|], req, token, now, pair1, v1) && Enqueued(vs[|es|], req, token, now, pair2, v2)
    ensures pair1.Some? <==> pair2.Some?
    ensures pair1.Some? ==> pair1.value.player2.userId == pair2.value.player2.userId
    ensures pair1.None? ==> v1 == v2
  {
    InvHolds(vs, es);
  }

  /** Every token ever issued is waiting, matched or dequeued, and in just one of the three. */
  lemma TokensAccountedFor(vs: seq<View>, es: seq<Event>, t: Id)
    requires Run(vs, es) && t in vs[|es|].issued
    ensures var v := vs[|es|];
            var places := (if t in v.waiting then 1 else 0) + (if t in v.matched then 1 else 0)
                          + (if t in v.dequeued then 1 else 0);
            places == 1
  {
    InvHolds(vs, es);
  }

  /** The two category names mean the same: equal, or one of them left empty and the other "general". */
  predicate SameCategory(c1: string, c2: string) {
    c1 == c2 || (c1 == "" && c2 == "general") || (c1 == "general" && c2 == "")
  }

  lemma SameName(c1: string, c2: string)
    ensures NormalizeCategory(c1) == NormalizeCategory(c2) <==> SameCategory(c1, c2)
  {
  }

  /** Whoever waits was put there by an earlier call that found nobody, with that call's data. */
  lemma {:induction false} WaitingCameFrom(vs: seq<View>, es: seq<Event>, t: Id) returns (j: nat)
    requires Run(vs, es) && t in vs[|es|].waiting
    ensures j < |es| && es[j].EnqueueEvent? && es[j].token == t && es[j].pair.None?
    ensures var req := es[j].req;
            vs[|es|].waiting[t] == Player(req.userId, req.username, req.isGuest, req.category, es[j].now, t)
    decreases |es|
  {
    var n := |es| - 1;
    if t in vs[n].waiting && vs[n].waiting[t] == vs[n + 1].waiting[t] {
      j := WaitingCameFrom(vs[..n + 1], es[..n], t);
    } else {
      j := n;
    }
  }

  /** A match pairs the caller with another user who asked earlier for the same category, each with the data of
      their own call. */
  lemma MatchPairs(vs: seq<View>, es: seq<Event>, i: nat) returns (j: nat)
    requires Run(vs, es) && i < |es| && es[i].EnqueueEvent? && es[i].pair.Some?
    ensures j < i && es[j].EnqueueEvent? && es[j].pair.None?
    ensures var caller, other, p := es[i].req, es[j].req, es[i].pair.value;
            && p.player1 == Player(caller.userId, caller.username, caller.isGuest, caller.category, es[i].now,
                                   es[i].token)
            && p.player2 == Player(other.userId, other.username, other.isGuest, other.category, es[j].now, es[j].token)
            && caller.userId != other.userId && SameCategory(caller.category, other.category)
  {
    var vs', es', other := vs[..i + 1], es[..i], es[i].pair.value.player2.token;
    assert Next(vs[i], es[i], vs[i + 1]) && vs'[|es'|] == vs[i];
    assert Opponent(vs[i], es[i].req, other);
    j := WaitingCameFrom(vs', es', other);
    assert es'[j] == es[j];
    SameName(es[i].req.category, es[j].req.category);
  }

  /** A cancel succeeds exactly for tokens that were issued and not matched or cancelled before. */
  lemma DequeueSucceedsIff(vs: seq<View>, es: seq<Event>, token: Id, ok: bool, v': View)
    requires Run(vs, es) && Dequeued(vs[|es|], token, ok, v')
    ensures var v := vs[|es|];
            ok <==> token in v.issued && token !in v.matched && token !in v.dequeued
  {
    InvHolds(vs, es);
  }

  /** After any run a newcomer waits only for want of anyone else in the category: no two users are
      ever left waiting for each other. */
  lemma NoMissedMatch(vs: seq<View>, es: seq<Event>, t1: Id, t2: Id)
    requires Run(vs, es)
    requires var w := vs[|es|].waiting; t1 in w && t2 in w && w[t1].userId != w[t2].userId
    ensures var w := vs[|es|].waiting; !SameCategory(w[t1].category, w[t2].category)
  {
    InvHolds(vs, es);
  }
}
