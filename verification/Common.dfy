/** Types and small facts shared by the models of the quiz backend. */
module Common {

  datatype Option<+T> = None | Some(value: T)

  datatype Result<+T> = Ok(value: T) | Err(message: string)

  /** A user, match, question or queue-token identifier. The source uses UUIDs; only equality matters. */
  type Id = nat

  /** The text form of a UUID: 36 characters, none of them a colon. */
  type Uuid = s: string | |s| == 36 && ':' !in s witness seq(36, _ => '0')

  /** The all-zero UUID, which the question service treats as "no user". */
  const NIL: Id := 0

  function Max(x: int, y: int): int {
    if x >= y then x else y
  }

  function Min(x: int, y: int): int {
    if x <= y then x else y
  }

  /** No value occurs twice. */
  ghost predicate Distinct<T>(s: seq<T>) {
    forall i, j :: 0 <= i < j < |s| ==> s[i] != s[j]
  }

  ghost function Elements<T>(s: seq<T>): set<T> {
    set x | x in s
  }

  /** A duplicate-free list is as long as its set of elements. */
  lemma {:induction false} DistinctCount<T>(s: seq<T>)
    requires Distinct(s)
    ensures |Elements(s)| == |s|
  {
    if s != [] {
      var n := |s| - 1;
      DistinctCount(s[..n]);
      assert s == s[..n] + [s[n]];
      assert Elements(s) == Elements(s[..n]) + {s[n]};
      assert s[n] !in s[..n];
    } else {
      assert Elements(s) == {};
    }
  }

  /** A set inside another is no larger. */
  lemma {:induction false} SubsetCount<T>(a: set<T>, b: set<T>)
    requires a <= b
    ensures |a| <= |b|
    ensures |a| == |b| ==> a == b
    decreases a
  {
    if a != {} {
      var x :| x in a;
      SubsetCount(a - {x}, b - {x});
      assert b == (b - {x}) + {x};
    }
  }
}
