/** Strings as the cache key uses them: decimal numbers, byte order, joining, and splitting at a last
    delimiter. */
module Text {
  import opened Common

  // ---------------------------------------------------------------------------------------------
  // Decimal numbers (fmt.Sprint of an int)
  // ---------------------------------------------------------------------------------------------

  const DIGITS: string := "0123456789"

  function DecimalNat(n: nat): (s: string)
    ensures s != [] && forall i :: 0 <= i < |s| ==> s[i] in DIGITS
  {
    if n < 10 then [DIGITS[n]] else DecimalNat(n / 10) + [DIGITS[n % 10]]
  }

  function Decimal(i: int): (s: string)
    ensures s != [] && ':' !in s && '|' !in s && s[|s| - 1] in DIGITS
  {
    if i < 0 then "-" + DecimalNat(-i) else DecimalNat(i)
  }

  lemma {:induction false} DecimalNatInjective(m: nat, n: nat)
    requires DecimalNat(m) == DecimalNat(n)
    ensures m == n
  {
    var a, b := DecimalNat(m), DecimalNat(n);
    assert a[|a| - 1] == DIGITS[m % 10] && b[|b| - 1] == DIGITS[n % 10];
    assert m % 10 == n % 10;
    assert (m < 10 <==> |a| == 1) && (n < 10 <==> |b| == 1);
    if m >= 10 && n >= 10 {
      assert a[..|a| - 1] == DecimalNat(m / 10) && b[..|b| - 1] == DecimalNat(n / 10);
      DecimalNatInjective(m / 10, n / 10);
    }
  }

  lemma SignShows(i: int)
    ensures Decimal(i)[0] == '-' <==> i < 0
    ensures i < 0 ==> Decimal(i)[1..] == DecimalNat(-i)
  {
    if i >= 0 {
      assert DecimalNat(i)[0] in DIGITS;
    }
  }

  lemma DecimalInjective(i: int, j: int)
    requires Decimal(i) == Decimal(j)
    ensures i == j
  {
    SignShows(i);
    SignShows(j);
    if i < 0 {
      DecimalNatInjective(-i, -j);
    } else {
      DecimalNatInjective(i, j);
    }
  }

  /** The number that a string of digits stands for. */
  function ReadNat(s: string): int {
    if s == [] then 0 else 10 * ReadNat(s[..|s| - 1]) + (s[|s| - 1] as int - '0' as int)
  }

  function Read(s: string): int {
    if s != [] && s[0] == '-' then -ReadNat(s[1..]) else ReadNat(s)
  }

  lemma DigitReads(d: nat)
    requires d < 10
    ensures DIGITS[d] as int - '0' as int == d
  {
  }

  lemma {:induction false} DecimalNatReads(n: nat)
    ensures ReadNat(DecimalNat(n)) == n
  {
    var s := DecimalNat(n);
    if n < 10 {
      DigitReads(n);
      assert s[..0] == [] && ReadNat([]) == 0;
    } else {
      DigitReads(n % 10);
      DecimalNatReads(n / 10);
      assert s[..|s| - 1] == DecimalNat(n / 10);
    }
  }

  /** The printed form of an integer stands for it. */
  lemma DecimalReads(i: int)
    ensures Read(Decimal(i)) == i
  {
    SignShows(i);
    DecimalNatReads(if i < 0 then -i else i);
  }

  // ---------------------------------------------------------------------------------------------
  // Byte order and sorting (sort.Strings)
  // ---------------------------------------------------------------------------------------------

  predicate Less(a: string, b: string) {
    b != [] && (a == [] || a[0] < b[0] || (a[0] == b[0] && Less(a[1..], b[1..])))
  }

  lemma {:induction false} LessTotal(a: string, b: string)
    ensures a == b || Less(a, b) || Less(b, a)
    ensures !(Less(a, b) && Less(b, a)) && !Less(a, a)
  {
    if a != [] && b != [] {
      LessTotal(a[1..], b[1..]);
      assert a == [a[0]] + a[1..] && b == [b[0]] + b[1..];
    }
    if a != [] {
      LessTotal(a[1..], a[1..]);
    }
  }

  lemma {:induction false} LessTransitive(a: string, b: string, c: string)
    requires Less(a, b) && Less(b, c)
    ensures Less(a, c)
  {
    if a != [] && a[0] == b[0] == c[0] {
      LessTransitive(a[1..], b[1..], c[1..]);
    }
  }

  ghost predicate StrictlySorted(s: seq<string>) {
    forall i, j :: 0 <= i < j < |s| ==> Less(s[i], s[j])
  }

  /** sort.Strings on a list without repetitions, by insertion. */
  method SortStrings(s: seq<string>) returns (r: seq<string>)
    requires Distinct(s)
    ensures StrictlySorted(r) && Elements(r) == Elements(s)
  {
    r := [];
    for i := 0 to |s|
      invariant StrictlySorted(r) && Elements(r) == Elements(s[..i])
    {
      assert s[i] !in s[..i] by {
        assert forall j :: 0 <= j < i ==> s[..i][j] == s[j];
      }
      assert s[i] !in r by { assert forall x :: x in r ==> x in Elements(r); }
      assert s[..i + 1] == s[..i] + [s[i]];
      ghost var was := r;
      r := Insert(r, s[i]);
      assert Elements(r) == Elements(was) + {s[i]};
    }
    assert s[..|s|] == s;
  }

  method Insert(s: seq<string>, x: string) returns (r: seq<string>)
    requires StrictlySorted(s) && x !in s
    ensures StrictlySorted(r) && Elements(r) == Elements(s) + {x}
  {
    var i := 0;
    while i < |s| && Less(s[i], x)
      invariant i <= |s| && forall j :: 0 <= j < i ==> Less(s[j], x)
    {
      i := i + 1;
    }
    r := s[..i] + [x] + s[i..];
    forall j | i <= j < |s| ensures Less(x, s[j]) {
      LessTotal(s[i], x);
      if j > i {
        LessTransitive(x, s[i], s[j]);
      }
    }
    assert s == s[..i] + s[i..];
  }

  /** A set of strings has one sorted listing. */
  lemma {:induction false} SortedUnique(a: seq<string>, b: seq<string>)
    requires StrictlySorted(a) && StrictlySorted(b) && Elements(a) == Elements(b)
    ensures a == b
  {
    NoElements(a);
    NoElements(b);
    if a != [] {
      assert a[0] in Elements(b) && b[0] in Elements(a);
      FirstIsLeast(a, b[0]);
      FirstIsLeast(b, a[0]);
      LessTotal(a[0], b[0]);
      assert a[0] == b[0];
      TailElements(a);
      TailElements(b);
      SortedUnique(a[1..], b[1..]);
    }
  }

  lemma NoElements<T>(s: seq<T>)
    ensures s == [] <==> Elements(s) == {}
  {
    if s != [] {
      assert s[0] in Elements(s);
    }
  }

  lemma FirstIsLeast(a: seq<string>, x: string)
    requires a != [] && StrictlySorted(a) && x in a
    ensures x == a[0] || Less(a[0], x)
  {
  }

  lemma TailElements(a: seq<string>)
    requires a != [] && StrictlySorted(a)
    ensures Elements(a[1..]) == Elements(a) - {a[0]}
  {
    assert a == [a[0]] + a[1..];
    forall i | 0 <= i < |a[1..]| ensures a[1..][i] != a[0] {
      assert Less(a[0], a[i + 1]);
      LessTotal(a[0], a[0]);
    }
  }

  // ---------------------------------------------------------------------------------------------
  // Joining and splitting
  // ---------------------------------------------------------------------------------------------

  function Join(parts: seq<string>, sep: string): string
    decreases |parts|, 1
  {
    if parts == [] then "" else JoinFront(parts, sep) + parts[|parts| - 1]
  }

  /** What stands before the last of the joined parts. */
  function JoinFront(parts: seq<string>, sep: string): string
    requires parts != []
    decreases |parts|, 0
  {
    if |parts| == 1 then "" else Join(parts[..|parts| - 1], sep) + sep
  }

  /** Nothing after the last delimiter is a delimiter. */
  lemma AfterLast(a: string, c: char, x: string, delims: set<char>)
    requires forall i :: 0 <= i < |x| ==> x[i] !in delims
    ensures var s := a + [c] + x; s[|a|] == c && forall i :: |a| < i < |s| ==> s[i] !in delims
  {
    var s := a + [c] + x;
    forall i | |a| < i < |s| ensures s[i] !in delims {
      assert s[i] == x[i - |a| - 1];
    }
  }

  /** Two ways to cut one string at a last delimiter are the same way. */
  lemma LastDelimiter(a: string, c: char, x: string, b: string, d: char, y: string, delims: set<char>)
    requires a + [c] + x == b + [d] + y
    requires c in delims && d in delims
    requires forall i :: 0 <= i < |x| ==> x[i] !in delims
    requires forall i :: 0 <= i < |y| ==> y[i] !in delims
    ensures a == b && c == d && x == y
  {
    AfterLast(a, c, x, delims);
    AfterLast(b, d, y, delims);
    var s := a + [c] + x;
    assert |a| == |b|;
    assert a == s[..|a|] && b == s[..|b|] && x == s[|a| + 1..] && y == s[|b| + 1..];
  }
}
