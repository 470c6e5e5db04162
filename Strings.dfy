/**
 * String and sequence vocabulary shared by the modules: Python's string
 * comparison, `str.split`, `str.join`, ASCII lower-casing, and the
 * sorted/duplicate-free shape of `sorted(set(...))`.
 * Python strings are modelled as `seq<char>`; comparing two `char`s compares
 * their code points, as Python does.
 */
module Strings {

  import opened Wrappers

  /** Python truthiness of a nullable string column: present and non-empty. */
  predicate Truthy(s: Option<string>)
  {
    s.Some? && s.value != ""
  }

  /** Python's `s.startswith(p)`. */
  predicate StartsWith(s: string, p: string)
  {
    |p| <= |s| && s[..|p|] == p
  }

  // ---------------------------------------------------------------------------
  // Finding a character
  // ---------------------------------------------------------------------------

  /** Index of the first occurrence of `c` in `s` (Python's `s.index(c)`). */
  function IndexOf(s: string, c: char): (i: nat)
    requires c in s
    ensures i < |s| && s[i] == c
    ensures c !in s[..i]
  {
    if s[0] == c then 0
    else
      var j := IndexOf(s[1..], c);
      assert s[..1 + j] == [s[0]] + s[1..][..j];
      1 + j
  }

  /** The text before the first `c`, or all of `s` when `c` does not occur. */
  function BeforeFirst(s: string, c: char): (r: string)
    ensures |r| <= |s| && r == s[..|r|]
    ensures c !in r
    ensures c in s ==> |r| < |s| && s[|r|] == c
    ensures c !in s ==> r == s
  {
    if c in s then s[..IndexOf(s, c)] else s
  }

  /** The text after the first `c` (the second half of Python's `s.split(c, 1)`). */
  function AfterFirst(s: string, c: char): (r: string)
    requires c in s
    ensures s == BeforeFirst(s, c) + [c] + r
  {
    s[IndexOf(s, c) + 1..]
  }

  /** Splitting `p + [c] + rest` at its first `c` gives back `p` and `rest` when `p` holds no `c`. */
  lemma SplitAtSeparator(p: string, c: char, rest: string)
    requires c !in p
    ensures c in p + [c] + rest
    ensures BeforeFirst(p + [c] + rest, c) == p
    ensures AfterFirst(p + [c] + rest, c) == rest
  {
    var s := p + [c] + rest;
    assert s[|p|] == c;
  }

  /** The text after the last `c` (the second half of Python's `s.rsplit(c, 1)`). */
  function AfterLast(s: string, c: char): (r: string)
    requires c in s
    ensures c !in r
    ensures |r| < |s| && s[|s| - |r| - 1] == c && r == s[|s| - |r|..]
    decreases |s|
  {
    var last := s[|s| - 1];
    if last == c then []
    else
      var p := s[..|s| - 1];
      assert s == p + [last];
      var i := IndexOf(s, c);
      assert p[i] == c;
      var q := AfterLast(p, c);
      AfterLastStep(p, last, q, c);
      q + [last]
  }

  /** One step of `AfterLast`: a last character other than `c` extends the suffix after the last `c`. */
  lemma AfterLastStep(p: string, last: char, q: string, c: char)
    requires last != c && c !in q
    requires |q| < |p| && p[|p| - |q| - 1] == c && q == p[|p| - |q|..]
    ensures c !in q + [last]
    ensures |q + [last]| < |p + [last]|
    ensures (p + [last])[|p + [last]| - |q + [last]| - 1] == c
    ensures q + [last] == (p + [last])[|p + [last]| - |q + [last]|..]
  {
    var s, r := p + [last], q + [last];
    assert s[|s| - |r| - 1] == p[|p| - |q| - 1];
    assert s[|s| - |r|..] == p[|p| - |q|..] + [last];
  }

  /** Python's `str(n)` for a natural number: its decimal digits, with no leading zero. */
  function DecimalString(n: nat): (r: string)
    ensures |r| >= 1
    ensures forall k :: 0 <= k < |r| ==> '0' <= r[k] <= '9'
    ensures DigitsValue(r) == n
    ensures n == 0 <==> r[0] == '0'
    ensures r[0] == '0' ==> |r| == 1
  {
    var digit := [(48 + n % 10) as char];
    if n < 10 then digit
    else
      var r := DecimalString(n / 10) + digit;
      assert r[..|r| - 1] == DecimalString(n / 10);
      r
  }

  /** The number a string of decimal digits denotes, most significant digit first. */
  function DigitsValue(s: string): nat
    requires forall k :: 0 <= k < |s| ==> '0' <= s[k] <= '9'
  {
    if s == [] then 0 else DigitsValue(s[..|s| - 1]) * 10 + (s[|s| - 1] as int - 48)
  }

  // ---------------------------------------------------------------------------
  // str.split and str.join on a single-character separator
  // ---------------------------------------------------------------------------

  /** Python's `s.split(c)`: never empty; no piece holds `c`; the pieces joined by `c` give `s` back. */
  function Split(s: string, c: char): (r: seq<string>)
    ensures |r| >= 1
    ensures r[0] == BeforeFirst(s, c)
    ensures forall k :: 0 <= k < |r| ==> c !in r[k]
    ensures Join(r, c) == s
    decreases |s|
  {
    if c !in s then [s]
    else
      var rest := Split(AfterFirst(s, c), c);
      SplitStep(s, c, rest);
      [BeforeFirst(s, c)] + rest
  }

  /** One step of `Split`: the text before the first `c`, then the pieces of the text after it. */
  lemma SplitStep(s: string, c: char, rest: seq<string>)
    requires c in s
    requires |rest| >= 1 && Join(rest, c) == AfterFirst(s, c)
    requires forall k :: 0 <= k < |rest| ==> c !in rest[k]
    ensures forall k :: 0 <= k < |[BeforeFirst(s, c)] + rest| ==> c !in ([BeforeFirst(s, c)] + rest)[k]
    ensures Join([BeforeFirst(s, c)] + rest, c) == s
  {
    var r := [BeforeFirst(s, c)] + rest;
    assert forall k :: 1 <= k < |r| ==> r[k] == rest[k - 1];
    JoinCons(BeforeFirst(s, c), rest, c);
  }

  /** Python's `c.join(parts)` for a one-character separator `c`. */
  function Join(parts: seq<string>, c: char): (r: string)
  {
    if |parts| == 0 then ""
    else if |parts| == 1 then parts[0]
    else parts[0] + [c] + Join(parts[1..], c)
  }

  /** Joining a first part onto at least one more puts a separator between them. */
  lemma JoinCons(p: string, rest: seq<string>, c: char)
    requires |rest| >= 1
    ensures Join([p] + rest, c) == p + [c] + Join(rest, c)
  {
    assert ([p] + rest)[1..] == rest;
  }

  /** Splitting a join gives the parts back when no part holds the separator. */
  lemma {:induction false} SplitJoin(parts: seq<string>, c: char)
    requires |parts| >= 1
    requires forall k :: 0 <= k < |parts| ==> c !in parts[k]
    ensures Split(Join(parts, c), c) == parts
  {
    if |parts| > 1 {
      var rest := Join(parts[1..], c);
      SplitAtSeparator(parts[0], c, rest);
      SplitJoin(parts[1..], c);
      assert Split(parts[0] + [c] + rest, c) == [parts[0]] + Split(rest, c);
    }
  }

  // ---------------------------------------------------------------------------
  // Lower-casing
  // ---------------------------------------------------------------------------

  /** `c` lower-cased when it is an ASCII capital letter, unchanged otherwise. */
  function LowerChar(c: char): (r: char)
    ensures 'A' <= c <= 'Z' ==> r as int == c as int + 32
    ensures !('A' <= c <= 'Z') ==> r == c
  {
    if 'A' <= c <= 'Z' then (c as int + 32) as char else c
  }

  /** Python's `s.lower()` on the ASCII letters. */
  function Lower(s: string): (r: string)
    ensures |r| == |s|
    ensures forall k :: 0 <= k < |s| ==> r[k] == LowerChar(s[k])
  {
    if s == [] then [] else [LowerChar(s[0])] + Lower(s[1..])
  }

  /** Lower-casing twice is lower-casing once. */
  lemma LowerIdempotent(s: string)
    ensures Lower(Lower(s)) == Lower(s)
  {
  }

  // ---------------------------------------------------------------------------
  // Python's ordering of strings
  // ---------------------------------------------------------------------------

  /** `a < b` on Python strings: code point by code point, a proper prefix first. */
  predicate Less(a: string, b: string)
  {
    if |a| == 0 then |b| > 0
    else if |b| == 0 then false
    else if a[0] != b[0] then a[0] < b[0]
    else Less(a[1..], b[1..])
  }

  lemma {:induction false} LessIrreflexive(a: string)
    ensures !Less(a, a)
  {
    if |a| > 0 { LessIrreflexive(a[1..]); }
  }

  lemma {:induction false} LessTransitive(a: string, b: string, c: string)
    requires Less(a, b) && Less(b, c)
    ensures Less(a, c)
  {
    if |a| > 0 && a[0] == b[0] && b[0] == c[0] {
      LessTransitive(a[1..], b[1..], c[1..]);
    }
  }

  lemma {:induction false} LessTotal(a: string, b: string)
    requires a != b
    ensures Less(a, b) || Less(b, a)
  {
    if |a| > 0 && |b| > 0 && a[0] == b[0] {
      assert a == [a[0]] + a[1..] && b == [b[0]] + b[1..];
      LessTotal(a[1..], b[1..]);
    }
  }

  // ---------------------------------------------------------------------------
  // Sorted, duplicate-free sequences: the result of Python's `sorted(set(xs))`
  // ---------------------------------------------------------------------------

  /** Every element comes strictly before every later one. */
  predicate StrictlyAscending(s: seq<string>)
  {
    forall i, j :: 0 <= i < j < |s| ==> Less(s[i], s[j])
  }

  predicate NoDuplicates<T(==)>(s: seq<T>)
  {
    forall i, j :: 0 <= i < j < |s| ==> s[i] != s[j]
  }

  function Elements<T>(s: seq<T>): set<T>
  {
    set x | x in s
  }

  /** Checking neighbours suffices for strict ascent. */
  lemma {:induction false} AdjacentAscending(s: seq<string>)
    requires forall i :: 0 <= i < |s| - 1 ==> Less(s[i], s[i + 1])
    ensures StrictlyAscending(s)
  {
    if |s| > 1 {
      AdjacentAscending(s[1..]);
      forall j | 1 < j < |s| ensures Less(s[0], s[j]) {
        assert s[1..][0] == s[1] && s[1..][j - 1] == s[j];
        LessTransitive(s[0], s[1], s[j]);
      }
      forall i, j | 0 <= i < j < |s| ensures Less(s[i], s[j]) {
        if i > 0 { assert s[1..][i - 1] == s[i] && s[1..][j - 1] == s[j]; }
      }
    }
  }

  lemma AscendingNoDuplicates(s: seq<string>)
    requires StrictlyAscending(s)
    ensures NoDuplicates(s)
  {
    forall i, j | 0 <= i < j < |s| ensures s[i] != s[j] {
      LessIrreflexive(s[i]);
    }
  }

  /** Two strictly ascending sequences with the same elements are equal. */
  lemma {:induction false} AscendingUnique(a: seq<string>, b: seq<string>)
    requires StrictlyAscending(a) && StrictlyAscending(b)
    requires Elements(a) == Elements(b)
    ensures a == b
  {
    EmptyElements(a);
    EmptyElements(b);
    if |a| > 0 && |b| > 0 {
      // the least element of each is the least of the common set
      assert a[0] in Elements(b);
      assert b[0] in Elements(a);
      if a[0] != b[0] {
        var i :| 0 <= i < |a| && a[i] == b[0];
        var j :| 0 <= j < |b| && b[j] == a[0];
        assert i > 0 && j > 0;
        LessTransitive(a[0], b[0], a[0]);
        LessIrreflexive(a[0]);
      }
      AscendingTail(a);
      AscendingTail(b);
      assert Elements(a[1..]) == Elements(b[1..]) by {
        TailElements(a);
        TailElements(b);
      }
      AscendingUnique(a[1..], b[1..]);
      assert a == [a[0]] + a[1..] && b == [b[0]] + b[1..];
    }
  }

  lemma EmptyElements<T>(s: seq<T>)
    ensures Elements(s) == {} <==> s == []
  {
    if s != [] { assert s[0] in Elements(s); }
  }

  lemma AscendingTail(s: seq<string>)
    requires StrictlyAscending(s) && |s| > 0
    ensures StrictlyAscending(s[1..])
  {
    forall i, j | 0 <= i < j < |s| - 1 ensures Less(s[1..][i], s[1..][j]) {
      assert s[1..][i] == s[i + 1] && s[1..][j] == s[j + 1];
    }
  }

  /** In a strictly ascending sequence, the tail holds everything but the head. */
  lemma TailElements(s: seq<string>)
    requires StrictlyAscending(s) && |s| > 0
    ensures Elements(s[1..]) == Elements(s) - {s[0]}
  {
    AscendingNoDuplicates(s);
    forall x | x in Elements(s[1..]) ensures x in Elements(s) - {s[0]} {
      var k :| 0 <= k < |s| - 1 && s[1..][k] == x;
      assert s[k + 1] == x;
    }
    forall x | x in Elements(s) - {s[0]} ensures x in Elements(s[1..]) {
      var k :| 0 <= k < |s| && s[k] == x;
      assert k > 0 && s[1..][k - 1] == x;
    }
  }

  /** Putting a string below every element in front keeps a sequence ascending. */
  lemma ConsAscending(y: string, t: seq<string>)
    requires StrictlyAscending(t)
    requires forall z :: z in Elements(t) ==> Less(y, z)
    ensures StrictlyAscending([y] + t)
    ensures Elements([y] + t) == Elements(t) + {y}
  {
    var r := [y] + t;
    forall i, j | 0 <= i < j < |r| ensures Less(r[i], r[j]) {
      if i == 0 { assert r[j] == t[j - 1] && t[j - 1] in Elements(t); }
      else { assert r[i] == t[i - 1] && r[j] == t[j - 1]; }
    }
    assert Elements(r) == Elements(t) + {y};
  }

  /** Inserting `x` into a sorted, duplicate-free sequence, keeping it so. */
  function Insert(x: string, s: seq<string>): (r: seq<string>)
    requires StrictlyAscending(s)
    ensures StrictlyAscending(r)
    ensures Elements(r) == Elements(s) + {x}
  {
    if s == [] then [x]
    else if x == s[0] then s
    else if Less(x, s[0]) then
      assert forall z :: z in Elements(s) ==> Less(x, z) by {
        forall z | z in Elements(s) ensures Less(x, z) {
          var k :| 0 <= k < |s| && s[k] == z;
          if k > 0 { LessTransitive(x, s[0], s[k]); }
        }
      }
      ConsAscending(x, s);
      [x] + s
    else
      LessTotal(x, s[0]);
      AscendingTail(s);
      TailElements(s);
      var t := Insert(x, s[1..]);
      assert forall z :: z in Elements(t) ==> Less(s[0], z) by {
        forall z | z in Elements(t) ensures Less(s[0], z) {
          if z != x {
            var k :| 0 <= k < |s| - 1 && s[1..][k] == z;
            assert s[k + 1] == z;
          }
        }
      }
      ConsAscending(s[0], t);
      [s[0]] + t
  }

  /** Python's `sorted(set(xs))` for strings. */
  function SortedDistinct(xs: seq<string>): (r: seq<string>)
    ensures StrictlyAscending(r)
    ensures Elements(r) == Elements(xs)
  {
    if xs == [] then []
    else
      var r := Insert(xs[|xs| - 1], SortedDistinct(xs[..|xs| - 1]));
      assert Elements(xs) == Elements(xs[..|xs| - 1]) + {xs[|xs| - 1]} by {
        assert xs == xs[..|xs| - 1] + [xs[|xs| - 1]];
      }
      r
  }

  /** `sorted(set(xs))` is the only strictly ascending sequence of the elements of `xs`. */
  lemma SortedDistinctUnique(xs: seq<string>, s: seq<string>)
    requires StrictlyAscending(s) && Elements(s) == Elements(xs)
    ensures SortedDistinct(xs) == s
  {
    AscendingUnique(SortedDistinct(xs), s);
  }
}
