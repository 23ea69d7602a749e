/** Building blocks shared by the rest of the model: optional values, decimal
    numerals, duplicate-free sequences, sorted views of sets and a stable
    insertion sort. */
module Common {

  datatype Option<+T> = None | Some(value: T)

  // ------------------------------------------------------------------
  // Decimal numerals: Python's str(n) for n >= 0 and JavaScript's parseInt
  // applied to a run of digits.
  // ------------------------------------------------------------------

  predicate IsDigit(c: char) { '0' <= c <= '9' }

  predicate AllDigits(s: string) { forall i :: 0 <= i < |s| ==> IsDigit(s[i]) }

  function DigitValue(c: char): (d: nat)
    requires IsDigit(c)
    ensures d < 10
  {
    c as int - '0' as int
  }

  function DigitChar(d: nat): (c: char)
    requires d < 10
    ensures IsDigit(c) && DigitValue(c) == d
  {
    ('0' as int + d) as char
  }

  /** The decimal numeral of n, without leading zeros. */
  function NatToDecimal(n: nat): (s: string)
    ensures |s| >= 1 && AllDigits(s)
    ensures n < 10 <==> |s| == 1
    decreases n
  {
    if n < 10 then [DigitChar(n)] else NatToDecimal(n / 10) + [DigitChar(n % 10)]
  }

  /** The value of a string of digits read in base 10. */
  function DecimalValue(s: string): nat
    requires AllDigits(s)
  {
    if s == [] then 0 else 10 * DecimalValue(s[..|s| - 1]) + DigitValue(s[|s| - 1])
  }

  /** Reading back a numeral gives the number it was written from. */
  lemma {:induction false} DecimalRoundTrip(n: nat)
    ensures DecimalValue(NatToDecimal(n)) == n
  {
    if n >= 10 {
      var s := NatToDecimal(n);
      assert s[..|s| - 1] == NatToDecimal(n / 10);
      DecimalRoundTrip(n / 10);
    }
  }

  /** Distinct numbers have distinct numerals. */
  lemma {:induction false} DecimalInjective(a: nat, b: nat)
    ensures NatToDecimal(a) == NatToDecimal(b) ==> a == b
  {
    DecimalRoundTrip(a);
    DecimalRoundTrip(b);
  }

  // ------------------------------------------------------------------
  // Duplicate-free sequences
  // ------------------------------------------------------------------

  predicate Distinct<T(==)>(s: seq<T>) {
    forall i, j :: 0 <= i < j < |s| ==> s[i] != s[j]
  }

  function Elements<T>(s: seq<T>): set<T> { set x | x in s }

  /** A sequence has as many different elements as entries exactly when no
      entry is repeated; otherwise it has fewer. */
  lemma {:induction false} ElementsCount<T>(s: seq<T>)
    ensures |Elements(s)| <= |s|
    ensures |Elements(s)| == |s| <==> Distinct(s)
  {
    if s != [] {
      var t := s[1..];
      ElementsCount(t);
      assert Elements(s) == {s[0]} + Elements(t) by {
        forall x ensures x in Elements(s) <==> x in {s[0]} + Elements(t) {
          if x in s && x != s[0] {
            var k :| 0 <= k < |s| && s[k] == x;
            assert t[k - 1] == x;
          }
        }
      }
      if s[0] in t {
        var k :| 0 <= k < |t| && t[k] == s[0];
        assert s[0] == s[k + 1];
        assert !Distinct(s);
        assert Elements(s) == Elements(t);
      } else {
        assert Distinct(s) <==> Distinct(t) by {
          if Distinct(t) {
            forall i, j | 0 <= i < j < |s| ensures s[i] != s[j] {
              if i > 0 { assert s[i] == t[i - 1] && s[j] == t[j - 1]; }
              else { assert s[j] == t[j - 1]; }
            }
          }
          if Distinct(s) {
            forall i, j | 0 <= i < j < |t| ensures t[i] != t[j] {
              assert t[i] == s[i + 1] && t[j] == s[j + 1];
            }
          }
        }
      }
    }
  }

  // ------------------------------------------------------------------
  // Sorted views
  // ------------------------------------------------------------------

  /** A set that is not empty has an element. */
  lemma {:induction false} NonEmptyHasElement(s: set<int>)
    requires s != {}
    ensures exists z :: z in s
  {
    assert (forall z :: z !in s) ==> s == {};
  }

  lemma {:induction false} HasMinimum(s: set<int>)
    requires s != {}
    ensures exists m :: m in s && forall y :: y in s ==> m <= y
    decreases |s|
  {
    NonEmptyHasElement(s);
    var x :| x in s;
    var rest := s - {x};
    assert forall y :: y in s ==> y == x || y in rest;
    if rest != {} {
      HasMinimum(rest);
      var m :| m in rest && forall y :: y in rest ==> m <= y;
      var least := if x < m then x else m;
      assert least in s && forall y :: y in s ==> least <= y;
    }
  }

  function Minimum(s: set<int>): (m: int)
    requires s != {}
    ensures m in s && forall y :: y in s ==> m <= y
  {
    HasMinimum(s);
    var m :| m in s && forall y :: y in s ==> m <= y;
    m
  }

  /** The elements of a finite set of integers in ascending order (the order
      in which JavaScript enumerates the integer keys of an object, and the
      order a database returns rows by their integer key). */
  function SortedElements(s: set<int>): (r: seq<int>)
    ensures |r| == |s|
    ensures forall x :: x in s <==> x in r
    decreases |s|
  {
    if s == {} then []
    else
      var m := Minimum(s);
      var rest := SortedElements(s - {m});
      [m] + rest
  }

  lemma {:induction false} SortedElementsAscending(s: set<int>)
    ensures forall i, j :: 0 <= i < j < |SortedElements(s)| ==> SortedElements(s)[i] < SortedElements(s)[j]
    decreases |s|
  {
    if s != {} {
      var m := Minimum(s);
      var rest := SortedElements(s - {m});
      SortedElementsAscending(s - {m});
      assert SortedElements(s) == [m] + rest;
      assert forall k :: 0 <= k < |rest| ==> rest[k] in s - {m};
    }
  }

  ghost predicate TotalPreorder<T(!new)>(le: (T, T) -> bool) {
    (forall a, b :: le(a, b) || le(b, a)) &&
    (forall a, b, c :: le(a, b) && le(b, c) ==> le(a, c))
  }

  predicate SortedBy<T>(s: seq<T>, le: (T, T) -> bool) {
    forall i, j :: 0 <= i < j < |s| ==> le(s[i], s[j])
  }

  /** Inserts x before the first entry it is not after. */
  function Insert<T>(x: T, s: seq<T>, le: (T, T) -> bool): (r: seq<T>)
    ensures |r| == |s| + 1
    ensures multiset(r) == multiset(s) + multiset{x}
  {
    if s == [] || le(x, s[0]) then [x] + s
    else
      assert s == [s[0]] + s[1..];
      [s[0]] + Insert(x, s[1..], le)
  }

  /** A stable sort (JavaScript's Array.prototype.sort and Python's list.sort
      are both stable). */
  function SortBy<T>(s: seq<T>, le: (T, T) -> bool): (r: seq<T>)
    ensures |r| == |s|
    ensures multiset(r) == multiset(s)
  {
    if s == [] then []
    else
      assert s == [s[0]] + s[1..];
      Insert(s[0], SortBy(s[1..], le), le)
  }

  lemma {:induction false} InsertSorted<T(!new)>(x: T, s: seq<T>, le: (T, T) -> bool)
    requires TotalPreorder(le)
    requires SortedBy(s, le)
    ensures SortedBy(Insert(x, s, le), le)
  {
    if s != [] && !le(x, s[0]) {
      InsertSorted(x, s[1..], le);
      var r := Insert(x, s[1..], le);
      assert multiset(r) == multiset(s[1..]) + multiset{x};
      forall k | 0 <= k < |r| ensures le(s[0], r[k]) {
        assert r[k] in multiset(r);
        if r[k] == x {
        } else {
          assert r[k] in multiset(s[1..]);
          var j :| 0 <= j < |s[1..]| && s[1..][j] == r[k];
          assert s[j + 1] == r[k];
        }
      }
    }
  }

  /** SortBy yields a sequence ordered by le whenever le is a total preorder. */
  lemma {:induction false} SortBySorted<T(!new)>(s: seq<T>, le: (T, T) -> bool)
    requires TotalPreorder(le)
    ensures SortedBy(SortBy(s, le), le)
  {
    if s != [] {
      SortBySorted(s[1..], le);
      InsertSorted(s[0], SortBy(s[1..], le), le);
    }
  }

  /** Where Insert puts x: before the first entry it is ordered before. */
  function InsertIndex<T>(x: T, s: seq<T>, le: (T, T) -> bool): (m: nat)
    ensures m <= |s|
    ensures forall k :: 0 <= k < m ==> !le(x, s[k])
    ensures m < |s| ==> le(x, s[m])
  {
    if s == [] || le(x, s[0]) then 0 else 1 + InsertIndex(x, s[1..], le)
  }

  /** Entry k of Insert: from the sequence before InsertIndex, x at it,
      and the sequence shifted by one after it. */
  lemma {:induction false} InsertEntry<T>(x: T, s: seq<T>, le: (T, T) -> bool, k: nat)
    requires k <= |s|
    ensures k < InsertIndex(x, s, le) ==> Insert(x, s, le)[k] == s[k]
    ensures k == InsertIndex(x, s, le) ==> Insert(x, s, le)[k] == x
    ensures k > InsertIndex(x, s, le) ==> Insert(x, s, le)[k] == s[k - 1]
  {
    if s != [] && !le(x, s[0]) && k > 0 {
      InsertEntry(x, s[1..], le, k - 1);
    }
  }

  /** An x not already in s lands at InsertIndex, before every other entry
      it is ordered before. */
  lemma {:induction false} InsertHeadFirst<T>(x: T, s: seq<T>, le: (T, T) -> bool, p: nat, q: nat)
    requires x !in s
    requires p <= |s| && q <= |s| && Insert(x, s, le)[p] == x
    requires Insert(x, s, le)[q] != x && le(x, Insert(x, s, le)[q])
    ensures p < q
  {
    InsertEntry(x, s, le, p);
    InsertEntry(x, s, le, q);
  }

  /** Entries of Insert other than x come from s, at p' and q', in the same
      relative order. */
  lemma {:induction false} InsertKeepsOrder<T>(x: T, s: seq<T>, le: (T, T) -> bool, p: nat, q: nat)
    returns (p': nat, q': nat)
    requires p <= |s| && q <= |s|
    requires Insert(x, s, le)[p] != x && Insert(x, s, le)[q] != x
    ensures p' < |s| && q' < |s| && s[p'] == Insert(x, s, le)[p] && s[q'] == Insert(x, s, le)[q]
    ensures p' < q' <==> p < q
  {
    InsertEntry(x, s, le, p);
    InsertEntry(x, s, le, q);
    var m := InsertIndex(x, s, le);
    p', q' := (if p < m then p else p - 1), (if q < m then q else q - 1);
  }

  /** SortBy is stable: when s[i] comes before s[j] and is ordered no later
      than it, s[i] stays before s[j]. Equal keys thus keep their order. */
  lemma {:induction false} SortByStable<T>(s: seq<T>, le: (T, T) -> bool, i: nat, j: nat, p: nat, q: nat)
    requires Distinct(s)
    requires i < |s| && j < |s| && p < |SortBy(s, le)| && q < |SortBy(s, le)|
    requires SortBy(s, le)[p] == s[i] && SortBy(s, le)[q] == s[j]
    ensures i < j && le(s[i], s[j]) ==> p < q
  {
    if i < j && le(s[i], s[j]) {
      var x, rest := s[0], s[1..];
      var t := SortBy(rest, le);
      assert s == [x] + rest;
      assert SortBy(s, le) == Insert(x, t, le);
      assert s[j] == rest[j - 1] && s[j] != x;
      if i == 0 {
        assert x !in t by {
          assert forall k :: 0 <= k < |rest| ==> rest[k] == s[k + 1];
          assert x !in rest;
          assert x !in multiset(rest);
        }
        InsertHeadFirst(x, t, le, p, q);
      } else {
        assert s[i] == rest[i - 1] && s[i] != x;
        var p', q' := InsertKeepsOrder(x, t, le, p, q);
        assert t[p'] == rest[i - 1] && t[q'] == rest[j - 1];
        assert Distinct(rest) by {
          assert forall a, b :: 0 <= a < b < |rest| ==> rest[a] == s[a + 1] && rest[b] == s[b + 1];
        }
        SortByStable(rest, le, i - 1, j - 1, p', q');
      }
    }
  }

  /** Sorting keeps a list free of repeats. */
  lemma {:induction false} SortByDistinct<T>(s: seq<T>, le: (T, T) -> bool)
    requires Distinct(s)
    ensures Distinct(SortBy(s, le))
  {
    var r := SortBy(s, le);
    assert Elements(r) == Elements(s) by {
      assert forall x :: x in r <==> x in multiset(r);
      assert forall x :: x in s <==> x in multiset(s);
    }
    ElementsCount(s);
    ElementsCount(r);
  }

  /** Two entries of a sorted list free of repeats whose keys tie stand in
      the list's original order: they come from s[i] and s[j] with i < j. */
  lemma {:induction false} SortByTieOrigins<T>(s: seq<T>, le: (T, T) -> bool, p: nat, q: nat)
    returns (i: nat, j: nat)
    requires Distinct(s)
    requires p < q < |SortBy(s, le)| && le(SortBy(s, le)[q], SortBy(s, le)[p])
    ensures i < j < |s| && s[i] == SortBy(s, le)[p] && s[j] == SortBy(s, le)[q]
  {
    var r := SortBy(s, le);
    SortByDistinct(s, le);
    assert r[p] in multiset(s) && r[q] in multiset(s) by {
      assert r[p] in multiset(r) && r[q] in multiset(r);
    }
    i :| 0 <= i < |s| && s[i] == r[p];
    j :| 0 <= j < |s| && s[j] == r[q];
    SortByStable(s, le, j, i, q, p);
  }

  // ------------------------------------------------------------------
  // Lexicographic order on strings, by character code
  // ------------------------------------------------------------------

  predicate LexLe(a: string, b: string) {
    if a == [] then true
    else if b == [] then false
    else if a[0] != b[0] then a[0] < b[0]
    else LexLe(a[1..], b[1..])
  }

  /** Two labels each ordered before the other are the same label. */
  lemma {:induction false} LexAntisymmetric(a: string, b: string)
    requires LexLe(a, b) && LexLe(b, a)
    ensures a == b
  {
    if a != [] && b != [] {
      LexAntisymmetric(a[1..], b[1..]);
      assert a == [a[0]] + a[1..] && b == [b[0]] + b[1..];
    }
  }

  lemma {:induction false} LexTotal(a: string, b: string)
    ensures LexLe(a, b) || LexLe(b, a)
  {
    if a != [] && b != [] && a[0] == b[0] { LexTotal(a[1..], b[1..]); }
  }

  lemma {:induction false} LexTransitive(a: string, b: string, c: string)
    requires LexLe(a, b) && LexLe(b, c)
    ensures LexLe(a, c)
  {
    if a != [] && b != [] && c != [] && a[0] == b[0] && b[0] == c[0] {
      LexTransitive(a[1..], b[1..], c[1..]);
    }
  }
}
