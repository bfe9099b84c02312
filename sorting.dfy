/**
 * The sort step of the view: `[...list].sort(cmp)` with the comparator that
 * returns `order` when a's key is greater, `-order` when it is smaller and 0
 * otherwise. The sort itself is a library call; it is modelled as a stable
 * insertion sort.
 */
module Sorting {
  import opened Text
  import opened Records

  /** The comparator: `a[value] > b[value]` gives `order`, `a[value] < b[value]` gives `-order`. */
  function Compare(a: Business, b: Business, f: Field, order: int): int {
    if Less(Key(b, f), Key(a, f)) then order
    else if Less(Key(a, f), Key(b, f)) then -order
    else 0
  }

  /** The comparator allows `a` to come before `b`. */
  predicate InOrder(a: Business, b: Business, f: Field, order: int) {
    Compare(a, b, f, order) <= 0
  }

  predicate Sorted(s: seq<Business>, f: Field, order: int) {
    forall i, j :: 0 <= i < j < |s| ==> InOrder(s[i], s[j], f, order)
  }

  /** Swapping the operands negates the comparator. */
  lemma CompareAntisymmetric(a: Business, b: Business, f: Field, order: int)
    ensures Compare(a, b, f, order) == -Compare(b, a, f, order)
  {
    LessAsymmetric(Key(a, f), Key(b, f));
  }

  /** With `order` positive the comparator means "key not greater", with `order` negative "key not smaller". */
  lemma InOrderMeaning(a: Business, b: Business, f: Field, order: int)
    ensures order > 0 ==> (InOrder(a, b, f, order) <==> !Less(Key(b, f), Key(a, f)))
    ensures order < 0 ==> (InOrder(a, b, f, order) <==> !Less(Key(a, f), Key(b, f)))
    ensures order == 0 ==> InOrder(a, b, f, order)
  {
    LessAsymmetric(Key(a, f), Key(b, f));
  }

  lemma InOrderTransitive(a: Business, b: Business, c: Business, f: Field, order: int)
    requires InOrder(a, b, f, order) && InOrder(b, c, f, order)
    ensures InOrder(a, c, f, order)
  {
    var ka, kb, kc := Key(a, f), Key(b, f), Key(c, f);
    InOrderMeaning(a, b, f, order);
    InOrderMeaning(b, c, f, order);
    InOrderMeaning(a, c, f, order);
    LessTotal(ka, kb);
    LessTotal(kb, kc);
    LessAsymmetric(ka, kc);
    if Less(ka, kb) && Less(kb, kc) { LessTransitive(ka, kb, kc); }
    if Less(kb, ka) && Less(kc, kb) { LessTransitive(kc, kb, ka); }
  }

  lemma {:induction false} SortedCons(x: Business, s: seq<Business>, f: Field, order: int)
    requires Sorted(s, f, order)
    requires forall y :: y in s ==> InOrder(x, y, f, order)
    ensures Sorted([x] + s, f, order)
  {
    var r := [x] + s;
    forall i, j | 0 <= i < j < |r| ensures InOrder(r[i], r[j], f, order) {
      if i > 0 { assert r[i] == s[i - 1] && r[j] == s[j - 1]; }
      else { assert r[j] == s[j - 1] && r[j] in s; }
    }
  }

  lemma SortedTail(s: seq<Business>, f: Field, order: int)
    requires s != [] && Sorted(s, f, order)
    ensures Sorted(s[1..], f, order)
  {
    forall i, j | 0 <= i < j < |s[1..]| ensures InOrder(s[1..][i], s[1..][j], f, order) {
      assert s[1..][i] == s[i + 1] && s[1..][j] == s[j + 1];
    }
  }

  /** Putting `x` in front of a sorted list whose head it may precede keeps it sorted. */
  lemma InsertFrontSorted(x: Business, s: seq<Business>, f: Field, order: int)
    requires s != [] && InOrder(x, s[0], f, order)
    ensures Sorted(s, f, order) ==> Sorted([x] + s, f, order)
  {
    if Sorted(s, f, order) {
      forall y | y in s ensures InOrder(x, y, f, order) {
        var k :| 0 <= k < |s| && s[k] == y;
        if k > 0 { InOrderTransitive(x, s[0], y, f, order); }
      }
      SortedCons(x, s, f, order);
    }
  }

  /** Keeping the head of a sorted list in front of the sorted insertion into its tail keeps it sorted. */
  lemma InsertBehindSorted(x: Business, s: seq<Business>, rest: seq<Business>, f: Field, order: int)
    requires s != [] && !InOrder(x, s[0], f, order)
    requires multiset(rest) == multiset(s[1..]) + multiset{x}
    requires Sorted(s[1..], f, order) ==> Sorted(rest, f, order)
    ensures Sorted(s, f, order) ==> Sorted([s[0]] + rest, f, order)
  {
    if Sorted(s, f, order) {
      SortedTail(s, f, order);
      CompareAntisymmetric(x, s[0], f, order);
      forall y | y in rest ensures InOrder(s[0], y, f, order) {
        assert y in multiset(rest);
        if y != x {
          assert y in multiset(s[1..]);
          var k :| 0 <= k < |s[1..]| && s[1..][k] == y;
          assert s[k + 1] == y;
        }
      }
      SortedCons(s[0], rest, f, order);
    }
  }

  lemma ConsPermutation(s: seq<Business>, rest: seq<Business>, x: Business)
    requires s != []
    requires multiset(rest) == multiset(s[1..]) + multiset{x}
    ensures multiset([s[0]] + rest) == multiset(s) + multiset{x}
  {
    assert s == [s[0]] + s[1..];
  }

  /** Inserts `x` before the first element it may precede. */
  function Insert(x: Business, s: seq<Business>, f: Field, order: int): (r: seq<Business>)
    ensures multiset(r) == multiset(s) + multiset{x}
    ensures Sorted(s, f, order) ==> Sorted(r, f, order)
  {
    if s == [] then [x]
    else if InOrder(x, s[0], f, order) then
      InsertFrontSorted(x, s, f, order);
      [x] + s
    else
      var rest := Insert(x, s[1..], f, order);
      InsertBehindSorted(x, s, rest, f, order);
      ConsPermutation(s, rest, x);
      [s[0]] + rest
  }

  /** `[...s].sort(cmp)`: a permutation of `s` that the comparator accepts throughout. */
  function SortBy(s: seq<Business>, f: Field, order: int): (r: seq<Business>)
    ensures multiset(r) == multiset(s)
    ensures Sorted(r, f, order)
  {
    if s == [] then []
    else
      assert s == [s[0]] + s[1..];
      Insert(s[0], SortBy(s[1..], f, order), f, order)
  }

  /**
   * The sorted list is a permutation ordered by the field's key: non-decreasing
   * for `order == 1`, non-increasing for `order == -1`.
   */
  lemma SortByOrdersKeys(s: seq<Business>, f: Field, order: int)
    ensures multiset(SortBy(s, f, order)) == multiset(s)
    ensures order == 1 ==> forall i, j :: 0 <= i < j < |SortBy(s, f, order)| ==>
      !Less(Key(SortBy(s, f, order)[j], f), Key(SortBy(s, f, order)[i], f))
    ensures order == -1 ==> forall i, j :: 0 <= i < j < |SortBy(s, f, order)| ==>
      !Less(Key(SortBy(s, f, order)[i], f), Key(SortBy(s, f, order)[j], f))
  {
    var r := SortBy(s, f, order);
    forall i, j | 0 <= i < j < |r| ensures order == 1 ==> !Less(Key(r[j], f), Key(r[i], f))
      ensures order == -1 ==> !Less(Key(r[i], f), Key(r[j], f))
    {
      InOrderMeaning(r[i], r[j], f, order);
    }
  }

  /** Sorting an already sorted list returns it unchanged. */
  lemma {:induction false} SortBySorted(s: seq<Business>, f: Field, order: int)
    requires Sorted(s, f, order)
    ensures SortBy(s, f, order) == s
  {
    if s != [] {
      var t := s[1..];
      SortedTail(s, f, order);
      SortBySorted(t, f, order);
      if t != [] { assert InOrder(s[0], t[0], f, order); }
      assert s == [s[0]] + t;
    }
  }

  function Reverse(s: seq<Business>): (r: seq<Business>)
    ensures |r| == |s|
    ensures forall i :: 0 <= i < |s| ==> r[i] == s[|s| - 1 - i]
    ensures multiset(r) == multiset(s)
  {
    if s == [] then []
    else
      assert s == [s[0]] + s[1..];
      Reverse(s[1..]) + [s[0]]
  }

  /** Negating `order` reverses the comparator's operands. */
  lemma CompareNegated(a: Business, b: Business, f: Field, order: int)
    ensures Compare(a, b, f, -order) == Compare(b, a, f, order)
  {
    CompareAntisymmetric(a, b, f, order);
  }

  /** Two records that the comparator places either way round have equal keys. */
  lemma BothWaysEqualKeys(a: Business, b: Business, f: Field, order: int)
    requires order != 0
    requires InOrder(a, b, f, order) && InOrder(b, a, f, order)
    ensures Key(a, f) == Key(b, f)
  {
    LessTotal(Key(a, f), Key(b, f));
    LessAsymmetric(Key(a, f), Key(b, f));
  }

  /** Records with equal keys are identical: e.g. no two share a `busId`, or no two were created at the same instant. */
  ghost predicate KeysIdentify(s: seq<Business>, f: Field) {
    forall x, y :: x in s && y in s && Key(x, f) == Key(y, f) ==> x == y
  }

  /** Two sorted permutations of one another start with the same record when keys identify records. */
  lemma SortedPermutationsHead(a: seq<Business>, b: seq<Business>, f: Field, order: int)
    requires order != 0 && a != []
    requires multiset(a) == multiset(b)
    requires Sorted(a, f, order) && Sorted(b, f, order)
    requires KeysIdentify(a, f)
    ensures b != [] && a[0] == b[0]
  {
    assert a[0] in multiset(b);
    var k :| 0 <= k < |b| && b[k] == a[0];
    assert b[0] in multiset(a);
    var m :| 0 <= m < |a| && a[m] == b[0];
    if m > 0 && k > 0 {
      assert InOrder(a[0], a[m], f, order);
      assert InOrder(b[0], b[k], f, order);
      BothWaysEqualKeys(a[0], b[0], f, order);
      assert a[0] in a && b[0] in a;
    }
  }

  /** Dropping a common head keeps two lists permutations of one another. */
  lemma TailsPermutation(a: seq<Business>, b: seq<Business>)
    requires a != [] && b != [] && a[0] == b[0]
    requires multiset(a) == multiset(b)
    ensures multiset(a[1..]) == multiset(b[1..])
  {
    assert a == [a[0]] + a[1..];
    assert b == [b[0]] + b[1..];
    assert multiset(a[1..]) == multiset(a) - multiset{a[0]};
    assert multiset(b[1..]) == multiset(b) - multiset{b[0]};
  }

  lemma KeysIdentifyTail(a: seq<Business>, f: Field)
    requires a != [] && KeysIdentify(a, f)
    ensures KeysIdentify(a[1..], f)
  {
    forall x | x in a[1..] ensures x in a {
      var k :| 0 <= k < |a[1..]| && a[1..][k] == x;
      assert a[k + 1] == x;
    }
  }

  /** Under a non-zero `order`, a sorted permutation is unique when keys identify records. */
  lemma {:induction false} SortedPermutationUnique(a: seq<Business>, b: seq<Business>, f: Field, order: int)
    requires order != 0
    requires multiset(a) == multiset(b)
    requires Sorted(a, f, order) && Sorted(b, f, order)
    requires KeysIdentify(a, f)
    ensures a == b
    decreases |a|
  {
    if a == [] {
      assert |b| == |multiset(b)| == 0;
    } else {
      SortedPermutationsHead(a, b, f, order);
      TailsPermutation(a, b);
      SortedTail(a, f, order);
      SortedTail(b, f, order);
      KeysIdentifyTail(a, f);
      SortedPermutationUnique(a[1..], b[1..], f, order);
    }
  }

  /**
   * Toggling the direction reverses the sorted list when keys identify records
   * (for `createdAt`: when no two records share a timestamp).
   */
  lemma ToggleReverses(s: seq<Business>, f: Field)
    requires KeysIdentify(s, f)
    ensures SortBy(s, f, -1) == Reverse(SortBy(s, f, 1))
  {
    var up := SortBy(s, f, 1);
    var rev := Reverse(up);
    forall i, j | 0 <= i < j < |rev| ensures InOrder(rev[i], rev[j], f, -1) {
      CompareNegated(rev[i], rev[j], f, 1);
    }
    var down := SortBy(s, f, -1);
    assert KeysIdentify(down, f) by {
      forall x | x in down ensures x in s {
        assert x in multiset(down);
      }
    }
    SortedPermutationUnique(down, rev, f, -1);
  }
}
