/** `Math.ceil(length / perPage)` pages, and the window `list.slice((page - 1) * perPage, page * perPage)`. */
module Paging {

  function Min(a: int, b: int): int { if a <= b then a else b }

  /** `Math.ceil(n / perPage)`: the fewest pages of `perPage` items that hold `n` items. */
  function Pages(n: nat, perPage: nat): (p: nat)
    requires perPage > 0
    ensures n <= p * perPage
    ensures p == 0 || (p - 1) * perPage < n
  {
    var p := (n + perPage - 1) / perPage;
    assert p * perPage + (n + perPage - 1) % perPage == n + perPage - 1;
    p
  }

  /** `s.slice(start, end)` for non-negative bounds: indices past the end are clamped. */
  function Slice<T>(s: seq<T>, start: nat, end: nat): (r: seq<T>)
    ensures |r| == if start < end && start < |s| then Min(end, |s|) - start else 0
    ensures forall i :: 0 <= i < |r| ==> r[i] == s[start + i]
  {
    if start >= |s| || end <= start then [] else s[start..Min(end, |s|)]
  }

  /** The records shown on page `page` (numbered from 1). */
  function Window<T>(list: seq<T>, page: int, perPage: nat): seq<T>
    requires page >= 1
  {
    Slice(list, (page - 1) * perPage, page * perPage)
  }

  lemma MulMonotonic(a: nat, b: nat, k: nat)
    requires a <= b
    ensures a * k <= b * k
  {
    assert b * k == a * k + (b - a) * k;
  }

  /**
   * Page `page` is `list[(page - 1) * perPage .. min(page * perPage, |list|)]`: at most
   * `perPage` records, the ones at those positions.
   */
  lemma WindowIsSlice<T>(list: seq<T>, page: int, perPage: nat)
    requires page >= 1 && perPage > 0
    ensures (page - 1) * perPage < |list| ==>
      Window(list, page, perPage) == list[(page - 1) * perPage..Min(page * perPage, |list|)]
    ensures |Window(list, page, perPage)| <= perPage
  {
    assert page * perPage == (page - 1) * perPage + perPage;
  }

  /** A page beyond the last one is empty. */
  lemma WindowBeyondLastIsEmpty<T>(list: seq<T>, page: int, perPage: nat)
    requires perPage > 0 && page > Pages(|list|, perPage) && page >= 1
    ensures Window(list, page, perPage) == []
  {
    MulMonotonic(Pages(|list|, perPage), page - 1, perPage);
  }

  /** Pages 1 through `k`, one after the other. */
  function PagesUpTo<T>(list: seq<T>, perPage: nat, k: nat): seq<T> {
    if k == 0 then [] else PagesUpTo(list, perPage, k - 1) + Window(list, k, perPage)
  }

  lemma {:induction false} PagesUpToIsPrefix<T>(list: seq<T>, perPage: nat, k: nat)
    requires perPage > 0
    ensures PagesUpTo(list, perPage, k) == list[..Min(k * perPage, |list|)]
  {
    if k > 0 {
      PagesUpToIsPrefix(list, perPage, k - 1);
      var lo := (k - 1) * perPage;
      assert k * perPage == lo + perPage;
      if lo < |list| {
        assert list[..Min(k * perPage, |list|)] == list[..lo] + list[lo..Min(k * perPage, |list|)];
      } else {
        assert Min(lo, |list|) == |list| == Min(k * perPage, |list|);
      }
    }
  }

  /** Concatenating pages 1 through the page count gives back the whole list. */
  lemma AllPagesGiveList<T>(list: seq<T>, perPage: nat)
    requires perPage > 0
    ensures PagesUpTo(list, perPage, Pages(|list|, perPage)) == list
  {
    PagesUpToIsPrefix(list, perPage, Pages(|list|, perPage));
  }

  /** With five per page and twelve records: three pages, the third holding records 11 and 12, the fourth empty. */
  lemma TwelveRecordsFivePerPage<T>(list: seq<T>)
    requires |list| == 12
    ensures Pages(|list|, 5) == 3
    ensures Window(list, 3, 5) == list[10..12]
    ensures Window(list, 4, 5) == []
  {
  }
}
