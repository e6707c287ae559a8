/** vixen/vixen.py, class `Pager`: a paginator over a list whose `index` and
    `page` properties clamp what is assigned to them and keep each other in step.
    Integer division is Python 2's, which rounds down; for the positive `limit`
    this model requires, Dafny's `/` and `%` agree with it. */
module PagerModel {
  import opened Wrappers

  /** `_get_total_pages`: one page for no data, otherwise `size / limit`, plus
      one when there is a remainder. */
  function TotalPages(size: nat, limit: int): (r: int)
    requires limit > 0
    ensures r >= 1
    ensures size == 0 ==> r == 1
    ensures size > 0 ==> (r - 1) * limit < size <= r * limit
  {
    var n := if size > 0 then size / limit else 1;
    var rem := size % limit;
    assert size == (size / limit) * limit + rem;
    if rem > 0 then n + 1 else n
  }

  /** `min(max(0, index), total - 1)`: -1 when there is no data. */
  function ClampIndex(i: int, size: nat): (r: int)
    ensures size > 0 ==> 0 <= r < size
    ensures size == 0 ==> r == -1
    ensures 0 <= i < size ==> r == i
  {
    var a := if i > 0 then i else 0;
    if a < size - 1 then a else size - 1
  }

  /** `min(max(1, page), total_pages)`. */
  function ClampPage(pg: int, pages: int): (r: int)
    requires pages >= 1
    ensures 1 <= r <= pages
    ensures 1 <= pg <= pages ==> r == pg
  {
    var a := if pg > 1 then pg else 1;
    if a < pages then a else pages
  }

  /** `int(idx / limit) + 1`, the page an index lies on. */
  function PageOf(idx: int, limit: int): int
    requires limit > 0
  {
    idx / limit + 1
  }

  /** The page setter's test for an index that is not on the page starting at
      `base`, as corrected: the page holds `base` up to `base + limit - 1`. */
  predicate OffPage(index: int, base: int, limit: int)
  {
    index < base || index >= base + limit
  }

  /** The same test as vixen/vixen.py writes it, which lets `base + limit`
      through although that is the first index of the next page. */
  predicate OffPageAsWritten(index: int, base: int, limit: int)
  {
    index < base || index > base + limit
  }

  /** An index is on page `p` exactly when `p` is the page it lies on. */
  lemma OnPageIff(idx: int, p: int, limit: int)
    requires limit > 0 && p >= 1
    ensures !OffPage(idx, (p - 1) * limit, limit) <==> PageOf(idx, limit) == p
  {
    var q := idx / limit;
    assert idx == q * limit + idx % limit;
    assert (p - 1) * limit + limit == p * limit;
    if q == p - 1 {
      assert q * limit == (p - 1) * limit;
    } else if q < p - 1 {
      MulMono(q, p - 2, limit);
      assert (p - 2) * limit + limit == (p - 1) * limit;
    } else {
      MulMono(p, q, limit);
    }
  }

  /** With `limit` items per page and the index `p * limit`, the as-written test
      keeps the index although it lies on page `p + 1`, not on page `p`. */
  lemma {:induction false} AsWrittenKeepsNextPageIndex(p: int, limit: int)
    requires limit > 0 && p >= 1
    ensures !OffPageAsWritten(p * limit, (p - 1) * limit, limit)
    ensures PageOf(p * limit, limit) == p + 1
    ensures OffPage(p * limit, (p - 1) * limit, limit)
  {
    assert p * limit == (p - 1) * limit + limit;
    OnPageIff(p * limit, p + 1, limit);
  }

  /** vixen/tests/test_pager.py, test_prev_page: with 10 items and 2 per page,
      four `next_page()` calls leave index 8 on page 5, and `prev_page()` goes
      to page 4, starting at 6. The as-written test keeps index 8, which is not
      on page 4; the corrected one moves the index to 6. */
  lemma PrevPageFromLastPage()
    ensures TotalPages(10, 2) == 5 && PageOf(8, 2) == 5
    ensures !OffPageAsWritten(8, 6, 2) && PageOf(8, 2) != 4
    ensures OffPage(8, 6, 2) && PageOf(6, 2) == 4
  {
  }

  /** The first index of a page that exists lies in the data, on that page. */
  lemma {:induction false} PageStartInData(size: nat, limit: int, p: int)
    requires limit > 0 && size > 0 && 1 <= p <= TotalPages(size, limit)
    ensures 0 <= (p - 1) * limit < size
    ensures PageOf((p - 1) * limit, limit) == p
  {
    var tp := TotalPages(size, limit);
    MulMono(p - 1, tp - 1, limit);
    OnPageIff((p - 1) * limit, p, limit);
  }

  /** Multiplying by a non-negative number keeps the order. */
  lemma MulMono(a: int, b: int, c: int)
    requires a <= b && c >= 0
    ensures a * c <= b * c
  {
    assert b * c - a * c == (b - a) * c;
  }

  /** Every index of the data lies on a page that exists. */
  lemma {:induction false} IndexPageExists(size: nat, limit: int, idx: int)
    requires limit > 0 && 0 <= idx < size
    ensures 1 <= PageOf(idx, limit) <= TotalPages(size, limit)
  {
    var tp := TotalPages(size, limit);
    var q := idx / limit;
    assert q * limit <= idx < tp * limit;
    MulCancel(q, tp, limit);
  }

  /** A strict comparison of two multiples of a positive number carries over to
      the factors. */
  lemma MulCancel(a: int, b: int, c: int)
    requires c > 0 && a * c < b * c
    ensures a < b
  {
    assert (b - a) * c == b * c - a * c;
  }

  /** Python's `s[a:b]`: negative bounds count from the end, and both are
      clamped to the sequence. */
  function Slice<T>(s: seq<T>, a: int, b: int): (r: seq<T>)
    ensures 0 <= a <= b <= |s| ==> r == s[a..b]
    ensures 0 <= a && 0 <= b <= |s| ==> |r| <= if b >= a then b - a else 0
  {
    var lo := if a < 0 then (if a + |s| < 0 then 0 else a + |s|) else (if a > |s| then |s| else a);
    var hi := if b < 0 then (if b + |s| < 0 then 0 else b + |s|) else (if b > |s| then |s| else b);
    if lo < hi then s[lo..hi] else []
  }

  /** Python's `data[i]`: `None` stands for the IndexError. */
  function Item<T>(s: seq<T>, i: int): (r: Option<T>)
    ensures 0 <= i < |s| ==> r == Some(s[i])
    ensures r.None? <==> !(-|s| <= i < |s|)
  {
    if 0 <= i < |s| then Some(s[i])
    else if -|s| <= i < 0 then Some(s[i + |s|])
    else None
  }

  class Pager<T(==)> {
    const limit: int
    var data: seq<T>
    var selected: Option<T>
    /** `_index` and `_page`, read through the `index` and `page` properties. */
    var index: int
    var page: int

    /** `Pager(limit=n)`: `_index` defaults to -1, `_page` to 0, `data` to `[]`. */
    constructor (n: int)
      requires n > 0
      ensures limit == n && data == [] && selected == None && index == -1 && page == 0
      ensures Valid()
    {
      limit, data, selected, index, page := n, [], None, -1, 0;
    }

    /** With data, the index lies in it and the page is the page it lies on. */
    ghost predicate Valid()
      reads this
    {
      limit > 0 && (|data| > 0 ==> 0 <= index < |data| && page == PageOf(index, limit))
    }

    function Total(): nat
      reads this
    {
      |data|
    }

    function Pages(): (r: int)
      requires limit > 0
      reads this
      ensures r >= 1
    {
      TotalPages(|data|, limit)
    }

    /** The `start` property. */
    function Start(): int
      reads this
    {
      (page - 1) * limit
    }

    /** The `rel_index` property. */
    function RelIndex(): int
      reads this
    {
      index - (page - 1) * limit
    }

    /** The `view` property. */
    function View(): (r: seq<T>)
      requires limit > 0
      reads this
      ensures page >= 1 ==> |r| <= limit
    {
      Slice(data, (page - 1) * limit, page * limit)
    }

    /** How many more setter calls assigning `index := i` can lead to. */
    function IndexSteps(i: int): nat
      requires limit > 0
      reads this
    {
      var idx := ClampIndex(i, |data|);
      if idx == index then 0
      else if ClampPage(PageOf(idx, limit), Pages()) == page then 1
      else 3
    }

    /** How many more setter calls assigning `page := pg` can lead to. */
    function PageSteps(pg: int): nat
      requires limit > 0
      reads this
    {
      if ClampPage(pg, Pages()) == page then 0 else 2
    }

    /** `_set_index`: the index is clamped; when it changes, the page follows
        it unless it already shows it. */
    method SetIndex(i: int)
      requires limit > 0
      modifies this
      decreases IndexSteps(i)
      ensures data == old(data) && selected == old(selected)
      ensures var idx := ClampIndex(i, |data|);
        if idx == old(index) then index == old(index) && page == old(page)
        else (index == idx &&
          page == if old(page) == PageOf(idx, limit) then old(page) else ClampPage(PageOf(idx, limit), Pages()))
      ensures old(Valid()) ==> Valid()
    {
      var idx := ClampIndex(i, |data|);
      if idx != index {
        index := idx;
        var desired := PageOf(idx, limit);
        if page != desired {
          if |data| > 0 {
            IndexPageExists(|data|, limit, idx);
            OnPageIff(idx, desired, limit);
          }
          SetPage(desired);
        }
      }
    }

    /** `_set_page`: the page is clamped; when it changes and the index is not
        on the new page, the index moves to the page's first item. */
    method SetPage(pg: int)
      requires limit > 0
      modifies this
      decreases PageSteps(pg)
      ensures data == old(data) && selected == old(selected)
      ensures var p := ClampPage(pg, Pages());
        if p == old(page) then index == old(index) && page == old(page)
        else (page == p &&
          index == if OffPage(old(index), (p - 1) * limit, limit) then ClampIndex((p - 1) * limit, |data|) else old(index))
      ensures old(Valid()) ==> Valid()
    {
      var p := ClampPage(pg, Pages());
      if p != page {
        page := p;
        var base := (p - 1) * limit;
        if |data| > 0 {
          PageStartInData(|data|, limit, p);
          OnPageIff(index, p, limit);
        }
        if OffPage(index, base, limit) {
          SetIndex(base);
        }
      }
    }

    /** `next()`: at the last item the index stays. */
    method Next()
      requires Valid()
      modifies this
      ensures Valid() && data == old(data) && selected == old(selected)
      ensures index == ClampIndex(old(index) + 1, |data|)
    {
      SetIndex(index + 1);
    }

    /** `prev()`: at the first item the index stays. */
    method Prev()
      requires Valid()
      modifies this
      ensures Valid() && data == old(data) && selected == old(selected)
      ensures index == ClampIndex(old(index) - 1, |data|)
    {
      SetIndex(index - 1);
    }

    /** `next_page()`: on the last page nothing moves. */
    method NextPage()
      requires Valid()
      modifies this
      ensures Valid() && data == old(data) && selected == old(selected)
      ensures page == ClampPage(old(page) + 1, Pages())
      ensures |data| > 0 ==>
        index == if page != old(page) && OffPage(old(index), Start(), limit) then Start() else old(index)
    {
      SetPage(page + 1);
      if |data| > 0 {
        PageStartInData(|data|, limit, page);
      }
    }

    /** `prev_page()`: on the first page nothing moves. */
    method PrevPage()
      requires Valid()
      modifies this
      ensures Valid() && data == old(data) && selected == old(selected)
      ensures page == ClampPage(old(page) - 1, Pages())
      ensures |data| > 0 ==>
        index == if page != old(page) && OffPage(old(index), Start(), limit) then Start() else old(index)
    {
      SetPage(page - 1);
      if |data| > 0 {
        PageStartInData(|data|, limit, page);
      }
    }

    /** `_data_changed`, run when `data` is assigned a list that differs from
        the current one: nothing is selected, and the index and page restart. */
    method SetData(d: seq<T>)
      modifies this
      ensures data == d
      ensures d != old(data) ==> selected == None && index == 0 && page == 1
      ensures d == old(data) ==> selected == old(selected) && index == old(index) && page == old(page)
      ensures old(Valid()) ==> Valid()
    {
      if d != data {
        selected, index, page := None, 0, 1;
      }
      data := d;
    }

    /** `select(relindex)`: with `rel` given, the index is set to that offset on
        the current page first. The item is looked up with the index as
        computed, not as clamped; `raised` is the IndexError this can give. */
    method Select(rel: Option<int>) returns (raised: bool)
      requires limit > 0
      modifies this
      ensures data == old(data)
      ensures rel.None? ==> index == old(index) && page == old(page)
      ensures rel.Some? ==> var idx := ClampIndex((old(page) - 1) * limit + rel.value, |data|);
        if idx == old(index) then index == old(index) && page == old(page)
        else (index == idx &&
          page == if old(page) == PageOf(idx, limit) then old(page) else ClampPage(PageOf(idx, limit), Pages()))
      ensures var i := if rel.None? then old(index) else (old(page) - 1) * limit + rel.value;
        if |data| == 0 then selected == None && !raised
        else raised == Item(data, i).None? && selected == if raised then old(selected) else Item(data, i)
      ensures old(Valid()) ==> Valid()
      ensures Valid() && rel.None? && |data| > 0 ==> selected == Some(data[index]) && !raised
      ensures Valid() && rel.Some? && 0 <= (old(page) - 1) * limit + rel.value < |data| ==>
        index == (old(page) - 1) * limit + rel.value && selected == Some(data[index]) && !raised
    {
      var i;
      if rel.None? {
        i := index;
      } else {
        i := (page - 1) * limit + rel.value;
        SetIndex(i);
      }
      if |data| > 0 {
        var item := Item(data, i);
        if item.Some? {
          selected := item;
          raised := false;
        } else {
          raised := true;
        }
      } else {
        selected := None;
        raised := false;
      }
    }
  }

  /** In a valid pager with data, the view is the page's slice of the data and
      the current index is on it, at `rel_index`. */
  lemma {:induction false} ViewHoldsIndex<T>(pg: Pager<T>)
    requires pg.Valid() && |pg.data| > 0
    ensures 1 <= pg.page <= pg.Pages()
    ensures 0 <= pg.Start() < |pg.data|
    ensures pg.View() == pg.data[pg.Start()..if pg.Start() + pg.limit < |pg.data| then pg.Start() + pg.limit else |pg.data|]
    ensures 0 <= pg.RelIndex() < |pg.View()| && pg.View()[pg.RelIndex()] == pg.data[pg.index]
  {
    IndexPageExists(|pg.data|, pg.limit, pg.index);
    PageStartInData(|pg.data|, pg.limit, pg.page);
    OnPageIff(pg.index, pg.page, pg.limit);
    assert pg.page * pg.limit == pg.Start() + pg.limit;
  }

  /** vixen/tests/test_pager.py: 10 items at 2 per page make 5 pages, 11 make 6,
      and no items make 1. */
  lemma PageCounts()
    ensures TotalPages(10, 2) == 5 && TotalPages(11, 2) == 6 && TotalPages(0, 2) == 1
  {
  }

  /** vixen/tests/test_pager.py, test_when_data_is_empty: assigning an empty
      list to a new pager is no change, so the index keeps its default -1, and
      there is one page with nothing selected. */
  method EmptyData() returns (index: int, pages: int, selected: Option<int>)
    ensures index == -1 && pages == 1 && selected == None
  {
    var pg := new Pager<int>(2);
    pg.SetData([]);
    index, pages, selected := pg.index, pg.Pages(), pg.selected;
  }
}
