/** The apps page: the filter, sort and paginate pipeline over the stored
    records, and the view state its controls update. */
module Listing {
  import opened Text
  import opened Records

  /** Array.prototype.filter. */
  function Filter<T>(s: seq<T>, p: T -> bool): (r: seq<T>)
    ensures |r| <= |s|
    ensures forall i :: 0 <= i < |r| ==> p(r[i])
  {
    if s == [] then [] else (if p(s[0]) then [s[0]] else []) + Filter(s[1..], p)
  }

  /** filter keeps every element that passes, as often as it occurs, and
      drops every element that fails. */
  lemma {:induction false} FilterCount<T>(s: seq<T>, p: T -> bool)
    ensures forall x :: multiset(Filter(s, p))[x] == if p(x) then multiset(s)[x] else 0
  {
    if s != [] {
      FilterCount(s[1..], p);
      assert s == [s[0]] + s[1..];
    }
  }

  /** The query test: the lower-cased query occurs in the lower-cased name or company. */
  function MatchesQuery(a: App, lowerQuery: string): (b: bool)
    ensures lowerQuery == "" ==> b
    ensures b ==> |lowerQuery| <= |a.appName| || |lowerQuery| <= |a.company|
  {
    Contains(ToLower(a.appName), lowerQuery) || Contains(ToLower(a.company), lowerQuery)
  }

  /** The domain test: strict equality with the selected domain. */
  function InDomain(a: App, domain: string): (b: bool)
    ensures b <==> a.domain == domain
  {
    a.domain == domain
  }

  /** The free/paid test: 'Free' keeps the free records, any other value the rest. */
  function MatchesFree(a: App, free: string): (b: bool)
    ensures free == "Free" ==> (b <==> a.isFree == "Free")
    ensures free != "Free" ==> (b <==> a.isFree != "Free")
  {
    if free == "Free" then a.isFree == "Free" else a.isFree != "Free"
  }

  /** A record survives the three filters of applyFilters; a control left
      empty switches its filter off. */
  function Selected(a: App, q: string, domain: string, free: string): (b: bool)
    ensures q == "" && domain == "" && free == "" ==> b
    ensures b && domain != "" ==> a.domain == domain
    ensures b && free == "Free" ==> a.isFree == "Free"
  {
    && (q != "" ==> MatchesQuery(a, ToLower(q)))
    && (domain != "" ==> InDomain(a, domain))
    && (free != "" ==> MatchesFree(a, free))
  }

  /** The query filter, applied when the query is not empty. */
  function ByQuery(list: seq<App>, q: string): (r: seq<App>)
    ensures forall a :: multiset(r)[a] == if q != "" ==> MatchesQuery(a, ToLower(q)) then multiset(list)[a] else 0
  {
    if q == "" then list
    else
      var lq := ToLower(q);
      FilterCount(list, a => MatchesQuery(a, lq));
      Filter(list, a => MatchesQuery(a, lq))
  }

  /** The domain filter, applied when a domain is selected. */
  function ByDomain(list: seq<App>, domain: string): (r: seq<App>)
    ensures forall a :: multiset(r)[a] == if domain != "" ==> InDomain(a, domain) then multiset(list)[a] else 0
  {
    if domain == "" then list
    else
      FilterCount(list, a => InDomain(a, domain));
      Filter(list, a => InDomain(a, domain))
  }

  /** The free/paid filter, applied when the select is set. */
  function ByFree(list: seq<App>, free: string): (r: seq<App>)
    ensures forall a :: multiset(r)[a] == if free != "" ==> MatchesFree(a, free) then multiset(list)[a] else 0
  {
    if free == "" then list
    else
      FilterCount(list, a => MatchesFree(a, free));
      Filter(list, a => MatchesFree(a, free))
  }

  /** The filtering half of applyFilters: exactly the records that pass all
      three filters, each as often as in the list. */
  function Matching(list: seq<App>, q: string, domain: string, free: string): (r: seq<App>)
    ensures forall a :: multiset(r)[a] == if Selected(a, q, domain, free) then multiset(list)[a] else 0
  {
    ByFree(ByDomain(ByQuery(list, q), domain), free)
  }

  /** The four orders of the sort select. */
  datatype SortMode = NameAsc | NameDesc | CreatedAsc | CreatedDesc

  /** The switch on state.sort: any unknown value falls to the default order. */
  function ModeOf(sort: string): (m: SortMode)
    ensures m == NameAsc <==> sort == "name_asc"
    ensures m == NameDesc <==> sort == "name_desc"
    ensures m == CreatedAsc <==> sort == "createdAt_asc"
    ensures m == CreatedDesc <==> sort != "name_asc" && sort != "name_desc" && sort != "createdAt_asc"
  {
    if sort == "name_asc" then NameAsc
    else if sort == "name_desc" then NameDesc
    else if sort == "createdAt_asc" then CreatedAsc
    else CreatedDesc
  }

  /** `x` may come before `y`: the comparator of the mode returns at most 0.
      Records that tie on the mode's key are in order both ways. */
  function InOrder(m: SortMode, x: App, y: App): (b: bool)
    ensures (m.NameAsc? || m.NameDesc?) && x.appName == y.appName ==> b
    ensures (m.CreatedAsc? || m.CreatedDesc?) && x.createdAt == y.createdAt ==> b
  {
    LexReflexive(x.appName);
    LexReflexive(x.createdAt);
    match m
    case NameAsc => LexLe(x.appName, y.appName)
    case NameDesc => LexLe(y.appName, x.appName)
    case CreatedAsc => LexLe(x.createdAt, y.createdAt)
    case CreatedDesc => LexLe(y.createdAt, x.createdAt)
  }

  lemma InOrderTotal(m: SortMode, x: App, y: App)
    ensures InOrder(m, x, y) || InOrder(m, y, x)
  {
    match m
    case NameAsc => LexTotal(x.appName, y.appName);
    case NameDesc => LexTotal(x.appName, y.appName);
    case CreatedAsc => LexTotal(x.createdAt, y.createdAt);
    case CreatedDesc => LexTotal(x.createdAt, y.createdAt);
  }

  lemma InOrderTransitive(m: SortMode, x: App, y: App, z: App)
    requires InOrder(m, x, y) && InOrder(m, y, z)
    ensures InOrder(m, x, z)
  {
    match m
    case NameAsc => LexTransitive(x.appName, y.appName, z.appName);
    case NameDesc => LexTransitive(z.appName, y.appName, x.appName);
    case CreatedAsc => LexTransitive(x.createdAt, y.createdAt, z.createdAt);
    case CreatedDesc => LexTransitive(z.createdAt, y.createdAt, x.createdAt);
  }

  predicate Sorted(m: SortMode, s: seq<App>) {
    forall i, j :: 0 <= i < j < |s| ==> InOrder(m, s[i], s[j])
  }

  /** Insert `x` after every element that may precede it, as a stable sort
      places a later element. */
  function Insert(m: SortMode, x: App, s: seq<App>): (r: seq<App>)
    ensures multiset(r) == multiset(s) + multiset{x}
  {
    if s == [] then [x]
    else if InOrder(m, s[0], x) then (assert s == [s[0]] + s[1..]; [s[0]] + Insert(m, x, s[1..]))
    else [x] + s
  }

  lemma {:induction false} InsertSorted(m: SortMode, x: App, s: seq<App>)
    requires Sorted(m, s)
    ensures Sorted(m, Insert(m, x, s))
  {
    if s == [] {
    } else if InOrder(m, s[0], x) {
      var rest := Insert(m, x, s[1..]);
      InsertSorted(m, x, s[1..]);
      forall j | 0 <= j < |rest| ensures InOrder(m, s[0], rest[j]) {
        InsertedFrom(m, x, s[1..], j);
        if rest[j] != x {
          var k :| 0 <= k < |s[1..]| && s[1..][k] == rest[j];
          assert s[k + 1] == rest[j];
        }
      }
      PrependSorted(m, s[0], rest);
    } else {
      InOrderTotal(m, s[0], x);
      forall j | 0 <= j < |s| ensures InOrder(m, x, s[j]) {
        if j > 0 {
          InOrderTransitive(m, x, s[0], s[j]);
        }
      }
      PrependSorted(m, x, s);
    }
  }

  /** An element of the inserted sequence is `x` or came from `s`. */
  lemma InsertedFrom(m: SortMode, x: App, s: seq<App>, j: int)
    requires 0 <= j < |Insert(m, x, s)|
    ensures Insert(m, x, s)[j] == x || Insert(m, x, s)[j] in s
  {
    var r := Insert(m, x, s);
    assert r[j] in multiset(r);
  }

  /** An element that may precede every element of a sorted sequence can be put in front. */
  lemma PrependSorted(m: SortMode, x: App, s: seq<App>)
    requires Sorted(m, s)
    requires forall j :: 0 <= j < |s| ==> InOrder(m, x, s[j])
    ensures Sorted(m, [x] + s)
  {
    var r := [x] + s;
    forall i, j | 0 <= i < j < |r| ensures InOrder(m, r[i], r[j]) {
      assert r[j] == s[j - 1];
      if i > 0 {
        assert r[i] == s[i - 1];
      }
    }
  }

  lemma LastSplit<T>(s: seq<T>)
    requires s != []
    ensures multiset(s) == multiset(s[..|s| - 1]) + multiset{s[|s| - 1]}
  {
    assert s == s[..|s| - 1] + [s[|s| - 1]];
  }

  /** Array.prototype.sort with the comparator of mode `m`: a stable
      insertion sort, which the model uses as the reference order. */
  function SortBy(m: SortMode, s: seq<App>): (r: seq<App>)
    ensures multiset(r) == multiset(s)
    ensures Sorted(m, r)
    decreases |s|
  {
    if s == [] then []
    else
      var init := s[..|s| - 1];
      var rest := SortBy(m, init);
      InsertSorted(m, s[|s| - 1], rest);
      LastSplit(s);
      Insert(m, s[|s| - 1], rest)
  }

  /** Index normalisation of Array.prototype.slice: a negative index counts
      from the end, and the result is clamped to the array. */
  function SliceIndex(i: int, len: nat): (r: nat)
    ensures r <= len
  {
    if i < 0 then (if len + i < 0 then 0 else len + i) else if i < len then i else len
  }

  /** Array.prototype.slice(start, end). */
  function Slice<T>(s: seq<T>, start: int, end: int): (r: seq<T>)
    ensures var from, to := SliceIndex(start, |s|), SliceIndex(end, |s|);
      && |r| == (if from < to then to - from else 0)
      && forall k :: 0 <= k < |r| ==> r[k] == s[from + k]
  {
    var from := SliceIndex(start, |s|);
    var to := SliceIndex(end, |s|);
    if from < to then s[from..to] else []
  }

  /** Moving an index on by d moves its normalised position on by at most d. */
  lemma SliceStep(i: int, d: int, len: nat)
    ensures d >= 0 ==> SliceIndex(i + d, len) <= SliceIndex(i, len) + d
  {
  }

  function Min(a: int, b: int): int {
    if a < b then a else b
  }

  /** paginate: page `page` (counted from 1) of `pageSize` items. */
  function Page<T>(s: seq<T>, page: int, pageSize: int): (r: seq<T>)
    ensures |r| <= |s|
    ensures pageSize >= 0 ==> |r| <= pageSize
  {
    var start := (page - 1) * pageSize;
    SliceStep(start, pageSize, |s|);
    Slice(s, start, start + pageSize)
  }

  /** For a page of at least 1 the page is the window starting at
      (page - 1) * pageSize, cut off at the end of the list: at most pageSize
      items, none once the start is at or past the end. */
  lemma PageWindow<T>(s: seq<T>, page: int, pageSize: int)
    requires page >= 1 && pageSize >= 0
    ensures var start := (page - 1) * pageSize;
      && Page(s, page, pageSize) == s[Min(start, |s|)..Min(start + pageSize, |s|)]
      && |Page(s, page, pageSize)| <= pageSize
      && (start >= |s| ==> Page(s, page, pageSize) == [])
  {
    var start := (page - 1) * pageSize;
    StartNonNegative(page - 1, pageSize);
    SliceWindow(s, start, pageSize);
  }

  lemma StartNonNegative(p: int, n: int)
    requires p >= 0 && n >= 0
    ensures p * n >= 0
  {
  }

  /** slice(start, start + n) from a non-negative start. */
  lemma SliceWindow<T>(s: seq<T>, start: int, n: int)
    requires start >= 0 && n >= 0
    ensures Slice(s, start, start + n) == s[Min(start, |s|)..Min(start + n, |s|)]
    ensures |Slice(s, start, start + n)| <= n
  {
  }

  /** Pages 1 to k, one after the other. */
  function Pages<T>(s: seq<T>, k: nat, pageSize: int): seq<T> {
    if k == 0 then [] else Pages(s, k - 1, pageSize) + Page(s, k, pageSize)
  }

  /** The pages tile the list: the first k pages are its first k * pageSize
      items, or all of it. */
  lemma {:induction false} PagesArePrefix<T>(s: seq<T>, k: nat, pageSize: nat)
    ensures Pages(s, k, pageSize) == s[..Min(k * pageSize, |s|)]
  {
    if k > 0 {
      PagesArePrefix(s, k - 1, pageSize);
      PageWindow(s, k, pageSize);
      assert (k - 1) * pageSize + pageSize == k * pageSize;
      PrefixThenWindow(s, Min((k - 1) * pageSize, |s|), Min(k * pageSize, |s|));
    }
  }

  lemma PrefixThenWindow<T>(s: seq<T>, a: int, b: int)
    requires 0 <= a <= b <= |s|
    ensures s[..a] + s[a..b] == s[..b]
  {
  }

  const PageSize: int := 8

  /** The `state` object of the apps page. */
  class ViewState {
    var q: string
    var domain: string
    var free: string
    var sort: string
    var page: int
    var pageSize: int

    /** The page never drops below 1 and the page size never changes. */
    predicate Valid()
      reads this
    {
      page >= 1 && pageSize == PageSize
    }

    constructor ()
      ensures Valid()
      ensures q == "" && domain == "" && free == "" && sort == "createdAt_desc" && page == 1
    {
      q, domain, free, sort := "", "", "", "createdAt_desc";
      page, pageSize := 1, PageSize;
    }

    /** applyFilters: a copy of the list filtered by the three controls, then
        sorted in the selected order. The result holds exactly the records of
        the list that pass every filter, each as often as in the list, in the
        order of the sort mode. */
    function ApplyFilters(list: seq<App>): (r: seq<App>)
      reads this
      ensures forall a :: multiset(r)[a] == if Selected(a, q, domain, free) then multiset(list)[a] else 0
      ensures Sorted(ModeOf(sort), r)
    {
      SortBy(ModeOf(sort), Matching(list, q, domain, free))
    }

    /** paginate over the current page. */
    function Paginate<T>(list: seq<T>): (r: seq<T>)
      reads this
      requires Valid()
      ensures |r| <= pageSize
      ensures r == list[Min((page - 1) * pageSize, |list|)..Min(page * pageSize, |list|)]
    {
      PageWindow(list, page, pageSize);
      assert (page - 1) * pageSize + pageSize == page * pageSize;
      Page(list, page, pageSize)
    }

    /** renderApps on the stored list: the result count, the rows of the
        current page, and whether the empty notice shows. */
    method RenderApps(all: seq<App>) returns (count: nat, rows: seq<App>, empty: bool)
      requires Valid()
      ensures count == |ApplyFilters(all)|
      ensures empty <==> count == 0
      ensures rows == if empty then [] else Paginate(ApplyFilters(all))
      ensures |rows| <= PageSize
    {
      var filtered := ApplyFilters(all);
      count := |filtered|;
      if count == 0 {
        rows, empty := [], true;
        return;
      }
      empty := false;
      rows := Paginate(filtered);
    }

    /** The search box: the trimmed query, back to page 1. */
    method OnQueryInput(value: string)
      requires Valid()
      modifies this
      ensures Valid()
      ensures q == Trim(value) && page == 1
      ensures domain == old(domain) && free == old(free) && sort == old(sort)
    {
      q := Trim(value);
      page := 1;
    }

    /** The domain select, back to page 1. */
    method OnDomainChange(value: string)
      requires Valid()
      modifies this
      ensures Valid()
      ensures domain == value && page == 1
      ensures q == old(q) && free == old(free) && sort == old(sort)
    {
      domain := value;
      page := 1;
    }

    /** The free/paid select, back to page 1. */
    method OnFreeChange(value: string)
      requires Valid()
      modifies this
      ensures Valid()
      ensures free == value && page == 1
      ensures q == old(q) && domain == old(domain) && sort == old(sort)
    {
      free := value;
      page := 1;
    }

    /** The sort select keeps the page. */
    method OnSortChange(value: string)
      requires Valid()
      modifies this
      ensures Valid()
      ensures sort == value && page == old(page)
      ensures q == old(q) && domain == old(domain) && free == old(free)
    {
      sort := value;
    }

    /** The previous-page button: only above page 1 does it move (and redraw). */
    method OnPrev() returns (refreshed: bool)
      requires Valid()
      modifies this
      ensures Valid()
      ensures refreshed <==> old(page) > 1
      ensures page == if old(page) > 1 then old(page) - 1 else old(page)
      ensures q == old(q) && domain == old(domain) && free == old(free) && sort == old(sort)
    {
      refreshed := false;
      if page > 1 {
        page := page - 1;
        refreshed := true;
      }
    }

    /** The next-page button has no upper bound. */
    method OnNext()
      requires Valid()
      modifies this
      ensures Valid()
      ensures page == old(page) + 1
      ensures q == old(q) && domain == old(domain) && free == old(free) && sort == old(sort)
    {
      page := page + 1;
    }
  }
}
