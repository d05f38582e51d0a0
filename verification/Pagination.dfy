/** Paginated listings: the request parameters and links of core/web/api.go, and the slices of
    core/chains/orm_immutable.go. */
module Pagination {
  import opened Wrappers
  import opened DecimalDigits

  const PAGINATION_DEFAULT := 25
  const MAX_INT := 0x7fff_ffff_ffff_ffff
  const TWO_64 := 0x1_0000_0000_0000_0000

  const NEXT := "next"
  const PREV := "prev"

  /** What 64-bit arithmetic keeps of n. */
  function Wrap(n: int): (r: int)
    ensures -MAX_INT - 1 <= r <= MAX_INT
  {
    (n + MAX_INT + 1) % TWO_64 - MAX_INT - 1
  }

  /** Which multiple of 2^64 is lost. */
  lemma WrapNear(n: int)
    ensures -MAX_INT - 1 <= n <= MAX_INT ==> Wrap(n) == n
    ensures MAX_INT < n < TWO_64 ==> Wrap(n) == n - TWO_64 < 0
  {
  }

  function Atoi(s: string): Option<int> {
    var n := ParseInteger(s);
    if n.Some? && -MAX_INT - 1 <= n.value <= MAX_INT then n else None
  }

  datatype Error = InvalidSize | InvalidPage | SliceOutOfRange

  datatype Request = Request(size: int, page: int, offset: int)

  /** The size a client asks for. */
  function SizeOf(sizeParam: string): (size: int)
    ensures size <= MAX_INT
  {
    if sizeParam == "" then PAGINATION_DEFAULT else if Atoi(sizeParam).Some? then Atoi(sizeParam).value else 0
  }

  /** The page a client asks for. */
  function PageOf(pageParam: string): (page: int)
    ensures page <= MAX_INT
  {
    if pageParam == "" then 1 else if Atoi(pageParam).Some? then Atoi(pageParam).value else 0
  }

  function ParsePaginatedRequest(sizeParam: string, pageParam: string): (r: Result<Request, Error>)
    ensures r.Ok? ==> 1 <= r.value.size <= MAX_INT && 1 <= r.value.page <= MAX_INT
  {
    var size := if sizeParam == "" then Some(PAGINATION_DEFAULT) else Atoi(sizeParam);
    var page := if pageParam == "" then Some(1) else Atoi(pageParam);
    if size == None || size.value < 1 then Err(InvalidSize)
    else if page == None || page.value < 1 then Err(InvalidPage)
    else Ok(Request(size.value, page.value, Wrap((page.value - 1) * size.value)))
  }

  /** Defaults for what is left out; what is not a number of at least 1 is rejected, the size first; and the offset is
      that of the page, as long as that fits an int, and else differs from it by a multiple of 2^64. */
  lemma ParsedRequest(sizeParam: string, pageParam: string)
    ensures var r := ParsePaginatedRequest(sizeParam, pageParam);
      && (r == Err(InvalidSize) <==> SizeOf(sizeParam) < 1)
      && (r == Err(InvalidPage) <==> SizeOf(sizeParam) >= 1 && PageOf(pageParam) < 1)
      && (r.Ok? ==> r.value.size == SizeOf(sizeParam) && r.value.page == PageOf(pageParam))
      && (r.Ok? ==> OffsetFor((r.value.page - 1) * r.value.size, r.value.offset))
  {
    var r := ParsePaginatedRequest(sizeParam, pageParam);
    if r.Ok? {
      WrapMeans((r.value.page - 1) * r.value.size);
    }
  }

  /** Parameters that are printed numbers are taken as these numbers, from 1 up to the largest int. */
  lemma NumbersAsk(size: int, page: int)
    ensures var r := ParsePaginatedRequest(Itoa(size), Itoa(page));
      && (r == Err(InvalidSize) <==> !(1 <= size <= MAX_INT))
      && (r == Err(InvalidPage) <==> 1 <= size <= MAX_INT && !(1 <= page <= MAX_INT))
      && (r.Ok? ==> r.value.size == size && r.value.page == page)
      && (r.Ok? && (page - 1) * size <= MAX_INT ==> r.value.offset == (page - 1) * size)
  {
    ParseItoa(size);
    ParseItoa(page);
    if 1 <= size && 1 <= page {
      MulOrder(0, page - 1, size);
      WrapNear((page - 1) * size);
    }
  }

  /** Without parameters it is the first page of 25, and what is not a number is rejected. */
  lemma DefaultsAsk(other: string)
    ensures ParsePaginatedRequest("", "") == Ok(Request(25, 1, 0))
    ensures other != "" && ParseInteger(other) == None ==>
              && ParsePaginatedRequest(other, "") == Err(InvalidSize)
              && ParsePaginatedRequest("", other) == Err(InvalidPage)
  {
    WrapNear(0);
  }

  predicate OffsetFor(n: int, offset: int) {
    && -MAX_INT - 1 <= offset <= MAX_INT && (offset - n) % TWO_64 == 0
    && (-MAX_INT - 1 <= n <= MAX_INT ==> offset == n)
  }

  lemma WrapMeans(n: int)
    ensures OffsetFor(n, Wrap(n))
  {
  }

  /** The page of Chains, Nodes and NodesForChain; slicing from a negative offset panics. */
  function Slice<T>(items: seq<T>, offset: int, limit: int): Result<seq<T>, Error> {
    if offset < 0 then Err(SliceOutOfRange) else
    var rest := if offset < |items| then items[offset..] else [];
    Ok(if limit > 0 && |rest| > limit then rest[..limit] else rest)
  }

  /** From the offset on, at most `limit` items if there is a limit; past the end there are none. */
  lemma SliceIs<T>(items: seq<T>, offset: int, limit: int)
    ensures Slice(items, offset, limit).Err? <==> offset < 0
    ensures 0 <= offset ==>
              var from := Min(offset, |items|);
              Slice(items, offset, limit) == Ok(items[from..if limit > 0 then Min(from + limit, |items|) else |items|])
    ensures offset >= |items| ==> Slice(items, offset, limit) == Ok([])
  {
    if offset >= 0 {
      var from := Min(offset, |items|);
      var to := if limit > 0 then Min(from + limit, |items|) else |items|;
      assert Slice(items, offset, limit).value == items[from..to];
    }
  }

  /** The query parameters that a link sets; the rest of the address stays as it was. */
  datatype Link = Link(size: string, page: string)

  datatype Response<T> = Response(data: seq<T>, count: nat, links: map<string, Link>)

  /** What the links of a response are. */
  function LinksOf(size: int, page: int, count: int): map<string, Link> {
    (if count > size && Wrap(page * size) < count then map[NEXT := Link(Itoa(size), Itoa(Wrap(page + 1)))] else map[]) +
    (if count > size && page > 1 then map[PREV := Link(Itoa(size), Itoa(Wrap(page - 1)))] else map[])
  }

  class Document {
    var meta: map<string, int>
    var links: map<string, Link>

    constructor ()
    {
      meta, links := map[], map[];
    }

    method Fill(size: int, page: int, count: int)
      modifies this
      ensures meta == map["count" := count] && links == LinksOf(size, page, count)
    {
      meta := map[];
      meta := meta["count" := count];
      links := map[];
      if count > size {
        if Wrap(page * size) < count {
          links := links[NEXT := Link(Itoa(size), Itoa(Wrap(page + 1)))];
        }
        if page > 1 {
          links := links[PREV := Link(Itoa(size), Itoa(Wrap(page - 1)))];
        }
      }
    }
  }

  /** A listing request, from its parameters to its response. */
  function Serve<T>(items: seq<T>, sizeParam: string, pageParam: string): Result<Response<T>, Error> {
    var request := ParsePaginatedRequest(sizeParam, pageParam);
    if request.Err? then Err(request.error) else
    var page := Slice(items, request.value.offset, request.value.size);
    if page.Err? then Err(page.error) else
    Ok(Response(page.value, |items|, LinksOf(request.value.size, request.value.page, |items|)))
  }

  // ----- The pages of a list -----

  /** At least one page, and as many as it takes. */
  function PageCount(count: nat, size: nat): (n: nat)
    requires size >= 1
  {
    if count == 0 then 1 else (count - 1) / size + 1
  }

  lemma PageCountBounds(count: nat, size: nat, last: nat)
    requires size >= 1 && last == (PageCount(count, size) - 1) * size
    ensures PageCount(count, size) >= 1
    ensures count > 0 ==> last < count <= last + size
    ensures count == 0 ==> last == 0
    ensures count > size <==> PageCount(count, size) > 1
    ensures count > 0 ==> PageCount(count, size) <= count
  {
    if count > 0 {
      var q, r := (count - 1) / size, (count - 1) % size;
      assert count - 1 == size * q + r;
      if q >= 1 {
        MulAtLeast(size, q);
      }
      MulOrder(1, size, q);
    }
  }

  lemma MulOrder(a: nat, b: nat, k: nat)
    requires a <= b
    ensures a * k <= b * k
  {
  }

  lemma Steps(p: int, size: int)
    ensures p * size == (p - 1) * size + size
  {
  }

  /** The product of the last page stays within an int; short of lists of 2^62 items it always does. */
  predicate InRange(count: nat, size: nat)
    requires size >= 1
  {
    count <= size || PageCount(count, size) * size <= MAX_INT
  }

  lemma OrdinaryListsAreInRange(count: nat, size: nat)
    requires size >= 1 && count + size <= MAX_INT
    ensures InRange(count, size)
  {
    var n := PageCount(count, size);
    Steps(n, size);
    PageCountBounds(count, size, (n - 1) * size);
  }

  /** `off` is where page p begins, and page p + 1 begins after the whole list exactly if p is the last page. */
  lemma PageBounds(count: nat, size: nat, p: nat, off: int)
    requires size >= 1 && 1 <= p <= PageCount(count, size) && off == (p - 1) * size
    ensures 0 <= off <= count && p * size == off + size
    ensures p < PageCount(count, size) <==> off + size < count
    ensures count > size <==> PageCount(count, size) > 1
    ensures p == PageCount(count, size) && count > 0 ==> off < count
  {
    var n := PageCount(count, size);
    var last := (n - 1) * size;
    PageCountBounds(count, size, last);
    Steps(p, size);
    MulOrder(p - 1, n - 1, size);
    MulOrder(0, p - 1, size);
    if p < n {
      MulOrder(p, n - 1, size);
    }
  }

  lemma NextNumber(count: nat, size: nat, p: nat)
    requires 1 <= size <= MAX_INT && count <= MAX_INT && 1 <= p <= PageCount(count, size)
    requires p < PageCount(count, size) || !InRange(count, size)
    ensures p + 1 <= MAX_INT
  {
    var n := PageCount(count, size);
    PageCountBounds(count, size, (n - 1) * size);
    if p == n {
      Steps(n, size);
      MulOrder(2, size, n - 1);
    }
  }

  /** Product and comparison, with the wrapped product of the last page taken into account. */
  lemma NextCondition(count: nat, size: nat, p: nat)
    requires 1 <= size <= MAX_INT && count <= MAX_INT && 1 <= p <= PageCount(count, size)
    ensures count > size && Wrap(p * size) < count <==> p < PageCount(count, size) || !InRange(count, size)
  {
    var off := (p - 1) * size;
    var n := PageCount(count, size);
    PageBounds(count, size, p, off);
    WrapNear(off + size);
    assert p * size == off + size;
    if p < n {
      assert off + size < count;
    } else {
      assert InRange(count, size) <==> count <= size || off + size <= MAX_INT;
    }
  }

  lemma PageLinks(count: nat, size: nat, p: nat)
    requires 1 <= size <= MAX_INT && count <= MAX_INT && 1 <= p <= PageCount(count, size)
    ensures var links := LinksOf(size, p, count);
      && (NEXT in links <==> p < PageCount(count, size) || !InRange(count, size))
      && (NEXT in links ==> links[NEXT] == Link(Itoa(size), Itoa(p + 1)))
      && (PREV in links <==> p > 1)
      && (PREV in links ==> links[PREV] == Link(Itoa(size), Itoa(p - 1)))
  {
    NextCondition(count, size, p);
    PageBounds(count, size, p, (p - 1) * size);
    if p < PageCount(count, size) || !InRange(count, size) {
      NextNumber(count, size, p);
      WrapNear(p + 1);
    }
    if p > 1 {
      PageCountBounds(count, size, (PageCount(count, size) - 1) * size);
      WrapNear(p - 1);
    }
  }

  predicate Asks(sizeParam: string, pageParam: string, size: nat, p: nat) {
    var r := ParsePaginatedRequest(sizeParam, pageParam);
    r.Ok? && r.value.size == size && r.value.page == p
  }

  function Part<T>(items: seq<T>, from: int, size: int): seq<T> {
    if 0 <= from <= |items| && size >= 0 then items[from..Min(from + size, |items|)] else []
  }

  lemma SliceIsPart<T>(items: seq<T>, off: int, size: nat)
    requires 0 <= off <= |items| && size >= 1
    ensures Slice(items, off, size) == Ok(Part(items, off, size))
  {
    assert Slice(items, off, size).value == Part(items, off, size);
  }

  lemma AskedOffset(sizeParam: string, pageParam: string, size: nat, p: nat, off: int)
    requires Asks(sizeParam, pageParam, size, p) && off == (p - 1) * size && 0 <= off <= MAX_INT
    ensures ParsePaginatedRequest(sizeParam, pageParam) == Ok(Request(size, p, off))
  {
    WrapNear(off);
  }

  /** The request for one of the pages finds its part of the list. */
  lemma PageData<T>(items: seq<T>, size: nat, p: nat, sizeParam: string, pageParam: string)
    requires 1 <= size && |items| <= MAX_INT && 1 <= p <= PageCount(|items|, size)
    requires Asks(sizeParam, pageParam, size, p)
    ensures Serve(items, sizeParam, pageParam)
         == Ok(Response(Part(items, (p - 1) * size, size), |items|, LinksOf(size, p, |items|)))
  {
    var off := (p - 1) * size;
    PageBounds(|items|, size, p, off);
    AskedOffset(sizeParam, pageParam, size, p, off);
    SliceIsPart(items, off, size);
  }

  /** A page after the last one is served empty, with the count, and with a link back but none forward. */
  lemma PastTheEnd<T>(items: seq<T>, size: nat, p: nat, sizeParam: string, pageParam: string)
    requires 1 <= size && PageCount(|items|, size) < p && p * size <= MAX_INT
    requires Asks(sizeParam, pageParam, size, p)
    ensures Serve(items, sizeParam, pageParam) == Ok(Response([], |items|, LinksOf(size, p, |items|)))
    ensures NEXT !in LinksOf(size, p, |items|)
    ensures PREV in LinksOf(size, p, |items|) <==> |items| > size
  {
    var n, off := PageCount(|items|, size), (p - 1) * size;
    PageBounds(|items|, size, n, (n - 1) * size);
    MulOrder(n, p - 1, size);
    Steps(p, size);
    AskedOffset(sizeParam, pageParam, size, p, off);
    SliceIs(items, off, size);
    WrapNear(p * size);
  }

  lemma PrintedAsks(size: nat, p: nat)
    requires 1 <= size <= MAX_INT && 1 <= p <= MAX_INT
    ensures Asks(Itoa(size), Itoa(p), size, p)
  {
    ParseItoa(size);
    ParseItoa(p);
  }

  // ----- Following the links -----

  ghost predicate LeadsTo<T>(items: seq<T>, link: string, r: Response<T>, r': Response<T>) {
    link in r.links && Serve(items, r.links[link].size, r.links[link].page) == Ok(r')
  }

  /** The responses of a client that asks for the first page and then follows "next" from each. */
  ghost predicate Follows<T>(items: seq<T>, sizeParam: string, rs: seq<Response<T>>) {
    (|rs| > 0 ==> Serve(items, sizeParam, "") == Ok(rs[0])) && Chain(items, rs)
  }

  ghost predicate Chain<T>(items: seq<T>, rs: seq<Response<T>>) {
    forall i, j :: 0 <= i && j == i + 1 && j < |rs| ==> LeadsTo(items, NEXT, rs[i], rs[j])
  }

  function Page<T>(items: seq<T>, size: nat, p: int): Response<T> {
    Response(Part(items, (p - 1) * size, size), |items|, LinksOf(size, p, |items|))
  }

  lemma FirstAsks(sizeParam: string)
    requires SizeOf(sizeParam) >= 1
    ensures Asks(sizeParam, "", SizeOf(sizeParam), 1)
  {
  }

  /** What "next" leads to from page p. */
  lemma NextLeads<T>(items: seq<T>, size: nat, p: nat)
    requires 1 <= size <= MAX_INT && |items| <= MAX_INT && 1 <= p < PageCount(|items|, size)
    ensures LeadsTo(items, NEXT, Page(items, size, p), Page(items, size, p + 1))
  {
    PageLinks(|items|, size, p);
    NextNumber(|items|, size, p);
    PrintedAsks(size, p + 1);
    PageData(items, size, p + 1, Itoa(size), Itoa(p + 1));
  }

  /** "prev" undoes "next". */
  lemma PrevUndoesNext<T>(items: seq<T>, size: nat, p: nat)
    requires 1 <= size <= MAX_INT && |items| <= MAX_INT && 1 <= p < PageCount(|items|, size)
    ensures LeadsTo(items, PREV, Page(items, size, p + 1), Page(items, size, p))
  {
    PageLinks(|items|, size, p + 1);
    NextNumber(|items|, size, p);
    PrintedAsks(size, p);
    PageData(items, size, p, Itoa(size), Itoa(p));
  }

  lemma FirstPage<T>(items: seq<T>, sizeParam: string)
    requires |items| <= MAX_INT && SizeOf(sizeParam) >= 1
    ensures Serve(items, sizeParam, "") == Ok(Page(items, SizeOf(sizeParam), 1))
  {
    FirstAsks(sizeParam);
    PageData(items, SizeOf(sizeParam), 1, sizeParam, "");
  }

  /** What a client that starts on the first page sees. */
  ghost predicate StartsAtFirst<T>(items: seq<T>, size: nat, rs: seq<Response<T>>) {
    && 1 <= size <= MAX_INT && |items| <= MAX_INT
    && |rs| > 0 && rs[0] == Page(items, size, 1)
  }

  lemma {:induction false} ChainPages<T>(items: seq<T>, size: nat, rs: seq<Response<T>>, i: nat)
    requires StartsAtFirst(items, size, rs) && Chain(items, rs) && i < |rs| && i < PageCount(|items|, size)
    ensures rs[i] == Page(items, size, i + 1)
  {
    if i == 0 {
    } else {
      ChainPages(items, size, rs, i - 1);
      ChainStep(items, rs, i - 1);
      NextLeads(items, size, i);
    }
  }

  lemma ChainStep<T>(items: seq<T>, rs: seq<Response<T>>, i: nat)
    requires Chain(items, rs) && i + 1 < |rs|
    ensures LeadsTo(items, NEXT, rs[i], rs[i + 1])
  {
  }

  function Concat<T>(rs: seq<Response<T>>): seq<T> {
    if rs == [] then [] else Concat(rs[..|rs| - 1]) + rs[|rs| - 1].data
  }

  /** The first n pages are the first n * size items. */
  lemma {:induction false} ConcatPages<T>(items: seq<T>, size: nat, rs: seq<Response<T>>)
    requires size >= 1 && |rs| <= PageCount(|items|, size)
    requires forall i | 0 <= i < |rs| :: rs[i] == Page(items, size, i + 1)
    ensures 0 <= |rs| * size && Concat(rs) == items[..Min(|rs| * size, |items|)]
  {
    if rs == [] {
    } else {
      var n, off := |rs|, (|rs| - 1) * size;
      ConcatPages(items, size, rs[..n - 1]);
      PageBounds(|items|, size, n, off);
      JoinParts(items, off, size);
    }
  }

  lemma JoinParts<T>(items: seq<T>, off: int, size: nat)
    requires 0 <= off <= |items|
    ensures items[..Min(off, |items|)] + Part(items, off, size) == items[..Min(off + size, |items|)]
  {
  }

  lemma WrappedOffset<T>(items: seq<T>, sizeParam: string, pageParam: string, size: nat, p: nat, off: int)
    requires Asks(sizeParam, pageParam, size, p) && off == (p - 1) * size && MAX_INT < off < TWO_64
    ensures Serve(items, sizeParam, pageParam) == Err(SliceOutOfRange)
  {
    WrapNear(off);
  }

  /** Out of range, the last page has a link as well, to an offset that wrapped around. */
  lemma BeyondIsError<T>(items: seq<T>, size: nat)
    requires 1 <= size <= MAX_INT && |items| <= MAX_INT && !InRange(|items|, size)
    ensures Serve(items, Itoa(size), Itoa(PageCount(|items|, size) + 1)) == Err(SliceOutOfRange)
  {
    var n := PageCount(|items|, size);
    var off := (n - 1) * size;
    PageBounds(|items|, size, n, off);
    NextNumber(|items|, size, n);
    PrintedAsks(size, n + 1);
    WrappedOffset(items, Itoa(size), Itoa(n + 1), size, n + 1, off + size);
  }

  /** From the last page nothing can be reached: it has no next link, or one to a page that cannot be served. */
  lemma LastLeadsNowhere<T>(items: seq<T>, size: nat, beyond: Response<T>)
    requires 1 <= size <= MAX_INT && |items| <= MAX_INT
    ensures !LeadsTo(items, NEXT, Page(items, size, PageCount(|items|, size)), beyond)
  {
    PageLinks(|items|, size, PageCount(|items|, size));
    if !InRange(|items|, size) {
      BeyondIsError(items, size);
    }
  }

  lemma NotLonger<T>(items: seq<T>, size: nat, rs: seq<Response<T>>)
    requires StartsAtFirst(items, size, rs) && Chain(items, rs)
    ensures |rs| <= PageCount(|items|, size)
  {
    var n := PageCount(|items|, size);
    if |rs| > n {
      ChainStep(items, rs, n - 1);
      ChainPages(items, size, rs, n - 1);
      LastLeadsNowhere(items, size, rs[n]);
    }
  }

  lemma AllPages<T>(items: seq<T>, size: nat, rs: seq<Response<T>>)
    requires StartsAtFirst(items, size, rs) && Chain(items, rs)
    ensures |rs| <= PageCount(|items|, size)
    ensures forall i | 0 <= i < |rs| :: rs[i] == Page(items, size, i + 1)
  {
    NotLonger(items, size, rs);
    forall i | 0 <= i < |rs|
      ensures rs[i] == Page(items, size, i + 1)
    {
      ChainPages(items, size, rs, i);
    }
  }

  lemma WholeList<T>(items: seq<T>, size: nat, rs: seq<Response<T>>)
    requires size >= 1 && |rs| == PageCount(|items|, size)
    requires forall i | 0 <= i < |rs| :: rs[i] == Page(items, size, i + 1)
    ensures Concat(rs) == items
  {
    var n := |rs|;
    ConcatPages(items, size, rs);
    PageBounds(|items|, size, n, (n - 1) * size);
    assert items[..|items|] == items;
  }

  /** Following "next" never visits more pages than the list takes; a visit of that many has seen the whole list, page
      after page; one of fewer has a next link; and the last page has none exactly if its product stays in range. */
  lemma FollowingEnumerates<T>(items: seq<T>, sizeParam: string, rs: seq<Response<T>>)
    requires |items| <= MAX_INT && SizeOf(sizeParam) >= 1
    requires Follows(items, sizeParam, rs) && |rs| > 0
    ensures var n := PageCount(|items|, SizeOf(sizeParam));
      && |rs| <= n
      && (|rs| == n ==> Concat(rs) == items)
      && (NEXT !in rs[|rs| - 1].links <==> |rs| == n && InRange(|items|, SizeOf(sizeParam)))
  {
    FirstPage(items, sizeParam);
    ChainEnumerates(items, SizeOf(sizeParam), rs);
  }

  lemma ChainEnumerates<T>(items: seq<T>, size: nat, rs: seq<Response<T>>)
    requires StartsAtFirst(items, size, rs) && Chain(items, rs)
    ensures |rs| <= PageCount(|items|, size)
    ensures |rs| == PageCount(|items|, size) ==> Concat(rs) == items
    ensures NEXT !in rs[|rs| - 1].links <==> |rs| == PageCount(|items|, size) && InRange(|items|, size)
  {
    AllPages(items, size, rs);
    PageLinks(|items|, size, |rs|);
    if |rs| == PageCount(|items|, size) {
      WholeList(items, size, rs);
    }
  }

  function PagesOf<T>(items: seq<T>, size: nat): (rs: seq<Response<T>>)
    requires size >= 1
    ensures |rs| == PageCount(|items|, size)
  {
    seq(PageCount(|items|, size), i => Page(items, size, i + 1))
  }

  lemma PagesChain<T>(items: seq<T>, size: nat)
    requires 1 <= size <= MAX_INT && |items| <= MAX_INT
    ensures Chain(items, PagesOf(items, size))
  {
    var rs := PagesOf(items, size);
    forall i, j | 0 <= i && j == i + 1 && j < |rs|
      ensures LeadsTo(items, NEXT, rs[i], rs[j])
    {
      NextLeads(items, size, j);
    }
  }

  /** The walk over all pages exists. */
  lemma PagesFollow<T>(items: seq<T>, sizeParam: string)
    requires |items| <= MAX_INT && SizeOf(sizeParam) >= 1
    ensures Follows(items, sizeParam, PagesOf(items, SizeOf(sizeParam)))
  {
    FirstPage(items, sizeParam);
    PagesChain(items, SizeOf(sizeParam));
  }

  /** A client's complete walk along the next links. */
  ghost predicate Walk<T>(items: seq<T>, sizeParam: string, rs: seq<Response<T>>) {
    |rs| > 0 && Follows(items, sizeParam, rs) && NEXT !in rs[|rs| - 1].links
  }

  /** There is a complete walk exactly if the product of the last page does not wrap around. */
  lemma WalkEndsIff<T>(items: seq<T>, sizeParam: string)
    requires |items| <= MAX_INT && SizeOf(sizeParam) >= 1
    ensures (exists rs :: Walk(items, sizeParam, rs)) <==> InRange(|items|, SizeOf(sizeParam))
  {
    if InRange(|items|, SizeOf(sizeParam)) {
      CompleteWalk(items, sizeParam);
    } else {
      forall rs: seq<Response<T>>
        ensures !Walk(items, sizeParam, rs)
      {
        NoWalk(items, sizeParam, rs);
      }
    }
  }

  lemma CompleteWalk<T>(items: seq<T>, sizeParam: string)
    requires |items| <= MAX_INT && SizeOf(sizeParam) >= 1 && InRange(|items|, SizeOf(sizeParam))
    ensures Walk(items, sizeParam, PagesOf(items, SizeOf(sizeParam)))
  {
    PagesFollow(items, sizeParam);
    FollowingEnumerates(items, sizeParam, PagesOf(items, SizeOf(sizeParam)));
  }

  lemma NoWalk<T>(items: seq<T>, sizeParam: string, rs: seq<Response<T>>)
    requires |items| <= MAX_INT && SizeOf(sizeParam) >= 1 && !InRange(|items|, SizeOf(sizeParam))
    ensures !Walk(items, sizeParam, rs)
  {
    if |rs| > 0 && Follows(items, sizeParam, rs) {
      FollowingEnumerates(items, sizeParam, rs);
    }
  }

  /** A list and a size for which it does: two pages, the second with a link to a third, which cannot be served. */
  lemma WrappingWalk(items: seq<bool>)
    requires |items| == MAX_INT
    ensures var size := MAX_INT - 1;
      && PageCount(|items|, size) == 2 && !InRange(|items|, size)
      && LeadsTo(items, NEXT, Page(items, size, 1), Page(items, size, 2))
      && NEXT in Page(items, size, 2).links && Page(items, size, 2).links[NEXT] == Link(Itoa(size), Itoa(3))
      && Serve(items, Itoa(size), Itoa(3)) == Err(SliceOutOfRange)
  {
    var size := MAX_INT - 1;
    TwoPages(MAX_INT, size);
    NextLeads(items, size, 1);
    PageLinks(MAX_INT, size, 2);
    BeyondIsError(items, size);
  }

  lemma TwoPages(count: nat, size: nat)
    requires size == count - 1 && size >= 1
    ensures PageCount(count, size) == 2
  {
    DivUnique(size, size, 1, 0);
  }
}
