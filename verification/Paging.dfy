/** Size-bounded paging: the read service's keyset pages, and the facade that shortens a page until
    its envelope fits the protocol bound. */
module Paging {
  import opened Base

  const MAX_MODEL_LIMIT := 20

  datatype Record = Record(id: nat, availableAt: Time, body: string)

  /** The sort key (available_at, observation_id). */
  datatype Key = Key(availableAt: Time, id: nat)

  function KeyOf(r: Record): Key {
    Key(r.availableAt, r.id)
  }

  predicate Below(a: Key, b: Key) {
    a.availableAt < b.availableAt || (a.availableAt == b.availableAt && a.id < b.id)
  }

  /** What a query matches at one anchor: newest first, each observation once. */
  ghost predicate Descending(rs: seq<Record>) {
    forall i, j :: 0 <= i < j < |rs| ==> Below(KeyOf(rs[j]), KeyOf(rs[i]))
  }

  // ---------------------------------------------------------------- the read service

  /** A signed read cursor: the anchor it was minted for and the last key it has passed. */
  datatype ReadCursor = ReadCursor(anchor: Time, last: Key)

  datatype Response = Response(anchor: Time, records: seq<Record>, next: Option<ReadCursor>)

  datatype PageError = InvalidLimit | InvalidCursor | ResultTooLarge

  datatype Outcome<T> = Success(value: T) | Failure(error: PageError)

  /** The records behind a cursor: those whose key is smaller. */
  function Behind(rs: seq<Record>, last: Option<Key>): seq<Record> {
    if rs == [] then []
    else if last.None? || Below(KeyOf(rs[0]), last.value) then [rs[0]] + Behind(rs[1..], last)
    else Behind(rs[1..], last)
  }

  function First(rs: seq<Record>, limit: nat): seq<Record> {
    if |rs| <= limit then rs else rs[..limit]
  }

  /** `ReadService.query`; `view` gives the matching records at an anchor. */
  function Read(view: Time -> seq<Record>, asOf: Option<Time>, cursor: Option<ReadCursor>, limit: nat,
                now: Time): Outcome<Response> {
    if cursor.Some? && asOf.Some? && asOf.value != cursor.value.anchor then Failure(InvalidCursor)
    else
      var anchor := if cursor.Some? then cursor.value.anchor else if asOf.Some? then asOf.value else now;
      var last := if cursor.Some? then Some(cursor.value.last) else None;
      var rest := Behind(view(anchor), last);
      var page := First(rest, limit);
      Success(Response(anchor, page,
                       if |rest| > |page| && page != [] then Some(ReadCursor(anchor, KeyOf(page[|page| - 1])))
                       else None))
  }

  // ---------------------------------------------------------------- the facade

  /** Whoever a handle is minted for, and what query it is bound to. */
  datatype Scope = Scope(principal: string, capabilityScope: string, binding: string)

  datatype CursorRef = CursorRef(scope: Scope, read: ReadCursor)

  datatype Request = Request(scope: Scope, asOf: Option<Time>, cursor: Option<CursorRef>, limit: int)

  datatype Page = Page(anchor: Time, records: seq<Record>, cursor: Option<CursorRef>, partial: bool)

  /** `_query_data`: a cursor handle is minted only behind an emitted record. */
  function PageOf(scope: Scope, r: Response, partial: bool): Page {
    Page(r.anchor, r.records, if r.next.Some? && r.records != [] then Some(CursorRef(scope, r.next.value))
         else None, partial)
  }

  /** The read query of a request, after its handle was verified. */
  function Opened(q: Request): Outcome<(Option<Time>, Option<ReadCursor>)> {
    if !(1 <= q.limit <= MAX_MODEL_LIMIT) then Failure(InvalidLimit)
    else if q.cursor.None? then Success((q.asOf, None))
    else if q.cursor.value.scope != q.scope then Failure(InvalidCursor)
    else if q.asOf.Some? && q.asOf.value != q.cursor.value.read.anchor then Failure(InvalidCursor)
    else Success((Some(q.cursor.value.read.anchor), Some(q.cursor.value.read)))
  }

  /** The page of `size` records, re-read at the anchor of the full page. */
  function Prefix(view: Time -> seq<Record>, scope: Scope, anchor: Time, cursor: Option<ReadCursor>, size: nat): Page
    requires cursor.Some? ==> cursor.value.anchor == anchor
  {
    PageOf(scope, Read(view, Some(anchor), cursor, size, 0).value, true)
  }

  /** The longest page of at most `size` records that fits, marked partial. */
  function Shortened(view: Time -> seq<Record>, scope: Scope, anchor: Time, cursor: Option<ReadCursor>,
                     size: nat, fits: Page -> bool)
    : Outcome<Page>
    requires cursor.Some? ==> cursor.value.anchor == anchor
  {
    if size == 0 then Failure(ResultTooLarge)
    else if fits(Prefix(view, scope, anchor, cursor, size)) then Success(Prefix(view, scope, anchor, cursor, size))
    else Shortened(view, scope, anchor, cursor, size - 1, fits)
  }

  function Bounded(view: Time -> seq<Record>, scope: Scope, cursor: Option<ReadCursor>, full: Response,
                   fits: Page -> bool)
    : Outcome<Page>
    requires cursor.Some? ==> cursor.value.anchor == full.anchor
  {
    if fits(PageOf(scope, full, false)) then Success(PageOf(scope, full, false))
    else Shortened(view, scope, full.anchor, cursor, Max(0, |full.records| - 1), fits)
  }

  /** `_query_market_data` */
  function Query(view: Time -> seq<Record>, q: Request, now: Time, fits: Page -> bool): Outcome<Page> {
    match Opened(q)
    case Failure(e) => Failure(e)
    case Success(plan) =>
      match Read(view, plan.0, plan.1, q.limit, now)
      case Failure(e) => Failure(e)
      case Success(full) => Bounded(view, q.scope, plan.1, full, fits)
  }

  /** A read at a given anchor does not depend on the clock. */
  lemma ReadAtAnchor(view: Time -> seq<Record>, anchor: Time, cursor: Option<ReadCursor>, size: nat, now: Time)
    requires cursor.Some? ==> cursor.value.anchor == anchor
    ensures Read(view, Some(anchor), cursor, size, now) == Read(view, Some(anchor), cursor, size, 0)
    ensures Read(view, Some(anchor), cursor, size, 0).Success?
  {
  }

  /** `_bounded_query_result`: the full page if its envelope fits, otherwise shorter and shorter
      prefixes, each read again at the same anchor so that its cursor stands behind its last record.
      `fits` is the wire-size test, of which nothing is assumed; `clock` is the time of each re-query. */
  method BoundedPage(view: Time -> seq<Record>, scope: Scope, cursor: Option<ReadCursor>, full: Response,
                     fits: Page -> bool, clock: nat -> Time) returns (r: Outcome<Page>)
    requires cursor.Some? ==> cursor.value.anchor == full.anchor
    ensures r == Bounded(view, scope, cursor, full, fits)
  {
    hide Read, PageOf;
    var page := PageOf(scope, full, false);
    if fits(page) {
      return Success(page);
    }
    var size := |full.records| - 1;
    while size > 0
      invariant Bounded(view, scope, cursor, full, fits) ==
                  Shortened(view, scope, full.anchor, cursor, Max(0, size), fits)
    {
      ReadAtAnchor(view, full.anchor, cursor, size, clock(size));
      var again := Read(view, Some(full.anchor), cursor, size, clock(size));
      page := PageOf(scope, again.value, true);
      if fits(page) {
        return Success(page);
      }
      size := size - 1;
    }
    r := Failure(ResultTooLarge);
  }

  method QueryMarketData(view: Time -> seq<Record>, q: Request, now: Time, fits: Page -> bool, clock: nat -> Time)
    returns (r: Outcome<Page>)
    ensures r == Query(view, q, now, fits)
  {
    var plan := Opened(q);
    if plan.Failure? {
      return Failure(plan.error);
    }
    var (asOf, cursor) := plan.value;
    var full := Read(view, asOf, cursor, q.limit, now);
    if full.Failure? {
      return Failure(full.error);
    }
    r := BoundedPage(view, q.scope, cursor, full.value, fits, clock);
  }

  // ---------------------------------------------------------------- one page

  /** A cursor that stands behind the first `n` records of its anchor's view; no cursor stands at 0. */
  ghost predicate StandsAt(view: Time -> seq<Record>, anchor: Time, cursor: Option<ReadCursor>, n: nat) {
    && n <= |view(anchor)|
    && (if cursor.None? then n == 0
        else cursor.value.anchor == anchor && n > 0 && cursor.value.last == KeyOf(view(anchor)[n - 1]))
  }

  lemma {:induction false} BehindAll(rs: seq<Record>, last: Option<Key>)
    requires last.None? || forall i :: 0 <= i < |rs| ==> Below(KeyOf(rs[i]), last.value)
    ensures Behind(rs, last) == rs
  {
    if rs != [] {
      BehindAll(rs[1..], last);
    }
  }

  /** Filtering by key is dropping a prefix. */
  lemma {:induction false} BehindIsSuffix(rs: seq<Record>, n: nat)
    requires Descending(rs) && 0 < n <= |rs|
    ensures Behind(rs, Some(KeyOf(rs[n - 1]))) == rs[n..]
  {
    var last := Some(KeyOf(rs[n - 1]));
    if n == 1 {
      BehindAll(rs[1..], last);
    } else {
      BehindIsSuffix(rs[1..], n - 1);
      assert rs[1..][n - 1..] == rs[n..];
    }
  }

  lemma ReadContinues(view: Time -> seq<Record>, anchor: Time, asOf: Option<Time>, cursor: Option<ReadCursor>,
                      n: nat, limit: nat, now: Time)
    requires Descending(view(anchor)) && StandsAt(view, anchor, cursor, n) && limit > 0
    requires if asOf.Some? then asOf.value == anchor else cursor.Some? || now == anchor
    ensures var r := Read(view, asOf, cursor, limit, now);
            && r.Success? && r.value.anchor == anchor
            && |r.value.records| == Min(limit, |view(anchor)| - n)
            && r.value.records == view(anchor)[n..n + |r.value.records|]
            && (r.value.next.None? <==> n + |r.value.records| == |view(anchor)|)
            && (r.value.next.Some? ==>
                  r.value.records != [] && StandsAt(view, anchor, r.value.next, n + |r.value.records|))
  {
    var rs := view(anchor);
    if cursor.Some? {
      BehindIsSuffix(rs, n);
    } else {
      BehindAll(rs, None);
    }
    var rest := rs[n..];
    assert rs[0..] == rs;
    var page := First(rest, limit);
    assert page == rs[n..n + |page|];
    assert page != [] ==> page[|page| - 1] == rs[n + |page| - 1];
  }

  /** What a shortened page is: the longest prefix that fits, or no prefix fits. */
  lemma {:induction false} ShortenedIsLongest(view: Time -> seq<Record>, scope: Scope, anchor: Time,
        cursor: Option<ReadCursor>,
                                              size: nat, fits: Page -> bool)
    returns (k: nat)
    requires cursor.Some? ==> cursor.value.anchor == anchor
    ensures k <= size
    ensures var r := Shortened(view, scope, anchor, cursor, size, fits);
            if k == 0 then r == Failure(ResultTooLarge)
            else r == Success(Prefix(view, scope, anchor, cursor, k)) && fits(r.value)
    ensures forall j :: k < j <= size ==> !fits(Prefix(view, scope, anchor, cursor, j))
  {
    if size == 0 {
      k := 0;
    } else if fits(Prefix(view, scope, anchor, cursor, size)) {
      k := size;
    } else {
      k := ShortenedIsLongest(view, scope, anchor, cursor, size - 1, fits);
    }
  }

  /** One page continues the view exactly where its request's cursor stands: in order, without a gap or
      a repeat, nonempty while records remain, with a cursor exactly while records remain behind it; and
      it is refused only if even its shortest page is too large. It is the whole page if that fits, and otherwise the
      longest shorter one that does, marked partial. */
  lemma PageContinues(view: Time -> seq<Record>, q: Request, anchor: Time, n: nat, now: Time, fits: Page -> bool)
    requires Descending(view(anchor)) && 1 <= q.limit <= MAX_MODEL_LIMIT
    requires q.cursor.Some? ==> q.cursor.value.scope == q.scope
    requires StandsAt(view, anchor, ReadCursorOf(q), n)
    requires if q.asOf.Some? then q.asOf.value == anchor else q.cursor.Some? || now == anchor
    ensures var r, rs := Query(view, q, now, fits), view(anchor);
            match r
            case Success(p) =>
              fits(p) && Continues(view, q.scope, anchor, n, p)
              && Longest(q.scope, rs, anchor, n, Min(q.limit, |rs| - n), fits, p)
            case Failure(e) =>
              && e == ResultTooLarge && !fits(WholePage(q.scope, rs, anchor, n, Min(q.limit, |rs| - n)))
              && (forall j :: 0 < j < Min(q.limit, |rs| - n) ==> !fits(PartialPage(q.scope, rs, anchor, n, j)))
              && (if |rs| - n <= 1 || q.limit == 1 then !fits(WholePage(q.scope, rs, anchor, n, Min(q.limit, |rs| - n)))
                  else !fits(Prefix(view, q.scope, anchor, ReadCursorOf(q), 1)))
  {
    hide Query, Descending, Prefix, Continues, WholePage, Shortened, PartialPage;
    var cursor, rs := ReadCursorOf(q), view(anchor);
    var size := Min(q.limit, |rs| - n);
    QueryCases(view, q, anchor, n, now, fits);
    if !fits(WholePage(q.scope, rs, anchor, n, size)) {
      var k := ShortenedIsLongest(view, q.scope, anchor, cursor, Max(0, size - 1), fits);
      forall j | 0 < j < size
        ensures Prefix(view, q.scope, anchor, cursor, j) == PartialPage(q.scope, rs, anchor, n, j)
      {
        PrefixContinues(view, q.scope, anchor, cursor, n, j);
      }
      if k > 0 {
        PrefixContinues(view, q.scope, anchor, cursor, n, k);
      }
    } else {
      WholeContinues(view, q.scope, anchor, n, size);
    }
  }

  /** A page that continues the view of its anchor at position `n`. */
  ghost predicate Continues(view: Time -> seq<Record>, scope: Scope, anchor: Time, n: nat, p: Page) {
    var rs := view(anchor);
    && p.anchor == anchor
    && n + |p.records| <= |rs| && p.records == rs[n..n + |p.records|]
    && (n < |rs| ==> p.records != [])
    && (p.cursor.None? <==> n + |p.records| == |rs|)
    && (p.cursor.Some? ==> p.cursor.value.scope == scope
                           && StandsAt(view, anchor, Some(p.cursor.value.read), n + |p.records|))
  }

  lemma QueryCases(view: Time -> seq<Record>, q: Request, anchor: Time, n: nat, now: Time, fits: Page -> bool)
    requires Descending(view(anchor)) && 1 <= q.limit <= MAX_MODEL_LIMIT
    requires q.cursor.Some? ==> q.cursor.value.scope == q.scope
    requires StandsAt(view, anchor, ReadCursorOf(q), n)
    requires if q.asOf.Some? then q.asOf.value == anchor else q.cursor.Some? || now == anchor
    ensures var size := Min(q.limit, |view(anchor)| - n);
            var whole := WholePage(q.scope, view(anchor), anchor, n, size);
            Query(view, q, now, fits)
              == if fits(whole) then Success(whole)
                 else Shortened(view, q.scope, anchor, ReadCursorOf(q), Max(0, size - 1), fits)
  {
    FullPage(view, q, anchor, n, now);
    hide Read, Descending, PageOf, Shortened;
  }

  lemma WholeContinues(view: Time -> seq<Record>, scope: Scope, anchor: Time, n: nat, size: nat)
    requires n + size <= |view(anchor)| && (n < |view(anchor)| ==> size > 0)
    ensures Continues(view, scope, anchor, n, WholePage(scope, view(anchor), anchor, n, size))
    ensures !WholePage(scope, view(anchor), anchor, n, size).partial
  {
  }

  /** The unshortened answer of a query. */
  lemma FullPage(view: Time -> seq<Record>, q: Request, anchor: Time, n: nat, now: Time)
    requires Descending(view(anchor)) && 1 <= q.limit <= MAX_MODEL_LIMIT
    requires q.cursor.Some? ==> q.cursor.value.scope == q.scope
    requires StandsAt(view, anchor, ReadCursorOf(q), n)
    requires if q.asOf.Some? then q.asOf.value == anchor else q.cursor.Some? || now == anchor
    ensures Opened(q).Success? && Opened(q).value.1 == ReadCursorOf(q)
    ensures var r := Read(view, Opened(q).value.0, ReadCursorOf(q), q.limit, now);
            var size := Min(q.limit, |view(anchor)| - n);
            && r.Success? && r.value.anchor == anchor && |r.value.records| == size
            && PageOf(q.scope, r.value, false) == WholePage(q.scope, view(anchor), anchor, n, size)
  {
    ReadContinues(view, anchor, Opened(q).value.0, ReadCursorOf(q), n, q.limit, now);
    hide Read, Descending;
  }

  lemma PrefixContinues(view: Time -> seq<Record>, scope: Scope, anchor: Time, cursor: Option<ReadCursor>,
                        n: nat, k: nat)
    requires Descending(view(anchor)) && StandsAt(view, anchor, cursor, n) && 0 < k < |view(anchor)| - n
    ensures Continues(view, scope, anchor, n, Prefix(view, scope, anchor, cursor, k))
    ensures Prefix(view, scope, anchor, cursor, k) == PartialPage(scope, view(anchor), anchor, n, k)
    ensures |Prefix(view, scope, anchor, cursor, k).records| == k && Prefix(view, scope, anchor, cursor, k).partial
  {
    ReadContinues(view, anchor, Some(anchor), cursor, n, k, 0);
    hide Read, Descending;
  }

  function ReadCursorOf(q: Request): Option<ReadCursor> {
    if q.cursor.Some? then Some(q.cursor.value.read) else None
  }

  /** The unshortened page of `size` records from position `n`. */
  function WholePage(scope: Scope, rs: seq<Record>, anchor: Time, n: nat, size: nat): Page
    requires n + size <= |rs|
  {
    var records := rs[n..n + size];
    Page(anchor, records,
         if records != [] && n + size < |rs| then Some(CursorRef(scope, ReadCursor(anchor, KeyOf(rs[n + size - 1]))))
         else None,
         false)
  }

  /** The page of the first `j` of those records, with its cursor behind the last of them, marked partial. */
  function PartialPage(scope: Scope, rs: seq<Record>, anchor: Time, n: nat, j: nat): Page
    requires n + j <= |rs|
  {
    WholePage(scope, rs, anchor, n, j).(partial := true)
  }

  ghost predicate Longest(scope: Scope, rs: seq<Record>, anchor: Time, n: nat, size: nat, fits: Page -> bool, p: Page)
    requires n + size <= |rs|
  {
    if !p.partial then p == WholePage(scope, rs, anchor, n, size)
    else
      && !fits(WholePage(scope, rs, anchor, n, size))
      && 0 < |p.records| < size && p == PartialPage(scope, rs, anchor, n, |p.records|)
      && (forall j :: |p.records| < j < size ==> !fits(PartialPage(scope, rs, anchor, n, j)))
  }

  /** What is refused before anything is read: a limit outside 1..20, a handle of another scope, and a handle whose
      anchor contradicts the requested time. */
  lemma QueryRefuses(view: Time -> seq<Record>, q: Request, now: Time, fits: Page -> bool)
    ensures Query(view, q, now, fits) == Failure(InvalidLimit) <==> !(1 <= q.limit <= 20)
    ensures Query(view, q, now, fits) == Failure(InvalidCursor) <==>
              && 1 <= q.limit <= 20 && q.cursor.Some?
              && (q.cursor.value.scope != q.scope || (q.asOf.Some? && q.asOf.value != q.cursor.value.read.anchor))
  {
    hide Behind, First, Prefix, PageOf;
    if Opened(q).Success? {
      var full := Read(view, Opened(q).value.0, Opened(q).value.1, q.limit, now);
      if full.Success? && !fits(PageOf(q.scope, full.value, false)) {
        var k := ShortenedIsLongest(view, q.scope, full.value.anchor, Opened(q).value.1,
                                    Max(0, |full.value.records| - 1), fits);
      }
    }
  }

  // ---------------------------------------------------------------- following cursors

  /** A client that starts without a cursor and then follows the cursor of each page it got, with any
      limits; `clocks` is the time of each request. */
  ghost predicate Follows(view: Time -> seq<Record>, reqs: seq<Request>, clocks: seq<Time>, pages: seq<Page>,
                          fits: Page -> bool) {
    && 0 < |pages| == |reqs| == |clocks|
    && reqs[0].cursor.None?
    && (forall i :: 0 < i < |reqs| ==>
          reqs[i].scope == reqs[0].scope && reqs[i].cursor == pages[i - 1].cursor && reqs[i].cursor.Some?)
    && (forall i :: 0 <= i < |reqs| ==> Query(view, reqs[i], clocks[i], fits) == Success(pages[i]))
  }

  function Gathered(pages: seq<Page>): seq<Record> {
    if pages == [] then [] else Gathered(pages[..|pages| - 1]) + pages[|pages| - 1].records
  }

  /** A request that succeeded had a limit in range and did not contradict its cursor. */
  lemma SuccessMeansValid(view: Time -> seq<Record>, q: Request, now: Time, fits: Page -> bool)
    requires Query(view, q, now, fits).Success?
    ensures 1 <= q.limit <= MAX_MODEL_LIMIT
    ensures q.cursor.Some? ==>
              q.cursor.value.scope == q.scope && (q.asOf.Some? ==> q.asOf.value == q.cursor.value.read.anchor)
  {
  }

  /** Paging is lossless: whatever the limits, and however often the size bound shortened a page, the
      pages gathered so far are exactly the first records of one anchor's view, once each and in order;
      every page adds something while records remain; and when a page comes without a cursor the client
      has everything. */
  lemma {:induction false} PagingIsLossless(view: Time -> seq<Record>, reqs: seq<Request>, clocks: seq<Time>,
        pages: seq<Page>, fits: Page -> bool)
    requires forall t :: Descending(view(t))
    requires Follows(view, reqs, clocks, pages, fits)
    ensures var last, anchor := pages[|pages| - 1], pages[0].anchor;
            var got, all := Gathered(pages), view(anchor);
            && last.anchor == anchor
            && |got| <= |all| && got == all[..|got|]
            && (last.cursor.None? <==> got == all)
            && (last.records == [] ==> got == all)
            && (last.cursor.Some? ==>
                  last.cursor.value.scope == reqs[0].scope
                  && StandsAt(view, anchor, Some(last.cursor.value.read), |got|))
    decreases |pages|
  {
    hide Query, Descending, Below;
    var m := |pages| - 1;
    var anchor := pages[0].anchor;
    SuccessMeansValid(view, reqs[m], clocks[m], fits);
    assert Descending(view(anchor));
    if m == 0 {
      var start := if reqs[0].asOf.Some? then reqs[0].asOf.value else clocks[0];
      assert Descending(view(start));
      PageContinues(view, reqs[0], start, 0, clocks[0], fits);
      assert pages[..0] == [];
      assert Gathered(pages) == Gathered(pages[..0]) + pages[0].records == pages[0].records;
    } else {
      PagingIsLossless(view, reqs[..m], clocks[..m], pages[..m], fits);
      var n := |Gathered(pages[..m])|;
      PageContinues(view, reqs[m], anchor, n, clocks[m], fits);
      Joined(view(anchor), n, n + |pages[m].records|);
    }
  }

  lemma Joined(rs: seq<Record>, i: nat, j: nat)
    requires i <= j <= |rs|
    ensures rs[..i] + rs[i..j] == rs[..j] && rs[..|rs|] == rs
  {
  }
}
