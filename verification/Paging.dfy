/**
 * Reading an index page by page (ElasticClient.scan in soc/workers/common.py) and moving vectors into
 * the durable outbox behind a cursor (pull_features in soc/workers/enrichment.py).
 *
 * Only the order of sort tuples matters, so a tuple is an integer rank. An index is the sequence of
 * matching documents in sort order.
 */
module Paging {
  import opened Wrappers

  datatype Hit<D> = Hit(sort: int, doc: D)

  /** Sort tuples ascend, perhaps with equal ones in a row. */
  predicate Sorted<D>(index: seq<Hit<D>>) {
    forall i, j :: 0 <= i < j < |index| ==> index[i].sort <= index[j].sort
  }

  /** Sort tuples are unique. */
  predicate Ordered<D>(index: seq<Hit<D>>) {
    forall i, j :: 0 <= i < j < |index| ==> index[i].sort < index[j].sort
  }

  predicate After(sort: int, cursor: Option<int>) {
    cursor.Some? ==> sort > cursor.value
  }

  /** The hits behind a cursor, in order. */
  function Beyond<D>(index: seq<Hit<D>>, cursor: Option<int>): seq<Hit<D>> {
    if index == [] then []
    else if After(index[0].sort, cursor) then [index[0]] + Beyond(index[1..], cursor)
    else Beyond(index[1..], cursor)
  }

  function Prefix<T>(s: seq<T>, n: nat): seq<T> {
    s[..Min(n, |s|)]
  }

  lemma PrefixSplits<T>(s: seq<T>, n: nat)
    ensures var p := Prefix(s, n); |p| == Min(n, |s|) && s == p + s[|p|..]
  {
  }

  /** A search request: one page behind the cursor. */
  function Search<D>(index: seq<Hit<D>>, cursor: Option<int>, size: nat): seq<Hit<D>> {
    Prefix(Beyond(index, cursor), size)
  }

  lemma {:induction false} BeyondHas<D>(index: seq<Hit<D>>, cursor: Option<int>, h: Hit<D>)
    ensures h in Beyond(index, cursor) <==> h in index && After(h.sort, cursor)
  {
    if index != [] {
      assert index == [index[0]] + index[1..];
      BeyondHas(index[1..], cursor, h);
    }
  }

  /** Nothing is cut: behind a cursor lies a suffix of the index. */
  lemma {:induction false} BeyondIsSuffix<D>(index: seq<Hit<D>>, cursor: Option<int>) returns (n: nat)
    requires Sorted(index)
    ensures n <= |index| && Beyond(index, cursor) == index[n..]
    ensures forall i :: 0 <= i < n ==> !After(index[i].sort, cursor)
    ensures forall i :: n <= i < |index| ==> After(index[i].sort, cursor)
  {
    if index == [] {
      n := 0;
    } else if After(index[0].sort, cursor) {
      n := BeyondIsSuffix(index[1..], cursor);
      assert n == 0;
      assert [index[0]] + index[1..] == index;
    } else {
      n := BeyondIsSuffix(index[1..], cursor);
      n := n + 1;
      assert forall i :: 1 <= i < n ==> index[i] == index[1..][i - 1];
    }
  }

  /** Moving the cursor to a hit skips exactly the hits up to it. */
  lemma BeyondHit<D>(index: seq<Hit<D>>, cursor: Option<int>, j: nat)
    requires Ordered(index) && j < |Beyond(index, cursor)|
    ensures Beyond(index, Some(Beyond(index, cursor)[j].sort)) == Beyond(index, cursor)[j + 1..]
  {
    var n := BeyondIsSuffix(index, cursor);
    var key := index[n..][j].sort;
    assert key == index[n + j].sort;
    var m := BeyondIsSuffix(index, Some(key));
    assert m > n + j by { assert m <= n + j ==> After(index[n + j].sort, Some(key)); }
    assert m == n + j + 1 by { assert m > n + j + 1 ==> !After(index[n + j + 1].sort, Some(key)); }
    assert index[n..][j + 1..] == index[m..];
  }

  // ----- paging ------------------------------------------------------------------------------------------

  /** A later cursor leaves less behind it: what is behind both is behind the later one. */
  lemma {:induction false} LaterCursor<D>(index: seq<Hit<D>>, cursor: Option<int>, key: int)
    requires After(key, cursor)
    ensures Beyond(index, Some(key)) == Beyond(Beyond(index, cursor), Some(key))
  {
    if index != [] {
      LaterCursor(index[1..], cursor, key);
      if After(index[0].sort, cursor) {
        assert Beyond(index, cursor)[1..] == Beyond(index[1..], cursor);
      }
    }
  }

  lemma {:induction false} BeyondShrinks<D>(index: seq<Hit<D>>, cursor: Option<int>, j: nat)
    ensures |Beyond(index, cursor)| <= |index|
    ensures j < |index| && !After(index[j].sort, cursor) ==> |Beyond(index, cursor)| < |index|
  {
    if index != [] { BeyondShrinks(index[1..], cursor, if j > 0 then j - 1 else 0); }
    if j > 0 && j < |index| { assert index[j] == index[1..][j - 1]; }
  }

  lemma PageMovesOn<D>(index: seq<Hit<D>>, cursor: Option<int>, j: nat)
    requires j < |Beyond(index, cursor)|
    ensures After(Beyond(index, cursor)[j].sort, cursor)
    ensures |Beyond(index, Some(Beyond(index, cursor)[j].sort))| < |Beyond(index, cursor)|
  {
    var rest := Beyond(index, cursor);
    assert rest[j] in rest;
    BeyondHas(index, cursor, rest[j]);
    LaterCursor(index, cursor, rest[j].sort);
    BeyondShrinks(rest, Some(rest[j].sort), j);
  }

  /** What reading page after page yields: a full page asks for the next one behind its last hit. */
  function Pages<D>(index: seq<Hit<D>>, cursor: Option<int>, n: nat): seq<Hit<D>>
    requires n > 0
    decreases |Beyond(index, cursor)|
  {
    var hits := Search(index, cursor, n);
    if |hits| < n then hits
    else
      PageMovesOn(index, cursor, n - 1);
      hits + Pages(index, Some(hits[n - 1].sort), n)
  }

  /** No two hits with equal sort tuples are on different pages, among the first `limit`. */
  ghost predicate CleanCuts<D>(rest: seq<Hit<D>>, n: nat, limit: nat) {
    forall k: nat {:trigger Cut(k, n)} :: 0 < k && 0 < Cut(k, n) < Min(limit, |rest|) ==>
      rest[Cut(k, n) - 1].sort < rest[Cut(k, n)].sort
  }

  /** Where page k ends and the next one starts. */
  function Cut(k: nat, n: nat): nat {
    k * n
  }

  datatype ScanEnd = Complete | LimitExceeded | BadPageSize

  /** All pages behind a cursor. With a limit the scan raises exactly when they hold more hits, after
      yielding `limit` of them. */
  method Scan<D>(index: seq<Hit<D>>, pageSize: int, limit: Option<nat>, cursor: Option<int>)
    returns (emitted: seq<Hit<D>>, end: ScanEnd)
    ensures end.BadPageSize? <==> !(1 <= pageSize <= 10000)
    ensures end.BadPageSize? ==> emitted == []
    ensures 1 <= pageSize <= 10000 ==>
              (end.LimitExceeded? <==> limit.Some? && |Pages(index, cursor, pageSize)| > limit.value)
    ensures end.Complete? ==> 1 <= pageSize && emitted == Pages(index, cursor, pageSize)
    ensures end.LimitExceeded? ==>
              limit.Some? && 1 <= pageSize && emitted == Prefix(Pages(index, cursor, pageSize), limit.value)
  {
    emitted := [];
    if !(1 <= pageSize <= 10000) { return [], BadPageSize; }
    var after := cursor;
    ghost var all := Pages(index, cursor, pageSize);
    while true
      invariant all == emitted + Pages(index, after, pageSize)
      invariant limit.Some? ==> |emitted| <= limit.value
      decreases |Beyond(index, after)|
    {
      var hits := Search(index, after, pageSize);
      ghost var more := PageByPage(index, after, pageSize);
      ghost var before := emitted;
      var full;
      emitted, full := TakePage(emitted, hits, limit);
      if full {
        CutInPage(before, hits, more, limit.value);
        return emitted, LimitExceeded;
      }
      PageByPageOn(before, hits, more);
      if |hits| < pageSize { return emitted, Complete; }
      PageMovesOn(index, after, pageSize - 1);
      after := Some(hits[|hits| - 1].sort);
    }
  }

  lemma CutInPage<T>(before: seq<T>, hits: seq<T>, more: seq<T>, limit: nat)
    requires |before| <= limit < |before| + |hits|
    ensures Prefix(before + (hits + more), limit) == before + hits[..limit - |before|]
    ensures |before + (hits + more)| > limit
  {
  }

  lemma PageByPageOn<T>(before: seq<T>, hits: seq<T>, more: seq<T>)
    ensures before + (hits + more) == (before + hits) + more
  {
  }

  /** One page, hit by hit, until the limit. */
  method TakePage<D>(before: seq<Hit<D>>, hits: seq<Hit<D>>, limit: Option<nat>)
    returns (emitted: seq<Hit<D>>, full: bool)
    requires limit.Some? ==> |before| <= limit.value
    ensures full <==> limit.Some? && |before| + |hits| > limit.value
    ensures emitted == before + (if full then hits[..limit.value - |before|] else hits)
  {
    emitted := before;
    var i := 0;
    while i < |hits|
      invariant 0 <= i <= |hits| && emitted == before + hits[..i]
      invariant limit.Some? ==> |emitted| <= limit.value
    {
      if limit.Some? && |emitted| + 1 > limit.value { return emitted, true; }
      emitted := emitted + [hits[i]];
      i := i + 1;
    }
    assert hits[..i] == hits;
    full := false;
  }

  lemma PageByPage<D>(index: seq<Hit<D>>, cursor: Option<int>, n: nat) returns (more: seq<Hit<D>>)
    requires n > 0
    ensures var hits := Search(index, cursor, n);
            && Pages(index, cursor, n) == hits + more
            && more == if |hits| < n then [] else Pages(index, Some(hits[n - 1].sort), n)
  {
    more := if |Search(index, cursor, n)| < n then [] else Pages(index, Some(Search(index, cursor, n)[n - 1].sort), n);
  }

  // ----- when paging is complete ---------------------------------------------------------------------------

  /** Exactly when the pages are the hits behind the cursor, up to a limit: on an index in weak order,
      when no page ends between equal sort tuples. */
  lemma {:induction false} PagesExactly<D>(index: seq<Hit<D>>, cursor: Option<int>, n: nat, limit: nat)
    requires Sorted(index) && n > 0
    ensures Prefix(Pages(index, cursor, n), limit) == Search(index, cursor, limit)
            <==> CleanCuts(Beyond(index, cursor), n, limit)
    decreases |Beyond(index, cursor)|
  {
    hide CleanCuts;
    if |Beyond(index, cursor)| < n {
      NoCuts(Beyond(index, cursor), n, limit);
    } else {
      var m, more := FullPage(index, cursor, n);
      PageMovesOn(index, cursor, n - 1);
      if limit > n { PagesExactly(index, Some(Beyond(index, cursor)[n - 1].sort), n, limit - n); }
      FromPageToPages(Beyond(index, cursor), n, m, more, limit);
    }
  }

  /** A full page: its hits, and what is read behind its last hit, which are the pages of the rest from
      `m` on. */
  lemma FullPage<D>(index: seq<Hit<D>>, cursor: Option<int>, n: nat) returns (m: nat, more: seq<Hit<D>>)
    requires Sorted(index) && 0 < n <= |Beyond(index, cursor)|
    ensures var rest := Beyond(index, cursor);
            && n <= m <= |rest|
            && (m < |rest| ==> rest[m].sort > rest[n - 1].sort) && (n < m ==> rest[n].sort == rest[n - 1].sort)
            && Beyond(index, Some(rest[n - 1].sort)) == rest[m..]
            && more == Pages(index, Some(rest[n - 1].sort), n)
            && Pages(index, cursor, n) == rest[..n] + more
            && (if m == |rest| then more == [] else more != [] && more[0] == rest[m])
  {
    m := NextPage(index, cursor, n);
    more := PageByPage(index, cursor, n);
    FirstHit(index, Some(Beyond(index, cursor)[n - 1].sort), n);
  }

  lemma FirstHit<D>(index: seq<Hit<D>>, cursor: Option<int>, n: nat)
    requires n > 0
    ensures var pages, rest := Pages(index, cursor, n), Beyond(index, cursor);
            if rest == [] then pages == [] else pages != [] && pages[0] == rest[0]
  {
    var more := PageByPage(index, cursor, n);
  }

  /** When `more` is right behind the first page, the whole is right exactly when that page ends well. */
  lemma FromPageToPages<D>(rest: seq<Hit<D>>, n: nat, m: nat, more: seq<Hit<D>>, limit: nat)
    requires 0 < n <= m <= |rest|
    requires m < |rest| ==> rest[m].sort > rest[n - 1].sort
    requires n < m ==> rest[n].sort == rest[n - 1].sort
    requires if m == |rest| then more == [] else more != [] && more[0] == rest[m]
    requires limit > n ==> (Prefix(more, limit - n) == Prefix(rest[m..], limit - n)
                            <==> CleanCuts(rest[m..], n, limit - n))
    ensures Prefix(rest[..n] + more, limit) == Prefix(rest, limit) <==> CleanCuts(rest, n, limit)
  {
    if limit <= n {
      NoCuts(rest, n, limit);
      InFirstPage(rest, n, more, limit);
    } else {
      PagesSplit(rest, n, more, limit);
      if m == n {
        CutsAfterFirst(rest, n, limit);
      } else {
        DirtyCut(rest, n, limit);
        Differs(rest, n, m, more, limit - n);
      }
    }
  }

  lemma InFirstPage<T>(rest: seq<T>, n: nat, more: seq<T>, limit: nat)
    requires limit <= n <= |rest|
    ensures Prefix(rest[..n] + more, limit) == Prefix(rest, limit)
  {
  }

  lemma PagesSplit<T>(rest: seq<T>, n: nat, more: seq<T>, limit: nat)
    requires n <= |rest| && n < limit
    ensures Prefix(rest[..n] + more, limit) == Prefix(rest, limit)
            <==> Prefix(more, limit - n) == Prefix(rest[n..], limit - n)
  {
    assert rest == rest[..n] + rest[n..];
    FirstPageKept(rest[..n], more, rest[n..], limit);
  }

  lemma DirtyCut<D>(rest: seq<Hit<D>>, n: nat, limit: nat)
    requires 0 < n < |rest| && n < limit && rest[n].sort == rest[n - 1].sort
    ensures !CleanCuts(rest, n, limit)
  {
    assert Cut(1, n) == n;
  }

  lemma Differs<D>(rest: seq<Hit<D>>, n: nat, m: nat, more: seq<Hit<D>>, limit: nat)
    requires n < m <= |rest| && limit > 0
    requires if m == |rest| then more == [] else more != [] && more[0].sort > rest[n].sort
    ensures Prefix(more, limit) != Prefix(rest[n..], limit)
  {
    assert Prefix(rest[n..], limit)[0] == rest[n];
    assert more != [] ==> Prefix(more, limit)[0] == more[0];
  }

  lemma FirstPageKept<T>(page: seq<T>, more: seq<T>, rest: seq<T>, limit: nat)
    requires |page| < limit
    ensures Prefix(page + more, limit) == Prefix(page + rest, limit)
            <==> Prefix(more, limit - |page|) == Prefix(rest, limit - |page|)
  {
    var n := |page|;
    assert Prefix(page + more, limit) == page + Prefix(more, limit - n);
    assert Prefix(page + rest, limit) == page + Prefix(rest, limit - n);
    assert (page + Prefix(more, limit - n))[n..] == Prefix(more, limit - n);
    assert (page + Prefix(rest, limit - n))[n..] == Prefix(rest, limit - n);
  }

  /** Behind the last hit of a full page lies the rest from `m` on, where the sort tuples grow. */
  lemma NextPage<D>(index: seq<Hit<D>>, cursor: Option<int>, n: nat) returns (m: nat)
    requires Sorted(index) && 0 < n <= |Beyond(index, cursor)|
    ensures var rest := Beyond(index, cursor);
            && n <= m <= |rest|
            && Beyond(index, Some(rest[n - 1].sort)) == rest[m..]
            && (m < |rest| ==> rest[m].sort > rest[n - 1].sort)
            && (n < m ==> rest[n].sort == rest[n - 1].sort)
  {
    var rest := Beyond(index, cursor);
    var key := rest[n - 1].sort;
    RestIsSorted(index, cursor);
    PageMovesOn(index, cursor, n - 1);
    LaterCursor(index, cursor, key);
    m := BeyondIsSuffix(rest, Some(key));
    assert m >= n by { assert m < n ==> After(rest[n - 1].sort, Some(key)); }
  }

  lemma RestIsSorted<D>(index: seq<Hit<D>>, cursor: Option<int>)
    requires Sorted(index)
    ensures Sorted(Beyond(index, cursor))
  {
    var p := BeyondIsSuffix(index, cursor);
  }

  /** Before the end of the first page nothing is cut. */
  lemma NoCuts<D>(rest: seq<Hit<D>>, n: nat, limit: nat)
    requires n > 0 && Min(limit, |rest|) <= n
    ensures CleanCuts(rest, n, limit)
  {
    forall k: nat {:trigger Cut(k, n)} | k > 0 ensures Cut(k, n) >= n { CutGrows(k, n); }
  }

  lemma CutGrows(k: nat, n: nat)
    requires k > 0
    ensures Cut(k, n) == Cut(k - 1, n) + n
  {
  }

  /** The cuts of the pages are the first one and those of the pages behind the first. */
  lemma CutsAfterFirst<D>(rest: seq<Hit<D>>, n: nat, limit: nat)
    requires 0 < n <= |rest| && n < limit && (n < |rest| ==> rest[n - 1].sort < rest[n].sort)
    ensures CleanCuts(rest, n, limit) <==> CleanCuts(rest[n..], n, limit - n)
  {
    assert Cut(1, n) == n;
    if CleanCuts(rest, n, limit) {
      forall k: nat {:trigger Cut(k, n)} | k > 0 && Cut(k, n) < Min(limit - n, |rest| - n)
        ensures rest[n..][Cut(k, n) - 1].sort < rest[n..][Cut(k, n)].sort
      {
        CutGrows(k + 1, n);
        CutGrows(k, n);
      }
    }
    if CleanCuts(rest[n..], n, limit - n) {
      forall k: nat {:trigger Cut(k, n)} | k > 0 && Cut(k, n) < Min(limit, |rest|)
        ensures rest[Cut(k, n) - 1].sort < rest[Cut(k, n)].sort
      {
        CutGrows(k, n);
        if k > 1 {
          CutGrows(k - 1, n);
          assert rest[n..][Cut(k - 1, n) - 1].sort < rest[n..][Cut(k - 1, n)].sort;
        }
      }
    }
  }

  /** Pages never hold more than there is behind the cursor. */
  lemma {:induction false} PagesAtMost<D>(index: seq<Hit<D>>, cursor: Option<int>, n: nat)
    requires Sorted(index) && n > 0
    ensures |Pages(index, cursor, n)| <= |Beyond(index, cursor)|
    decreases |Beyond(index, cursor)|
  {
    if |Beyond(index, cursor)| >= n {
      PageMovesOn(index, cursor, n - 1);
      var m := NextPage(index, cursor, n);
      PagesAtMost(index, Some(Beyond(index, cursor)[n - 1].sort), n);
    }
  }

  /** Without a limit: paging yields all of the hits behind the cursor exactly when every page ends
      between different sort tuples. */
  lemma PagingIsCompleteExactly<D>(index: seq<Hit<D>>, cursor: Option<int>, n: nat)
    requires Sorted(index) && n > 0
    ensures Pages(index, cursor, n) == Beyond(index, cursor)
            <==> CleanCuts(Beyond(index, cursor), n, |Beyond(index, cursor)|)
  {
    PagesExactly(index, cursor, n, |Beyond(index, cursor)|);
    PagesAtMost(index, cursor, n);
  }

  /** An index with a page that ends badly: the second of two hits with equal sort tuples is lost. */
  lemma EqualSortTuplesLoseHits<D>(a: D, b: D)
    ensures var index := [Hit(1, a), Hit(1, b)];
            && Sorted(index) && !CleanCuts(index, 1, 2)
            && Beyond(index, None) == index && Pages(index, None, 1) == [Hit(1, a)]
  {
    var index := [Hit(1, a), Hit(1, b)];
    assert index[1..] == [Hit(1, b)];
    assert Beyond(index[1..], None) == index[1..] && Beyond(index[1..], Some(1)) == [];
    assert Beyond(index, Some(1)) == [] && Search(index, None, 1) == [Hit(1, a)];
    DirtyCut(index, 1, 2);
  }

  /** Unique sort tuples are enough, whatever the page size. */
  lemma UniqueTuplesLoseNothing<D>(index: seq<Hit<D>>, cursor: Option<int>, n: nat)
    requires Ordered(index) && n > 0
    ensures Pages(index, cursor, n) == Beyond(index, cursor)
  {
    var m := BeyondIsSuffix(index, cursor);
    PagingIsCompleteExactly(index, cursor, n);
  }

  // ----- the pull ----------------------------------------------------------------------------------------

  /** The outbox: jobs keyed by content (the vector and the approved metadata), and one cursor. */
  datatype Outbox<D(==)> = Outbox(jobs: set<(D, string)>, cursor: Option<int>)

  /** The jobs of the valid vectors among some hits. */
  function JobsOf<D(==)>(hits: seq<Hit<D>>, valid: D -> bool, hash: string): set<(D, string)> {
    set h | h in hits && valid(h.doc) :: (h.doc, hash)
  }

  function LastSort<D>(hits: seq<Hit<D>>, cursor: Option<int>): Option<int> {
    if hits == [] then cursor else Some(hits[|hits| - 1].sort)
  }

  /** The outbox after some hits. */
  function Take<D(==)>(o: Outbox<D>, hits: seq<Hit<D>>, valid: D -> bool, hash: string): Outbox<D> {
    Outbox(o.jobs + JobsOf(hits, valid, hash), LastSort(hits, o.cursor))
  }

  /** The hits one pull sees: no page is larger than the limit. */
  function Pulled<D>(index: seq<Hit<D>>, cursor: Option<int>, pageSize: nat, limit: nat): seq<Hit<D>>
    requires pageSize > 0 && limit > 0
  {
    Prefix(Pages(index, cursor, Min(pageSize, limit)), limit)
  }

  /** One uninterrupted pull of at most `limit` hits. */
  function Pull<D(==)>(o: Outbox<D>, index: seq<Hit<D>>, valid: D -> bool, hash: string, limit: nat): Outbox<D> {
    Take(o, Search(index, o.cursor, limit), valid, hash)
  }

  lemma JobsOfConcat<D>(a: seq<Hit<D>>, b: seq<Hit<D>>, valid: D -> bool, hash: string)
    ensures JobsOf(a + b, valid, hash) == JobsOf(a, valid, hash) + JobsOf(b, valid, hash)
  {
    forall job ensures job in JobsOf(a + b, valid, hash) <==> job in JobsOf(a, valid, hash) + JobsOf(b, valid, hash) {
      if job in JobsOf(a + b, valid, hash) {
        var h :| h in a + b && valid(h.doc) && (h.doc, hash) == job;
        assert h in a || h in b;
      }
    }
  }

  /** Behind a cursor, an index that grew at its end has what it had and what was added. */
  lemma {:induction false} BeyondGrown<D>(index: seq<Hit<D>>, more: seq<Hit<D>>, cursor: Option<int>)
    ensures Beyond(index + more, cursor) == Beyond(index, cursor) + Beyond(more, cursor)
  {
    if index == [] {
      assert index + more == more;
    } else {
      assert (index + more)[1..] == index[1..] + more;
      BeyondGrown(index[1..], more, cursor);
    }
  }

  /** Two pulls in a row are one larger pull, also when the index grew in between. */
  lemma PullsCompose<D>(o: Outbox<D>, index: seq<Hit<D>>, grown: seq<Hit<D>>, valid: D -> bool, hash: string,
                        a: nat, b: nat)
    requires Ordered(grown) && index <= grown
    ensures var first := Min(a, |Beyond(index, o.cursor)|);
            Pull(Pull(o, index, valid, hash, a), grown, valid, hash, b) == Pull(o, grown, valid, hash, first + b)
  {
    PullOfGrown(o, index, grown, valid, hash, a);
    PullsComposeHere(o, grown, valid, hash, Min(a, |Beyond(index, o.cursor)|), b);
  }

  lemma PullOfGrown<D>(o: Outbox<D>, index: seq<Hit<D>>, grown: seq<Hit<D>>, valid: D -> bool, hash: string, a: nat)
    requires index <= grown
    ensures var n := Min(a, |Beyond(index, o.cursor)|);
            n <= |Beyond(grown, o.cursor)| && Pull(o, index, valid, hash, a) == Pull(o, grown, valid, hash, n)
  {
    var more := grown[|index|..];
    assert grown == index + more;
    SearchOfGrown(index, more, o.cursor, a);
  }

  lemma PullsComposeHere<D>(o: Outbox<D>, index: seq<Hit<D>>, valid: D -> bool, hash: string, n: nat, b: nat)
    requires Ordered(index) && n <= |Beyond(index, o.cursor)|
    ensures Pull(Pull(o, index, valid, hash, n), index, valid, hash, b) == Pull(o, index, valid, hash, n + b)
  {
    SearchesCompose(index, o.cursor, n, b);
    var taken := Search(index, o.cursor, n);
    var second := Search(index, LastSort(taken, o.cursor), b);
    JobsOfConcat(taken, second, valid, hash);
    LastSortOfConcat(taken, second, o.cursor);
    assert o.jobs + JobsOf(taken, valid, hash) + JobsOf(second, valid, hash)
           == o.jobs + (JobsOf(taken, valid, hash) + JobsOf(second, valid, hash));
  }

  lemma SearchOfGrown<D>(index: seq<Hit<D>>, more: seq<Hit<D>>, cursor: Option<int>, a: nat)
    ensures var n := Min(a, |Beyond(index, cursor)|);
            n <= |Beyond(index + more, cursor)| && Search(index, cursor, a) == Search(index + more, cursor, n)
  {
    BeyondGrown(index, more, cursor);
  }

  lemma SearchesCompose<D>(index: seq<Hit<D>>, cursor: Option<int>, n: nat, b: nat)
    requires Ordered(index) && n <= |Beyond(index, cursor)|
    ensures var taken := Search(index, cursor, n);
            var second := Search(index, LastSort(taken, cursor), b);
            taken + second == Search(index, cursor, n + b)
  {
    hide Ordered;
    var rest := Beyond(index, cursor);
    var taken := rest[..n];
    if n > 0 { BeyondHit(index, cursor, n - 1); }
    assert Beyond(index, LastSort(taken, cursor)) == rest[n..];
    var k := Min(b, |rest| - n);
    SliceTwice(rest, n, k);
    assert Search(index, LastSort(taken, cursor), b) == rest[n..][..k];
    assert Search(index, cursor, n + b) == rest[..n + k];
  }

  lemma LastSortOfConcat<D>(a: seq<Hit<D>>, b: seq<Hit<D>>, cursor: Option<int>)
    ensures LastSort(a + b, cursor) == LastSort(b, LastSort(a, cursor))
  {
    if b == [] { assert a + b == a; }
  }

  lemma SliceTwice<D>(s: seq<Hit<D>>, n: nat, k: nat)
    requires n + k <= |s|
    ensures s[..n] + s[n..][..k] == s[..n + k]
  {
  }

  /** A pull that stopped after any number of hits, before it stored its cursor, is repeated safely:
      the next pull of at least that many ends exactly as if there had been no attempt. */
  lemma InterruptedPullIsHarmless<D>(o: Outbox<D>, index: seq<Hit<D>>, valid: D -> bool, hash: string,
                                     seen: nat, limit: nat)
    requires seen <= limit
    ensures var stopped := Outbox(o.jobs + JobsOf(Search(index, o.cursor, seen), valid, hash), o.cursor);
            Pull(stopped, index, valid, hash, limit) == Pull(o, index, valid, hash, limit)
  {
    var some, all := Search(index, o.cursor, seen), Search(index, o.cursor, limit);
    PrefixSplits(all, seen);
    assert some == Prefix(all, seen);
    JobsOfConcat(some, all[|some|..], valid, hash);
  }

  /** What the cursor has passed is in the outbox. */
  ghost predicate NothingLost<D>(o: Outbox<D>, index: seq<Hit<D>>, valid: D -> bool, hash: string) {
    forall h :: h in index && !After(h.sort, o.cursor) && valid(h.doc) ==> (h.doc, hash) in o.jobs
  }

  lemma PullLosesNothing<D>(o: Outbox<D>, index: seq<Hit<D>>, valid: D -> bool, hash: string, limit: nat)
    requires Ordered(index) && NothingLost(o, index, valid, hash)
    ensures NothingLost(Pull(o, index, valid, hash, limit), index, valid, hash)
    ensures limit >= |Beyond(index, o.cursor)| ==>
              forall h :: h in index && valid(h.doc) ==> (h.doc, hash) in Pull(o, index, valid, hash, limit).jobs
  {
    var o' := Pull(o, index, valid, hash, limit);
    var hits := Search(index, o.cursor, limit);
    var rest := Beyond(index, o.cursor);
    forall h | h in index && valid(h.doc) && (limit >= |rest| || !After(h.sort, o'.cursor))
      ensures (h.doc, hash) in o'.jobs
    {
      if After(h.sort, o.cursor) {
        BeyondHas(index, o.cursor, h);
        if hits != [] { BeyondHit(index, o.cursor, |hits| - 1); }
        BeyondHas(index, o'.cursor, h);
        PrefixSplits(rest, limit);
        if limit >= |rest| { assert hits == rest; }
        assert h in hits;
      }
    }
  }

  /** The outbox of one worker. */
  class FeatureOutbox<D(==)> {
    var jobs: set<(D, string)>
    var cursor: Option<int>

    constructor ()
      ensures jobs == {} && cursor == None
    {
      jobs, cursor := {}, None;
    }

    function Value(): Outbox<D>
      reads this
    {
      Outbox(jobs, cursor)
    }

    /** A job is its content: the same vector under the same metadata is one job. */
    method Enqueue(vector: D, hash: string) returns (added: bool)
      modifies this`jobs
      ensures added == ((vector, hash) !in old(jobs)) && jobs == old(jobs) + {(vector, hash)}
      ensures |jobs| == |old(jobs)| + (if added then 1 else 0)
    {
      added := (vector, hash) !in jobs;
      if !added { assert jobs + {(vector, hash)} == jobs; }
      jobs := jobs + {(vector, hash)};
    }
  }

  datatype PullReport = PullReport(pulled: nat, added: nat, duplicates: nat, invalid: nat)

  /** One pull into the outbox. `faultAfter` is the number of hits after which
      the transport fails, if it does: the cursor is then not stored. */
  method PullFeatures<D(==)>(outbox: FeatureOutbox<D>, index: seq<Hit<D>>, valid: D -> bool, hash: string,
                             limit: int, pageSize: int, faultAfter: Option<nat>)
    returns (r: Result<PullReport>)
    modifies outbox
    ensures r.Ok? ==> && 1 <= limit <= 100000 && 1 <= pageSize
                      && outbox.Value() == Take(old(outbox.Value()),
                                                Pulled(index, old(outbox.cursor), pageSize, limit), valid, hash)
    ensures r.Ok? && Ordered(index) ==> outbox.Value() == Pull(old(outbox.Value()), index, valid, hash, limit)
    ensures r.Ok? ==> && r.value.pulled == |Pulled(index, old(outbox.cursor), pageSize, limit)|
                      && r.value.pulled == r.value.added + r.value.duplicates + r.value.invalid
                      && r.value.added == |outbox.jobs| - |old(outbox.jobs)|
    ensures r.Raised? ==>
              && outbox.cursor == old(outbox.cursor)
              && (outbox.jobs == old(outbox.jobs) || (1 <= limit && 1 <= pageSize &&
                    exists seen: nat {:trigger Prefix(Pulled(index, old(outbox.cursor), pageSize, limit), seen)} ::
                      outbox.jobs == old(outbox.jobs)
                        + JobsOf(Prefix(Pulled(index, old(outbox.cursor), pageSize, limit), seen), valid, hash)))
    ensures 1 <= limit <= 100000 && 1 <= pageSize <= 10000 && faultAfter.None? ==> r.Ok?
  {
    hide JobsOf, Pages;
    ghost var was := outbox.jobs;
    if !(1 <= limit <= 100000) { return Raised; }
    var hits, end := Scan(index, Min(pageSize, limit), None, outbox.cursor);
    if !end.Complete? { return Raised; }
    var report;
    report := TakeHits(outbox, hits, valid, hash, limit, faultAfter);
    ghost var pulled := Pulled(index, outbox.cursor, pageSize, limit);
    assert hits[..report.pulled] == Prefix(pulled, report.pulled);
    if faultAfter.Some? && faultAfter.value <= report.pulled { return Raised; }
    assert hits[..report.pulled] == pulled;
    if Ordered(index) { UniqueTuplesLoseNothing(index, outbox.cursor, Min(pageSize, limit)); }
    if report.pulled > 0 { outbox.cursor := Some(hits[report.pulled - 1].sort); }
    r := Ok(report);
  }

  /** Enqueue the valid vectors of the first hits, until the limit or the fault. */
  method TakeHits<D(==)>(outbox: FeatureOutbox<D>, hits: seq<Hit<D>>, valid: D -> bool, hash: string,
                         limit: nat, faultAfter: Option<nat>)
    returns (r: PullReport)
    modifies outbox`jobs
    ensures r.pulled == Min(Min(|hits|, limit), if faultAfter.Some? then faultAfter.value else limit)
    ensures outbox.jobs == old(outbox.jobs) + JobsOf(hits[..r.pulled], valid, hash)
    ensures r.pulled == r.added + r.duplicates + r.invalid && r.added == |outbox.jobs| - |old(outbox.jobs)|
  {
    ghost var was := outbox.jobs;
    var seen, added, duplicates, invalid := 0, 0, 0, 0;
    while seen < |hits| && seen < limit && faultAfter != Some(seen)
      invariant 0 <= seen <= Min(|hits|, limit) && (faultAfter.Some? ==> seen <= faultAfter.value)
      invariant outbox.jobs == JobsAfter(was, hits, seen, valid, hash)
      invariant seen == added + duplicates + invalid && added == |outbox.jobs| - |was|
      decreases |hits| - seen
    {
      var hit := hits[seen];
      JobsOfNext(was, hits, seen, valid, hash);
      seen := seen + 1;
      if valid(hit.doc) {
        var fits := outbox.Enqueue(hit.doc, hash);
        if fits { added := added + 1; } else { duplicates := duplicates + 1; }
      } else {
        invalid := invalid + 1;
      }
    }
    r := PullReport(seen, added, duplicates, invalid);
  }

  function JobsAfter<D(==)>(jobs: set<(D, string)>, hits: seq<Hit<D>>, n: nat, valid: D -> bool, hash: string)
    : set<(D, string)>
    requires n <= |hits|
  {
    jobs + JobsOf(hits[..n], valid, hash)
  }

  lemma JobsOfNext<D>(jobs: set<(D, string)>, hits: seq<Hit<D>>, n: nat, valid: D -> bool, hash: string)
    requires n < |hits|
    ensures JobsAfter(jobs, hits, 0, valid, hash) == jobs
    ensures valid(hits[n].doc) ==>
              JobsAfter(jobs, hits, n + 1, valid, hash) == JobsAfter(jobs, hits, n, valid, hash) + {(hits[n].doc, hash)}
    ensures !valid(hits[n].doc) ==>
              JobsAfter(jobs, hits, n + 1, valid, hash) == JobsAfter(jobs, hits, n, valid, hash)
  {
    assert hits[..n + 1] == hits[..n] + [hits[n]];
    JobsOfConcat(hits[..n], [hits[n]], valid, hash);
    assert hits[n] in [hits[n]];
  }
}
