/** The pagination loop of the repository listing, over an abstract page source: a
    function that sends the request for a page and returns the page's entries or the
    transport failure. Pages are numbered from 1. */
module Pagination {
  import opened Wrappers

  /** The elements of a page, as `HashSet.addAll` collects them. */
  function ElementSet<T(==)>(page: seq<T>): set<T> {
    set x | x in page
  }

  /** A page never yields more distinct elements than it has entries. */
  lemma {:induction false} ElementSetSize<T>(page: seq<T>)
    ensures |ElementSet(page)| <= |page|
    decreases |page|
  {
    if page != [] {
      var init := page[..|page| - 1];
      assert page == init + [page[|page| - 1]];
      assert ElementSet(page) == ElementSet(init) + {page[|page| - 1]};
      ElementSetSize(init);
    }
  }

  lemma UnionSize<T>(a: set<T>, b: set<T>)
    ensures |a + b| <= |a| + |b|
  {
  }

  lemma SharedUnionSize<T>(a: set<T>, b: set<T>, x: T)
    requires x in a && x in b
    ensures |a + b| < |a| + |b|
  {
    assert x in a * b;
    assert |a + b| + |a * b| == |a| + |b|;
  }

  /** `send` performs one remote call; `request` builds the call for a page number. */
  datatype PageSource<!R, T(==), E> = PageSource(send: R -> Result<seq<T>, E>, request: nat -> R) {

    /** What the server answers for page `p`. */
    function Page(p: nat): Result<seq<T>, E> {
      send(request(p))
    }

    /** Page `p` ends the listing: it failed or came back empty. */
    predicate Stops(p: nat) {
      Page(p).Failure? || |Page(p).value| == 0
    }

    /** `k` is the first page, counting from 1, that ends the listing. */
    predicate FirstStop(k: nat) {
      k >= 1 && Stops(k) && forall p :: 1 <= p < k ==> !Stops(p)
    }

    /** Some page ends the listing; without one the loop never terminates. */
    ghost predicate EventuallyStops() {
      exists k: nat :: k >= 1 && Stops(k)
    }

    /** Pages 1..k all came back. */
    predicate PagesSucceed(k: nat) {
      forall p :: 1 <= p <= k ==> Page(p).Success?
    }

    /** The distinct entries of pages 1..k. */
    function PagesUnion(k: nat): set<T>
      requires PagesSucceed(k)
    {
      if k == 0 then {} else PagesUnion(k - 1) + ElementSet(Page(k).value)
    }

    /** The number of entries, duplicates included, on pages 1..k. */
    function ListedCount(k: nat): nat
      requires PagesSucceed(k)
    {
      if k == 0 then 0 else ListedCount(k - 1) + |Page(k).value|
    }

    /** The pages before a page that does not end the listing all came back. */
    lemma StopsBeforeSucceed(k: nat)
      requires k >= 1 && forall p :: 1 <= p < k ==> !Stops(p)
      ensures PagesSucceed(k - 1)
    {
      forall p | 1 <= p <= k - 1
        ensures Page(p).Success?
      {
        assert !Stops(p);
      }
    }

    /** The outcome of a listing whose first ending page is `k`: the failure of page
        k, or the distinct entries of the pages before it. */
    function Listing(k: nat): Result<set<T>, E>
      requires FirstStop(k)
    {
      if Page(k).Failure? then Failure(Page(k).error)
      else
        assert PagesSucceed(k - 1) by { StopsBeforeSucceed(k); }
        Success(PagesUnion(k - 1))
    }

    /** The first ending page is unique: the number of requests is fixed by the
        server's answers. */
    lemma FirstStopUnique(k1: nat, k2: nat)
      requires FirstStop(k1) && FirstStop(k2)
      ensures k1 == k2
    {
    }

    /** An entry is in the union of pages 1..k exactly when it is on one of them. */
    lemma {:induction false} PagesUnionMembership(k: nat, x: T)
      requires PagesSucceed(k)
      ensures x in PagesUnion(k) <==> exists p :: 1 <= p <= k && x in Page(p).value
      decreases k
    {
      if k > 0 {
        PagesUnionMembership(k - 1, x);
        if x in Page(k).value {
          assert 1 <= k <= k && x in Page(k).value;
        }
      }
    }

    /** The union never has more entries than the pages together. */
    lemma {:induction false} PagesUnionSize(k: nat)
      requires PagesSucceed(k)
      ensures |PagesUnion(k)| <= ListedCount(k)
      decreases k
    {
      if k > 0 {
        PagesUnionSize(k - 1);
        ElementSetSize(Page(k).value);
        UnionSize(PagesUnion(k - 1), ElementSet(Page(k).value));
      }
    }

    /** An entry listed on two different pages is kept once: the union has fewer
        entries than the pages together. */
    lemma {:induction false} RepeatedEntryCollapses(k: nat, p1: nat, p2: nat, x: T)
      requires PagesSucceed(k)
      requires 1 <= p1 < p2 <= k
      requires x in Page(p1).value && x in Page(p2).value
      ensures |PagesUnion(k)| < ListedCount(k)
      decreases k
    {
      var a, b := PagesUnion(k - 1), ElementSet(Page(k).value);
      ElementSetSize(Page(k).value);
      if k == p2 {
        PagesUnionMembership(k - 1, x);
        PagesUnionSize(k - 1);
        SharedUnionSize(a, b, x);
      } else {
        RepeatedEntryCollapses(k - 1, p1, p2, x);
        UnionSize(a, b);
      }
    }
  }

  /** Requests pages 1, 2, 3, ... in order, adds the entries of each non-empty page to
      a set, and stops at the first page that is empty (returning the set) or fails
      (returning the failure, with no partial set). */
  method CollectPages<R, T(==), E>(source: PageSource<R, T, E>) returns (result: Result<set<T>, E>, requests: seq<R>)
    requires source.EventuallyStops()
    ensures source.FirstStop(|requests|)
    ensures forall i :: 0 <= i < |requests| ==> requests[i] == source.request(i + 1)
    ensures result == source.Listing(|requests|)
    ensures result.Success? ==> forall x :: x in result.value <==>
      exists p :: 1 <= p < |requests| && source.Page(p).Success? && x in source.Page(p).value
  {
    ghost var bound: nat :| bound >= 1 && source.Stops(bound);
    var all: set<T> := {};
    var pageNumber: nat := 1;
    var sent := source.request(pageNumber);
    var page := source.send(sent);
    requests := [sent];
    while page.Success? && |page.value| != 0
      invariant 1 <= pageNumber <= bound
      invariant |requests| == pageNumber
      invariant forall i :: 0 <= i < |requests| ==> requests[i] == source.request(i + 1)
      invariant forall p :: 1 <= p < pageNumber ==> !source.Stops(p)
      invariant page == source.Page(pageNumber)
      invariant source.PagesSucceed(pageNumber - 1) && all == source.PagesUnion(pageNumber - 1)
      decreases bound - pageNumber
    {
      assert !source.Stops(pageNumber);
      source.StopsBeforeSucceed(pageNumber + 1);
      pageNumber := pageNumber + 1;
      all := all + ElementSet(page.value);
      sent := source.request(pageNumber);
      page := source.send(sent);
      requests := requests + [sent];
    }
    if page.Failure? {
      result := Failure(page.error);
    } else {
      result := Success(all);
      forall x
        ensures x in all <==> exists p :: 1 <= p < |requests| && source.Page(p).Success? && x in source.Page(p).value
      {
        source.PagesUnionMembership(pageNumber - 1, x);
      }
    }
  }
}
