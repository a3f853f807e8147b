/** The page-accumulating loops of the curator's fetcher, against any server. */
module Fetcher {
  import opened Pagination

  // One call of the news API: the articles of a page and the total it claims, or an error.
  datatype Reply<T> = Error | Ok(total: int, articles: seq<T>)

  // The reply to page 1, 2, 3, ...; each page is asked for once, so a server whose totals and
  // contents change from call to call is such a function too.
  type Server<!T> = nat -> Reply<T>

  datatype APIResponse<T> = APIResponse(total: nat, articles: seq<T>)

  // Pages 1 to `last`, one after the other, a failed page counting as empty.
  function Accumulated<T>(server: Server<T>, last: nat): seq<T> {
    if last == 0 then []
    else Accumulated(server, last - 1) + if server(last).Ok? then server(last).articles else []
  }

  // The loop ends with the call for this page.
  predicate Stops<T>(server: Server<T>, page: nat)
    requires page >= 1
  {
    server(page).Error? || |Accumulated(server, page)| >= server(page).total
  }

  predicate StopsFirst<T>(server: Server<T>, page: nat) {
    page >= 1 && Stops(server, page) && forall p :: 1 <= p < page ==> !Stops(server, p)
  }

  ghost predicate Terminates<T(!new)>(server: Server<T>) {
    exists page: nat :: page >= 1 && Stops(server, page)
  }

  /** The inner loop of FetchHeadlinesByCountry and of NewsDiscoveryByCategory. It needs no more
      than that the loop ends, and returns the pages up to the call it ends with. */
  method FetchPages<T(!new)>(server: Server<T>) returns (allArticles: seq<T>, calls: nat)
    requires Terminates(server)
    ensures StopsFirst(server, calls)
    ensures allArticles == Accumulated(server, calls)
  {
    ghost var stop: nat :| stop >= 1 && Stops(server, stop);
    allArticles := [];
    var page := 1;
    while true
      invariant 1 <= page <= stop
      invariant allArticles == Accumulated(server, page - 1)
      invariant forall p :: 1 <= p < page ==> !Stops(server, p)
      decreases stop - page
    {
      var response := server(page);
      if response.Error? { break; }
      allArticles := allArticles + response.articles;
      if |allArticles| >= response.total { break; }
      page := page + 1;
    }
    calls := page;
  }

  // The response made of the articles of a server's loop and their number.
  ghost predicate IsFetched<T(!new)>(server: Server<T>, r: APIResponse<T>) {
    exists calls :: StopsFirst(server, calls) && r.articles == Accumulated(server, calls) && r.total == |r.articles|
  }

  // Names i+1 to n-1 are all different from name i.
  predicate IsLast(names: seq<string>, i: nat, n: nat)
    requires i < n <= |names|
  {
    forall j :: i < j < n ==> names[j] != names[i]
  }

  function Named(names: seq<string>, n: nat): set<string>
    requires n <= |names|
  {
    set i | 0 <= i < n :: names[i]
  }

  // The first n names, and no others, have a response: that of the last server asked under the name.
  ghost predicate AllFetched<T(!new)>(names: seq<string>, servers: nat -> Server<T>,
                                      responses: map<string, APIResponse<T>>, n: nat)
    requires n <= |names|
  {
    && responses.Keys == Named(names, n)
    && (forall i :: 0 <= i < n && IsLast(names, i, n) ==>
          names[i] in responses && IsFetched(servers(i), responses[names[i]]))
  }

  lemma OneMoreFetched<T(!new)>(names: seq<string>, servers: nat -> Server<T>, responses: map<string, APIResponse<T>>,
                                n: nat, r: APIResponse<T>)
    requires n < |names| && AllFetched(names, servers, responses, n) && IsFetched(servers(n), r)
    ensures AllFetched(names, servers, responses[names[n] := r], n + 1)
  {
    assert Named(names, n + 1) == Named(names, n) + {names[n]};
    hide IsFetched, Named;
    var after := responses[names[n] := r];
    forall i | 0 <= i < n + 1 && IsLast(names, i, n + 1)
      ensures names[i] in after && IsFetched(servers(i), after[names[i]])
    {
      assert i < n ==> IsLast(names, i, n) && names[n] != names[i];
    }
  }

  /** Each country, or category, gets the articles of its own loop and their number; of two equal
      names in the list the later one counts. */
  method FetchAll<T(!new)>(names: seq<string>, servers: nat -> Server<T>)
    returns (responses: map<string, APIResponse<T>>)
    requires forall i :: 0 <= i < |names| ==> Terminates(servers(i))
    ensures AllFetched(names, servers, responses, |names|)
  {
    responses := map[];
    for n := 0 to |names|
      invariant AllFetched(names, servers, responses, n)
    {
      var articles, calls := FetchPages(servers(n));
      var response := APIResponse(|articles|, articles);
      assert IsFetched(servers(n), response);
      OneMoreFetched(names, servers, responses, n, response);
      responses := responses[names[n] := response];
    }
  }

  lemma StopsFirstIsUnique<T>(server: Server<T>, p: nat, q: nat)
    requires StopsFirst(server, p) && StopsFirst(server, q)
    ensures p == q
  {
  }

  // ---------- Fetching undoes paginating ----------

  // A server that serves a fixed list in pages of size k, failing from page `broken` on.
  function PagingServer<T>(articles: seq<T>, k: nat, broken: nat): Server<T> {
    (page: nat) => if page == 0 || page >= broken then Error else Ok(|articles|, Page(articles, page, k))
  }

  lemma {:induction false} AccumulatedIsPages<T>(articles: seq<T>, k: nat, broken: nat, last: nat)
    requires last < broken
    ensures Accumulated(PagingServer(articles, k, broken), last) == PagesUpTo(articles, last, k)
  {
    if last > 0 {
      AccumulatedIsPages(articles, k, broken, last - 1);
    }
  }

  function Max(least: nat, n: int): nat { if least > n then least else n }

  /** The loop makes exactly max(1, ceil(n/k)) calls and rebuilds the list in order; if a call
      fails first, it keeps exactly the pages before it. */
  lemma FetchUndoesPaginate<T(!new)>(articles: seq<T>, k: nat, broken: nat, calls: nat)
    requires k >= 1 && broken >= 1
    ensures var server := PagingServer(articles, k, broken);
      && Terminates(server)
      && (StopsFirst(server, calls) ==>
            if broken <= PageCount(|articles|, k)
            then calls == broken && Accumulated(server, calls) == PagesUpTo(articles, broken - 1, k)
            else if broken == 1 then calls == 1 && Accumulated(server, calls) == []
            else calls == Max(1, PageCount(|articles|, k)) && Accumulated(server, calls) == articles)
  {
    var server, last := PagingServer(articles, k, broken), PageCount(|articles|, k);
    var stop := if broken <= last || broken == 1 then broken else Max(1, last);
    forall p | 1 <= p < broken ensures Stops(server, p) <==> p >= last {
      AccumulatedIsPages(articles, k, broken, p);
      PrefixLength(articles, k, p);
    }
    AccumulatedIsPages(articles, k, broken, stop - 1);
    if stop < broken {
      AccumulatedIsPages(articles, k, broken, stop);
      PrefixLength(articles, k, stop);
    }
    assert StopsFirst(server, stop);
    if StopsFirst(server, calls) {
      StopsFirstIsUnique(server, calls, stop);
    }
  }

  lemma PrefixLength<T>(articles: seq<T>, k: nat, p: nat)
    requires k >= 1 && p >= 1
    ensures |PagesUpTo(articles, p, k)| >= |articles| <==> p >= PageCount(|articles|, k)
    ensures p >= PageCount(|articles|, k) ==> PagesUpTo(articles, p, k) == articles
  {
    var last := PageCount(|articles|, k);
    PagesArePrefix(articles, p, k);
    CountBounds(|articles|, k);
    if p < last {
      MulMonotone(p, last - 1, k);
      MulSuccessor(last - 1, k);
    } else {
      MulMonotone(last, p, k);
    }
  }

  // ---------- Termination against any server ----------

  // Totals stay within a bound, and a page that does not end the loop brings an article.
  ghost predicate Cooperative<T>(server: Server<T>, bound: nat) {
    forall p: nat :: p >= 1 && server(p).Ok? ==>
      server(p).total <= bound && (!Stops(server, p) ==> server(p).articles != [])
  }

  lemma {:induction false} LoopProgress<T>(server: Server<T>, bound: nat, page: nat)
    requires Cooperative(server, bound)
    requires forall p :: 1 <= p <= page ==> !Stops(server, p)
    ensures page <= |Accumulated(server, page)|
    ensures page >= 1 ==> page < bound
  {
    if page > 0 {
      LoopProgress(server, bound, page - 1);
      assert !Stops(server, page);
      assert server(page).Ok?;
    }
  }

  /** The loop terminates, within `bound` calls when there is anything to fetch, for every server
      whose totals stay within `bound` and whose pages, but the last asked for, are not empty. */
  lemma CooperativeTerminates<T(!new)>(server: Server<T>, bound: nat)
    requires Cooperative(server, bound)
    ensures Terminates(server)
    ensures exists page :: 1 <= page <= Max(1, bound) && Stops(server, page)
  {
    if forall p :: 1 <= p <= Max(1, bound) ==> !Stops(server, p) {
      LoopProgress(server, bound, Max(1, bound));
      assert false;
    }
  }

  // Totals stay within a bound, as those of any finite integer type do.
  ghost predicate Bounded<T>(server: Server<T>, bound: int) {
    forall p: nat :: p >= 1 && server(p).Ok? ==> server(p).total <= bound
  }

  /** No page up to n ends the loop, and every later one is empty and claims more articles than the
      first n brought. */
  ghost predicate Stuck<T>(server: Server<T>, n: nat) {
    && (forall p :: 1 <= p <= n ==> !Stops(server, p))
    && forall p: nat :: p > n ==>
         server(p).Ok? && server(p).articles == [] && server(p).total > |Accumulated(server, n)|
  }

  lemma {:induction false} StuckStays<T>(server: Server<T>, n: nat, p: nat)
    requires Stuck(server, n) && p >= n
    ensures Accumulated(server, p) == Accumulated(server, n)
    ensures p > n ==> !Stops(server, p)
    decreases p
  {
    if p > n {
      StuckStays(server, n, p - 1);
    }
  }

  lemma {:induction false} AccumulatedGrows<T>(server: Server<T>, n: nat, p: nat)
    requires n <= p
    ensures |Accumulated(server, n)| <= |Accumulated(server, p)|
    decreases p
  {
    if n < p {
      AccumulatedGrows(server, n, p - 1);
    }
  }

  // A loop that never ends runs out of articles after some page.
  lemma {:induction false} RunsDry<T(!new)>(server: Server<T>, bound: int, n: nat) returns (m: nat)
    requires Bounded(server, bound) && !Terminates(server)
    ensures Stuck(server, m)
    decreases bound - |Accumulated(server, n)|
  {
    assert !Stops(server, n + 1);
    if p: nat :| p > n && server(p).Ok? && server(p).articles != [] {
      AccumulatedGrows(server, n, p - 1);
      assert !Stops(server, p);
      m := RunsDry(server, bound, p);
    } else {
      m := n;
      forall p: nat | p > n
        ensures server(p).Ok? && server(p).articles == [] && server(p).total > |Accumulated(server, n)|
      {
        assert !Stops(server, p);
        AccumulatedGrows(server, n, p);
      }
    }
  }

  /** For every server with bounded totals, the loop never ends if and only if from some page on the
      server sends nothing and claims more than it has sent. */
  lemma NeverEndsIff<T(!new)>(server: Server<T>, bound: int)
    requires Bounded(server, bound)
    ensures !Terminates(server) <==> exists n: nat :: Stuck(server, n)
  {
    if n: nat :| Stuck(server, n) {
      forall page: nat | page >= 1 ensures !Stops(server, page) {
        if page > n { StuckStays(server, n, page); }
      }
    } else if !Terminates(server) {
      var m := RunsDry(server, bound, 0);
    }
  }

  // ---------- A total that does not match the list ----------

  // A server that serves a fixed list in pages of size k and claims some total.
  function ClaimingServer<T>(articles: seq<T>, k: nat, claimed: int): Server<T> {
    (page: nat) => if page == 0 then Error else Ok(claimed, Page(articles, page, k))
  }

  lemma {:induction false} ClaimingIsPages<T>(articles: seq<T>, k: nat, claimed: int, last: nat)
    ensures Accumulated(ClaimingServer(articles, k, claimed), last) == PagesUpTo(articles, last, k)
  {
    if last > 0 {
      ClaimingIsPages(articles, k, claimed, last - 1);
    }
  }

  // When the pages reach a number of articles that the list has.
  lemma PagesReach<T>(articles: seq<T>, k: nat, claimed: nat, p: nat)
    requires k >= 1 && claimed <= |articles|
    ensures |PagesUpTo(articles, p, k)| >= claimed <==> p >= PageCount(claimed, k)
  {
    var last := PageCount(claimed, k);
    PagesArePrefix(articles, p, k);
    CountBounds(claimed, k);
    hide PageCount, PagesUpTo;
    if p < last {
      MulMonotone(p, last - 1, k);
      MulSuccessor(last - 1, k);
    } else {
      MulMonotone(last, p, k);
    }
  }

  /** Against a server that serves a fixed list and claims a total, the loop ends if and only if the
      total is not more than the list has. Then it makes max(1, ceil(claimed/k)) calls and returns
      their pages: a total that is too low cuts the list off after the page that reaches it. */
  lemma ClaimedTotalIff<T(!new)>(articles: seq<T>, k: nat, claimed: int, calls: nat)
    requires k >= 1
    ensures var server := ClaimingServer(articles, k, claimed);
      && (Terminates(server) <==> claimed <= |articles|)
      && (StopsFirst(server, calls) ==>
            && calls == Max(1, PageCount(Max(0, claimed), k))
            && Accumulated(server, calls) == PagesUpTo(articles, calls, k))
  {
    var server, least := ClaimingServer(articles, k, claimed), Max(0, claimed);
    forall p: nat | p >= 1
      ensures claimed > |articles| ==> !Stops(server, p)
      ensures claimed <= |articles| ==> (Stops(server, p) <==> p >= PageCount(least, k))
    {
      ClaimingIsPages(articles, k, claimed, p);
      PagesArePrefix(articles, p, k);
      hide PageCount, PagesUpTo, Page;
      if claimed <= |articles| { PagesReach(articles, k, least, p); }
    }
    ClaimingIsPages(articles, k, claimed, calls);
    hide PageCount, PagesUpTo, Page, Stops, Accumulated;
    var stop := Max(1, PageCount(least, k));
    if claimed <= |articles| {
      assert StopsFirst(server, stop);
      if StopsFirst(server, calls) { StopsFirstIsUnique(server, calls, stop); }
    }
  }

  /** The smallest such server claims one article and never sends it. */
  lemma {:induction false} EmptyPagesNeverStop<T(!new)>(page: nat)
    ensures var server: Server<T> := (p: nat) => Ok(1, []);
      Accumulated(server, page) == [] && (page >= 1 ==> !Stops(server, page))
  {
    if page > 0 {
      EmptyPagesNeverStop<T>(page - 1);
    }
  }
}
