/** What feed-api makes of the two values the curator publishes: listings, the lookup of one
    article in both values, and a lookup that overlaps a publication. */
module Publication {
  import opened Wrappers
  import opened Pagination
  import opened Summarizer

  // A published value, decoded: the articles of each country or category.
  type News = map<string, seq<Summarized>>

  ghost predicate Lists(news: News, a: Summarized) {
    exists c :: c in news && a in news[c]
  }

  ghost predicate HasId(news: Option<News>, id: string) {
    news.Some? && exists a: Summarized :: Lists(news.value, a) && a.stockicID == id
  }

  /** What a lookup may return: an article of the headlines with this ID, else one of the discover
      news, else nothing. A value that does not decode counts as empty. */
  ghost predicate IsLookup(id: string, headlines: Option<News>, discover: Option<News>, r: Option<Summarized>) {
    match r
    case None => !HasId(headlines, id) && !HasId(discover, id)
    case Some(a) =>
      && a.stockicID == id
      && ((headlines.Some? && Lists(headlines.value, a)) ||
          (!HasId(headlines, id) && discover.Some? && Lists(discover.value, a)))
  }

  // The two nested loops over one map, in any order of its keys.
  method SearchNews(id: string, news: News) returns (r: Option<Summarized>)
    ensures r.None? ==> !HasId(Some(news), id)
    ensures r.Some? ==> r.value.stockicID == id && Lists(news, r.value)
  {
    var left := news.Keys;
    while left != {}
      invariant left <= news.Keys
      invariant forall c, a :: c in news && c !in left && a in news[c] ==> a.stockicID != id
      decreases left
    {
      var c :| c in left;
      for i := 0 to |news[c]|
        invariant forall a :: a in news[c][..i] ==> a.stockicID != id
      {
        if news[c][i].stockicID == id {
          return Some(news[c][i]);
        }
        assert news[c][..i + 1] == news[c][..i] + [news[c][i]];
      }
      assert news[c][..|news[c]|] == news[c];
      left := left - {c};
    }
    return None;
  }

  method FindArticleByID(id: string, headlines: Option<News>, discover: Option<News>) returns (r: Option<Summarized>)
    ensures IsLookup(id, headlines, discover, r)
    ensures r.None? <==> !HasId(headlines, id) && !HasId(discover, id)
  {
    r := None;
    if headlines.Some? {
      r := SearchNews(id, headlines.value);
      if r.Some? { return; }
    }
    if discover.Some? {
      r := SearchNews(id, discover.value);
    }
  }

  ghost predicate IdsTellApart(news: Option<News>) {
    news.Some? ==> forall a, b :: Lists(news.value, a) && Lists(news.value, b) && a != b ==> a.stockicID != b.stockicID
  }

  // Made by one of the summarizers.
  ghost predicate MadeByCurator(news: News, cfg: Config) {
    forall a :: Lists(news, a) ==> Stamped(a, cfg)
  }

  /** Without hash collisions, the IDs tell the published articles apart if and only if any two with
      the same concatenation of fields have fields of the same widths. */
  lemma IdsTellApartIff(news: News, cfg: Config)
    requires Injective(cfg.sha) && MadeByCurator(news, cfg)
    ensures IdsTellApart(Some(news)) <==>
      forall a, b :: Lists(news, a) && Lists(news, b) && Fields(a) == Fields(b) ==> SameWidths(a, b)
  {
    hide Fields, Lists, Injective, SameWidths, Stamped;
    forall a, b | Lists(news, a) && Lists(news, b)
      ensures a.stockicID == b.stockicID <==> Fields(a) == Fields(b)
      ensures Fields(a) == Fields(b) ==> (SameWidths(a, b) <==> a == b)
    {
      SameIdIff(a, b, cfg);
    }
  }

  /** Where different articles of one value have different IDs, the answer does not depend on the
      order in which the maps are visited. */
  lemma LookupIsUnique(id: string, headlines: Option<News>, discover: Option<News>,
                       r: Option<Summarized>, r': Option<Summarized>)
    requires IsLookup(id, headlines, discover, r) && IsLookup(id, headlines, discover, r')
    requires IdsTellApart(headlines) && IdsTellApart(discover)
    ensures r == r'
  {
    if HasId(headlines, id) {
      assert r.Some? && r'.Some?;
    }
  }

  // ---------- Listings ----------

  ghost predicate Serves(articles: seq<Summarized>, page: int, pageSize: int, a: Summarized) {
    var response := PaginateArticles(articles, page, pageSize);
    response.Some? && a in response.value.articles
  }

  /** Every article served on any page of any listing, the headlines of "us" or one category of the
      discover news, machine arithmetic and all, has an ID that the detail lookup over the same two
      values finds. */
  lemma ListedIsFound(headlines: News, discover: News, category: string, page: int, pageSize: int,
                      a: Summarized, r: Option<Summarized>)
    requires IsLookup(a.stockicID, Some(headlines), Some(discover), r)
    ensures ("us" in headlines && Serves(headlines["us"], page, pageSize, a)) ||
            (category in discover && Serves(discover[category], page, pageSize, a)) ==>
      r.Some? && r.value.stockicID == a.stockicID
  {
    if "us" in headlines && Serves(headlines["us"], page, pageSize, a) {
      ServedIsListed(headlines["us"], page, pageSize, a);
      assert Lists(headlines, a);
      assert HasId(Some(headlines), a.stockicID);
    } else if category in discover && Serves(discover[category], page, pageSize, a) {
      ServedIsListed(discover[category], page, pageSize, a);
      assert Lists(discover, a);
      assert HasId(Some(discover), a.stockicID);
    }
  }

  lemma ServedIsListed(articles: seq<Summarized>, page: int, pageSize: int, a: Summarized)
    ensures Serves(articles, page, pageSize, a) ==> a in articles
  {
  }

  // ---------- A lookup that overlaps publications ----------

  // The two Redis values at one moment.
  datatype Published = Published(headlines: Option<News>, discover: Option<News>)

  // Each SET replaces one of the values; the curator makes one for headlines, then one for
  // discover, and may stop in between.
  ghost predicate OneSet(p: Published, q: Published) {
    p.headlines == q.headlines || p.discover == q.discover
  }

  ghost predicate IsHistory(moments: seq<Published>) {
    forall i :: 0 <= i < |moments| - 1 ==> OneSet(moments[i], moments[i + 1])
  }

  ghost predicate StoredThroughout(moments: seq<Published>, i: nat, j: nat, id: string)
    requires i <= j < |moments|
  {
    forall k :: i <= k <= j ==> HasId(moments[k].headlines, id) || HasId(moments[k].discover, id)
  }

  // The detail request reads headlines at moment i and discover at moment j.
  ghost predicate IsDetail(moments: seq<Published>, i: nat, j: nat, id: string, r: Option<Summarized>)
    requires i <= j < |moments|
  {
    IsLookup(id, moments[i].headlines, moments[j].discover, r)
  }

  /** The first step of the span at which the headlines gain the ID. */
  lemma {:induction false} GainsHeadline(moments: seq<Published>, i: nat, j: nat, id: string) returns (k: nat)
    requires i <= j < |moments| && !HasId(moments[i].headlines, id) && HasId(moments[j].headlines, id)
    ensures i <= k < j && HasId(moments[k + 1].headlines, id)
    ensures forall m :: i <= m <= k ==> !HasId(moments[m].headlines, id)
    decreases j - i
  {
    hide HasId;
    if HasId(moments[i + 1].headlines, id) {
      k := i;
    } else {
      k := GainsHeadline(moments, i + 1, j, id);
    }
  }

  /** The last step of the span at which the discover news lose the ID. */
  lemma {:induction false} LosesDiscover(moments: seq<Published>, i: nat, j: nat, id: string) returns (k: nat)
    requires i <= j < |moments| && HasId(moments[i].discover, id) && !HasId(moments[j].discover, id)
    ensures i <= k < j && HasId(moments[k].discover, id) && !HasId(moments[k + 1].discover, id)
    decreases j - i
  {
    hide HasId;
    if HasId(moments[i + 1].discover, id) {
      k := LosesDiscover(moments, i + 1, j, id);
    } else {
      k := i;
    }
  }

  /** An article that is stored at every moment of a request, in one value or the other, is missed
      only when two publications fall between the two reads: first headlines gain it, then discover
      loses it. So a request that overlaps at most one SET never misses it, and neither does one
      during which it stays in the headlines, or in the discover news. */
  lemma MissNeedsTwoSets(moments: seq<Published>, i: nat, j: nat, id: string, r: Option<Summarized>)
    returns (k: nat, m: nat)
    requires IsHistory(moments) && i <= j < |moments| && StoredThroughout(moments, i, j, id)
    requires IsDetail(moments, i, j, id, r) && r.None?
    ensures i <= k < m < j
    ensures !HasId(moments[k].headlines, id) && HasId(moments[k + 1].headlines, id)
    ensures HasId(moments[m].discover, id) && !HasId(moments[m + 1].discover, id)
  {
    hide HasId;
    assert HasId(moments[i].discover, id) && HasId(moments[j].headlines, id);
    k := GainsHeadline(moments, i, j, id);
    assert HasId(moments[k].discover, id);
    assert OneSet(moments[k], moments[k + 1]);
    m := LosesDiscover(moments, k + 1, j, id);
  }

  // A request with its reads at moments i and j can miss the ID although it is stored all the while.
  ghost predicate Missed(moments: seq<Published>, i: nat, j: nat, id: string)
    requires i <= j < |moments|
  {
    StoredThroughout(moments, i, j, id) && IsDetail(moments, i, j, id, None)
  }

  // Headlines gain the ID after moment k and discover loses it after m, with it stored throughout.
  ghost predicate Crossed(moments: seq<Published>, k: nat, m: nat, id: string)
    requires k < m && m + 1 < |moments|
  {
    && StoredThroughout(moments, k, m + 1, id)
    && !HasId(moments[k].headlines, id) && HasId(moments[k + 1].headlines, id)
    && HasId(moments[m].discover, id) && !HasId(moments[m + 1].discover, id)
  }

  /** A history has two moments at which the reads of a request miss an ID that is stored all the
      while if and only if at some step headlines gain it and at a later one discover loses it. */
  lemma MissIff(moments: seq<Published>, id: string)
    requires IsHistory(moments)
    ensures (exists i: nat, j: nat :: i <= j < |moments| && Missed(moments, i, j, id)) <==>
            (exists k: nat, m: nat :: k < m && m + 1 < |moments| && Crossed(moments, k, m, id))
  {
    hide HasId;
    if i: nat, j: nat :| i <= j < |moments| && Missed(moments, i, j, id) {
      var k, m := MissNeedsTwoSets(moments, i, j, id, None);
      assert Crossed(moments, k, m, id);
    }
    if k: nat, m: nat :| k < m && m + 1 < |moments| && Crossed(moments, k, m, id) {
      assert Missed(moments, k, m + 1, id);
    }
  }

  /** Such a miss happens: the curator moves an article from discover to headlines while a request
      is between its reads; it was stored all the time. */
  lemma MissHappens(a: Summarized)
    ensures var empty, full := map["us" := []], map["us" := [a]];
      var before, after := Published(Some(empty), Some(full)), Published(Some(full), Some(empty));
      var moments := [before, Published(Some(full), Some(full)), after];
      && IsHistory(moments)
      && StoredThroughout(moments, 0, 2, a.stockicID)
      && IsDetail(moments, 0, 2, a.stockicID, None)
  {
    var full := map["us" := [a]];
    assert "us" in full && a in full["us"];
    assert Lists(full, a);
    assert HasId(Some(full), a.stockicID);
  }
}
