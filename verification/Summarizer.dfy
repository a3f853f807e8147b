/** The curator's two summarizers. Both filter and normalise articles and give them content-hash
    IDs; the discover one keeps a single Go slice across categories, so that what it stores for
    one category shares a backing array with what it appends later. */
module Summarizer {

  datatype Article = Article(sourceName: string, author: string, title: string, url: string,
                             urlToImage: string, publishedAt: string, content: string)

  datatype Summarized = Summarized(stockicID: string, source: string, author: string, title: string, url: string,
                                   urlToImage: string, publishedAt: string, content: string,
                                   companyTags: seq<string>, highlights: seq<(int, int)>)

  datatype Feed = Feed(total: nat, articles: seq<Summarized>)

  const TAGS := ["Nvidia", "Google"]
  const HIGHLIGHTS := [(1, 5), (7, 10)]

  // The image each summarizer puts on articles of The Washington Post.
  datatype Config = Config(postImage: string, sha: string -> string)

  // What the ID is the hash of: seven fields with nothing between them.
  function Fields(s: Summarized): string {
    s.source + s.author + s.title + s.url + s.urlToImage + s.publishedAt + s.content
  }

  function Normalise(a: Article, cfg: Config): Summarized {
    var author := if a.author == "" then "Aditya Patil" else a.author;
    var source := if a.sourceName == "" then "Stockic Editors" else a.sourceName;
    var image := if source == "The Washington Post" then cfg.postImage else a.urlToImage;
    var s := Summarized("", source, author, a.title, a.url, image, a.publishedAt, a.content, TAGS, HIGHLIGHTS);
    s.(stockicID := cfg.sha(Fields(s)))
  }

  /** The articles that have an image, normalised, in their order. */
  function Curated(articles: seq<Article>, cfg: Config): seq<Summarized> {
    if articles == [] then []
    else
      var last := articles[|articles| - 1];
      Curated(articles[..|articles| - 1], cfg) + if last.urlToImage == "" then [] else [Normalise(last, cfg)]
  }

  // ---------- What a published list says of the articles it was made from ----------

  /** The published article has the fields of the source article, two of them with a default, and
      another picture for one newspaper; its ID is the hash of the published fields. */
  ghost predicate Shows(a: Article, s: Summarized, cfg: Config) {
    && s.title == a.title && s.url == a.url && s.publishedAt == a.publishedAt && s.content == a.content
    && s.author == (if a.author == "" then "Aditya Patil" else a.author)
    && s.source == (if a.sourceName == "" then "Stockic Editors" else a.sourceName)
    && s.urlToImage == (if a.sourceName == "The Washington Post" then cfg.postImage else a.urlToImage)
    && s.companyTags == ["Nvidia", "Google"] && s.highlights == [(1, 5), (7, 10)]
    && s.stockicID == cfg.sha(s.source + s.author + s.title + s.url + s.urlToImage + s.publishedAt + s.content)
  }

  // Element k of the output shows the input at position at[k]; these are the positions with an image.
  ghost predicate IsCurationAt(input: seq<Article>, output: seq<Summarized>, cfg: Config, at: seq<nat>) {
    && |at| == |output|
    && (forall k, l :: 0 <= k < l < |at| ==> at[k] < at[l])
    && (forall k :: 0 <= k < |at| ==> ShowsAt(input, at[k], output[k], cfg))
    && (forall i :: 0 <= i < |input| && input[i].urlToImage != "" ==> IsPlace(at, i))
  }

  ghost predicate ShowsAt(input: seq<Article>, i: nat, s: Summarized, cfg: Config) {
    i < |input| && input[i].urlToImage != "" && Shows(input[i], s, cfg)
  }

  ghost predicate IsPlace(at: seq<nat>, i: nat) {
    exists k :: 0 <= k < |at| && at[k] == i
  }

  /** The output shows, in order, exactly the articles of the input that have an image. */
  ghost predicate IsCuration(input: seq<Article>, output: seq<Summarized>, cfg: Config) {
    exists at: seq<nat> :: IsCurationAt(input, output, cfg, at)
  }

  lemma NormaliseShows(a: Article, cfg: Config)
    requires a.urlToImage != ""
    ensures Shows(a, Normalise(a, cfg), cfg)
  {
  }

  lemma StillShowsAt(input: seq<Article>, a: Article, i: nat, s: Summarized, cfg: Config)
    requires ShowsAt(input, i, s, cfg)
    ensures i < |input| && ShowsAt(input + [a], i, s, cfg)
  {
    hide Shows;
  }

  lemma NoImage(input: seq<Article>, output: seq<Summarized>, cfg: Config, at: seq<nat>, a: Article)
    requires IsCurationAt(input, output, cfg, at) && a.urlToImage == ""
    ensures IsCurationAt(input + [a], output, cfg, at)
  {
    hide ShowsAt, IsPlace;
    forall k | 0 <= k < |at| ensures ShowsAt(input + [a], at[k], output[k], cfg) {
      StillShowsAt(input, a, at[k], output[k], cfg);
    }
  }

  lemma WithImage(input: seq<Article>, output: seq<Summarized>, cfg: Config, at: seq<nat>, a: Article)
    requires IsCurationAt(input, output, cfg, at) && a.urlToImage != ""
    ensures IsCurationAt(input + [a], output + [Normalise(a, cfg)], cfg, at + [|input|])
  {
    var input', output', at' := input + [a], output + [Normalise(a, cfg)], at + [|input|];
    LastShows(input, a, cfg);
    hide ShowsAt, IsPlace, Normalise;
    forall k | 0 <= k < |at| ensures at[k] < |input| && ShowsAt(input', at[k], output[k], cfg) {
      StillShowsAt(input, a, at[k], output[k], cfg);
    }
    forall k | 0 <= k < |at'| ensures ShowsAt(input', at'[k], output'[k], cfg) {
      assert k < |at| ==> at'[k] == at[k] && output'[k] == output[k];
    }
    forall i | 0 <= i < |input'| && input'[i].urlToImage != "" ensures IsPlace(at', i) {
      if i < |input| { assert input'[i] == input[i]; }
      MorePlaces(at, |input|, i);
    }
  }

  lemma LastShows(input: seq<Article>, a: Article, cfg: Config)
    requires a.urlToImage != ""
    ensures ShowsAt(input + [a], |input|, Normalise(a, cfg), cfg)
  {
    NormaliseShows(a, cfg);
    hide Shows, Normalise;
  }

  lemma MorePlaces(at: seq<nat>, last: nat, i: nat)
    ensures IsPlace(at + [last], last)
    ensures IsPlace(at, i) ==> IsPlace(at + [last], i)
  {
    var at' := at + [last];
    assert at'[|at|] == last;
    if k :| 0 <= k < |at| && at[k] == i { assert at'[k] == i; }
  }

  lemma {:induction false} CuratedIsCuration(input: seq<Article>, cfg: Config) returns (at: seq<nat>)
    ensures IsCurationAt(input, Curated(input, cfg), cfg, at)
  {
    at := [];
    if input != [] {
      var init, last := input[..|input| - 1], input[|input| - 1];
      assert input == init + [last];
      var before := CuratedIsCuration(init, cfg);
      hide IsCurationAt, Normalise;
      if last.urlToImage == "" {
        at := before;
        NoImage(init, Curated(init, cfg), cfg, before, last);
        assert Curated(input, cfg) == Curated(init, cfg);
      } else {
        at := before + [|init|];
        WithImage(init, Curated(init, cfg), cfg, before, last);
      }
    }
  }

  lemma {:induction false} CuratedAppend(a: seq<Article>, b: seq<Article>, cfg: Config)
    ensures Curated(a + b, cfg) == Curated(a, cfg) + Curated(b, cfg)
  {
    hide Normalise;
    if b == [] {
      assert a + b == a;
    } else {
      CuratedAppend(a, b[..|b| - 1], cfg);
      assert (a + b)[..|a + b| - 1] == a + b[..|b| - 1];
    }
  }

  /** The country summarizer, visiting the map in any order: each country gets its own curated
      articles and their number, whatever the order. */
  method SummarizeCountryCategorizedHeadlines(categorized: map<string, seq<Article>>, cfg: Config)
    returns (summarized: map<string, Feed>)
    ensures summarized.Keys == categorized.Keys
    ensures forall c :: c in categorized ==>
      summarized[c] == Feed(|Curated(categorized[c], cfg)|, Curated(categorized[c], cfg))
    ensures forall c :: c in categorized ==>
      IsCuration(categorized[c], summarized[c].articles, cfg) && summarized[c].total == |summarized[c].articles|
  {
    hide IsCurationAt, Normalise;
    summarized := map[];
    var left := categorized.Keys;
    while left != {}
      invariant left <= categorized.Keys && summarized.Keys == categorized.Keys - left
      invariant forall c :: c in summarized ==>
        summarized[c] == Feed(|Curated(categorized[c], cfg)|, Curated(categorized[c], cfg))
      decreases left
    {
      var category :| category in left;
      left := left - {category};
      var articles := categorized[category];
      var summarizedArticles: seq<Summarized> := [];
      for i := 0 to |articles|
        invariant summarizedArticles == Curated(articles[..i], cfg)
      {
        assert articles[..i + 1][..i] == articles[..i];
        var article := articles[i];
        if article.urlToImage == "" { continue; }
        summarizedArticles := summarizedArticles + [Normalise(article, cfg)];
      }
      assert articles[..|articles|] == articles;
      summarized := summarized[category := Feed(|summarizedArticles|, summarizedArticles)];
    }
    forall c | c in categorized ensures IsCuration(categorized[c], summarized[c].articles, cfg) {
      var at := CuratedIsCuration(categorized[c], cfg);
    }
  }

  // ---------- Go slices ----------

  // The first `len` elements of a backing array whose capacity is arr.Length.
  datatype GoSlice<T> = GoSlice(arr: array<T>, len: nat)

  // append(s, x): in place while there is capacity, else in a fresh, larger array.
  method Append<T(0)>(s: GoSlice<T>, x: T, grow: nat -> nat) returns (r: GoSlice<T>)
    requires s.len <= s.arr.Length
    modifies s.arr
    ensures r.len == s.len + 1 <= r.arr.Length
    ensures r.arr[..r.len] == old(s.arr[..s.len]) + [x]
    ensures if s.len < s.arr.Length then r.arr == s.arr else fresh(r.arr)
    ensures s.arr[..s.len] == old(s.arr[..s.len])
  {
    if s.len < s.arr.Length {
      s.arr[s.len] := x;
      r := GoSlice(s.arr, s.len + 1);
    } else {
      var bigger := new T[s.len + 1 + grow(s.len)];
      for i := 0 to s.len
        invariant bigger[..i] == s.arr[..i]
        invariant s.arr[..] == old(s.arr[..])
      {
        bigger[i] := s.arr[i];
      }
      bigger[s.len] := x;
      r := GoSlice(bigger, s.len + 1);
    }
  }

  // The inner loop of the discover summarizer: one category onto the accumulator.
  method AppendCurated(acc: GoSlice<Summarized>, articles: seq<Article>, cfg: Config, grow: nat -> nat)
    returns (r: GoSlice<Summarized>)
    requires acc.len <= acc.arr.Length
    modifies acc.arr
    ensures acc.len <= r.len <= r.arr.Length
    ensures r.arr[..r.len] == old(acc.arr[..acc.len]) + Curated(articles, cfg)
    ensures r.arr == acc.arr || fresh(r.arr)
    ensures acc.arr[..acc.len] == old(acc.arr[..acc.len])
  {
    r := acc;
    ghost var before := acc.arr[..acc.len];
    for i := 0 to |articles|
      invariant acc.len <= r.len <= r.arr.Length
      invariant r.arr[..r.len] == before + Curated(articles[..i], cfg)
      invariant r.arr == acc.arr || fresh(r.arr)
      invariant acc.arr[..acc.len] == before
    {
      assert articles[..i + 1][..i] == articles[..i];
      var article := articles[i];
      if article.urlToImage == "" { continue; }
      ghost var last := r;
      r := Append(r, Normalise(article, cfg), grow);
      if last.arr == acc.arr {
        assert acc.arr[..acc.len] == acc.arr[..last.len][..acc.len];
      }
    }
    assert articles[..|articles|] == articles;
  }

  // ---------- The discover summarizer ----------

  // A stored response still points into the accumulator's backing array.
  datatype StoredFeed = StoredFeed(total: nat, articles: GoSlice<Summarized>)

  ghost predicate IsOrder(order: seq<string>, keys: set<string>) {
    && (forall i, j :: 0 <= i < j < |order| ==> order[i] != order[j])
    && (forall i :: 0 <= i < |order| ==> order[i] in keys)
    && (forall k :: k in keys ==> IsVisited(order, k))
  }

  ghost predicate IsVisited(order: seq<string>, k: string) {
    exists i :: 0 <= i < |order| && order[i] == k
  }

  /** The curated articles of the first n categories visited, one after the other. */
  function Chain(categorized: map<string, seq<Article>>, order: seq<string>, n: nat, cfg: Config): seq<Summarized>
    requires n <= |order| && forall i :: 0 <= i < n ==> order[i] in categorized
  {
    if n == 0 then []
    else Chain(categorized, order, n - 1, cfg) + Curated(categorized[order[n - 1]], cfg)
  }

  // Their articles as they came, one after the other.
  function Inputs(categorized: map<string, seq<Article>>, order: seq<string>, n: nat): seq<Article>
    requires n <= |order| && forall i :: 0 <= i < n ==> order[i] in categorized
  {
    if n == 0 then [] else Inputs(categorized, order, n - 1) + categorized[order[n - 1]]
  }

  lemma {:induction false} ChainIsCurated(categorized: map<string, seq<Article>>, order: seq<string>, n: nat,
                                          cfg: Config)
    requires n <= |order| && forall i :: 0 <= i < n ==> order[i] in categorized
    ensures Chain(categorized, order, n, cfg) == Curated(Inputs(categorized, order, n), cfg)
  {
    hide Curated;
    if n > 0 {
      ChainIsCurated(categorized, order, n - 1, cfg);
      CuratedAppend(Inputs(categorized, order, n - 1), categorized[order[n - 1]], cfg);
    } else {
      CuratedOfNothing(cfg);
    }
  }

  lemma CuratedOfNothing(cfg: Config)
    ensures Curated([], cfg) == []
  {
  }

  // What is read through a stored response now.
  ghost predicate Reads(f: StoredFeed, articles: seq<Summarized>)
    reads f.articles.arr
  {
    f.articles.len <= f.articles.arr.Length && f.articles.arr[..f.articles.len] == articles && f.total == |articles|
  }

  /** What is read through the response shows the articles of the first n categories visited. */
  ghost predicate ReadsCuration(f: StoredFeed, categorized: map<string, seq<Article>>, order: seq<string>, n: nat,
                                cfg: Config)
    requires n <= |order| && forall i :: 0 <= i < n ==> order[i] in categorized
    reads f.articles.arr
  {
    && f.total == f.articles.len <= f.articles.arr.Length
    && IsCuration(Inputs(categorized, order, n), f.articles.arr[..f.articles.len], cfg)
  }

  lemma ReadsTheCuration(f: StoredFeed, categorized: map<string, seq<Article>>, order: seq<string>, n: nat, cfg: Config)
    requires n <= |order| && forall i :: 0 <= i < n ==> order[i] in categorized
    requires Reads(f, Chain(categorized, order, n, cfg))
    ensures ReadsCuration(f, categorized, order, n, cfg)
  {
    ChainIsCurated(categorized, order, n, cfg);
    hide Curated, IsCurationAt, Chain, Inputs;
    var at := CuratedIsCuration(Inputs(categorized, order, n), cfg);
  }

  function Visited(order: seq<string>, n: nat): set<string>
    requires n <= |order|
  {
    set i | 0 <= i < n :: order[i]
  }

  // After n categories: who is stored, what the accumulator holds, and what each stored slice reads.
  ghost predicate Progress(categorized: map<string, seq<Article>>, order: seq<string>, cfg: Config, n: nat,
                           summarized: map<string, StoredFeed>, acc: GoSlice<Summarized>)
    requires n <= |order| && IsOrder(order, categorized.Keys)
    reads acc.arr, set c | c in summarized :: summarized[c].articles.arr
  {
    && summarized.Keys == Visited(order, n)
    && acc.len <= acc.arr.Length && acc.arr[..acc.len] == Chain(categorized, order, n, cfg)
    && (forall i :: 0 <= i < n ==>
          order[i] in summarized && Reads(summarized[order[i]], Chain(categorized, order, i + 1, cfg)))
    && (forall c :: c in summarized && summarized[c].articles.arr == acc.arr ==> summarized[c].articles.len <= acc.len)
  }

  lemma ProgressStarts(categorized: map<string, seq<Article>>, order: seq<string>, cfg: Config,
                       acc: GoSlice<Summarized>)
    requires IsOrder(order, categorized.Keys) && acc.len == 0
    ensures Progress(categorized, order, cfg, 0, map[], acc)
  {
  }

  lemma ProgressKeys(categorized: map<string, seq<Article>>, order: seq<string>, cfg: Config,
                     summarized: map<string, StoredFeed>, acc: GoSlice<Summarized>)
    requires IsOrder(order, categorized.Keys) && Progress(categorized, order, cfg, |order|, summarized, acc)
    ensures summarized.Keys == categorized.Keys
    ensures forall i :: 0 <= i < |order| ==> order[i] in categorized
  {
    VisitedEnds(order, categorized.Keys);
    hide Visited, Chain, Reads;
  }

  lemma ProgressEnds(categorized: map<string, seq<Article>>, order: seq<string>, cfg: Config,
                     summarized: map<string, StoredFeed>, acc: GoSlice<Summarized>)
    requires IsOrder(order, categorized.Keys) && Progress(categorized, order, cfg, |order|, summarized, acc)
    ensures summarized.Keys == categorized.Keys
    ensures forall i :: 0 <= i < |order| ==> Reads(summarized[order[i]], Chain(categorized, order, i + 1, cfg))
    ensures forall i :: 0 <= i < |order| ==> ReadsCuration(summarized[order[i]], categorized, order, i + 1, cfg)
  {
    hide *;
    ProgressKeys(categorized, order, cfg, summarized, acc);
    forall i | 0 <= i < |order|
      ensures Reads(summarized[order[i]], Chain(categorized, order, i + 1, cfg))
      ensures ReadsCuration(summarized[order[i]], categorized, order, i + 1, cfg)
    {
      ProgressAt(categorized, order, cfg, summarized, acc, i);
      ReadsTheCuration(summarized[order[i]], categorized, order, i + 1, cfg);
    }
  }

  lemma ProgressAt(categorized: map<string, seq<Article>>, order: seq<string>, cfg: Config,
                   summarized: map<string, StoredFeed>, acc: GoSlice<Summarized>, i: nat)
    requires IsOrder(order, categorized.Keys) && Progress(categorized, order, cfg, |order|, summarized, acc)
    requires i < |order|
    ensures order[i] in summarized && Reads(summarized[order[i]], Chain(categorized, order, i + 1, cfg))
  {
    hide IsOrder, Visited, Chain, Reads;
  }

  lemma ChainNext(categorized: map<string, seq<Article>>, order: seq<string>, n: nat, cfg: Config)
    requires n < |order| && forall i :: 0 <= i <= n ==> order[i] in categorized
    ensures Chain(categorized, order, n + 1, cfg) ==
            Chain(categorized, order, n, cfg) + Curated(categorized[order[n]], cfg)
  {
  }

  // One round of the outer loop.
  method AddCategory(categorized: map<string, seq<Article>>, order: seq<string>, cfg: Config, grow: nat -> nat, n: nat,
                     summarized: map<string, StoredFeed>, acc: GoSlice<Summarized>)
    returns (summarized': map<string, StoredFeed>, acc': GoSlice<Summarized>)
    requires n < |order| && IsOrder(order, categorized.Keys)
    requires Progress(categorized, order, cfg, n, summarized, acc)
    modifies acc.arr
    ensures Progress(categorized, order, cfg, n + 1, summarized', acc')
    ensures acc'.arr == acc.arr || fresh(acc'.arr)
    ensures summarized' == summarized[order[n] := StoredFeed(acc'.len, acc')]
  {
    hide Visited, Curated, Chain;
    acc' := AppendCurated(acc, categorized[order[n]], cfg, grow);
    // A stored slice is not disturbed by appends to an accumulator that is at least as long.
    forall i | 0 <= i < n ensures Reads(summarized[order[i]], Chain(categorized, order, i + 1, cfg)) {
      var f := summarized[order[i]];
      assert old(Reads(f, Chain(categorized, order, i + 1, cfg)));
      if f.articles.arr == acc.arr {
        assert f.articles.arr[..f.articles.len] == acc.arr[..acc.len][..f.articles.len];
        assert old(f.articles.arr[..f.articles.len]) == old(acc.arr[..acc.len])[..f.articles.len];
      }
    }
    VisitedNext(order, n);
    ChainNext(categorized, order, n, cfg);
    summarized' := summarized[order[n] := StoredFeed(acc'.len, acc')];
    assert Reads(summarized'[order[n]], Chain(categorized, order, n + 1, cfg));
  }

  /** The discover summarizer, visiting the categories in `order`. Although the stored slices share
      backing arrays with the accumulator, at the end each still reads what it read when it was
      stored: the curated articles of its category and of all those visited before it. */
  method SummarizeCategorizedNews(categorized: map<string, seq<Article>>, order: seq<string>, cfg: Config,
                                  grow: nat -> nat)
    returns (summarized: map<string, StoredFeed>)
    requires IsOrder(order, categorized.Keys)
    ensures summarized.Keys == categorized.Keys
    ensures forall i :: 0 <= i < |order| ==>
      Reads(summarized[order[i]], Chain(categorized, order, i + 1, cfg))
    ensures forall i :: 0 <= i < |order| ==>
      ReadsCuration(summarized[order[i]], categorized, order, i + 1, cfg)
  {
    hide ReadsCuration, Reads, Progress, IsOrder;
    summarized := map[];
    var none := new Summarized[0];
    var summarizedArticles := GoSlice(none, 0);
    ProgressStarts(categorized, order, cfg, summarizedArticles);
    for n := 0 to |order|
      invariant Progress(categorized, order, cfg, n, summarized, summarizedArticles)
      invariant fresh(summarizedArticles.arr)
    {
      summarized, summarizedArticles := AddCategory(categorized, order, cfg, grow, n, summarized, summarizedArticles);
    }
    ProgressEnds(categorized, order, cfg, summarized, summarizedArticles);
  }

  lemma VisitedEnds(order: seq<string>, keys: set<string>)
    requires IsOrder(order, keys)
    ensures Visited(order, 0) == {} && Visited(order, |order|) == keys
  {
  }

  lemma VisitedNext(order: seq<string>, n: nat)
    requires n < |order|
    ensures Visited(order, n + 1) == Visited(order, n) + {order[n]}
  {
  }

  // ---------- What the shared accumulator means for the result ----------

  predicate EndsWith<T(==)>(list: seq<T>, own: seq<T>) {
    |own| <= |list| && list[|list| - |own|..] == own
  }

  /** For every order the stored lists form a prefix chain, and the articles of a category are the
      end of its own list. */
  lemma ChainGrows(categorized: map<string, seq<Article>>, order: seq<string>, cfg: Config, m: nat, n: nat)
    requires IsOrder(order, categorized.Keys) && 1 <= m <= n <= |order|
    ensures Chain(categorized, order, m, cfg) <= Chain(categorized, order, n, cfg)
    ensures EndsWith(Chain(categorized, order, n, cfg), Curated(categorized[order[n - 1]], cfg))
  {
    assert forall i :: 0 <= i < |order| ==> order[i] in categorized;
    hide *;
    ChainNext(categorized, order, n - 1, cfg);
    OwnEnds(Chain(categorized, order, n - 1, cfg), Curated(categorized[order[n - 1]], cfg));
    ChainIsPrefix(categorized, order, cfg, m, n);
  }

  lemma {:induction false} ChainIsPrefix(categorized: map<string, seq<Article>>, order: seq<string>, cfg: Config,
                                         m: nat, n: nat)
    requires m <= n <= |order| && forall i :: 0 <= i < |order| ==> order[i] in categorized
    ensures Chain(categorized, order, m, cfg) <= Chain(categorized, order, n, cfg)
  {
    hide *;
    if m < n {
      ChainNext(categorized, order, n - 1, cfg);
      ChainIsPrefix(categorized, order, cfg, m, n - 1);
    }
  }

  lemma OwnEnds<T>(before: seq<T>, own: seq<T>)
    ensures EndsWith(before + own, own)
  {
  }

  ghost predicate EachItsOwn(categorized: map<string, seq<Article>>, order: seq<string>, cfg: Config)
    requires IsOrder(order, categorized.Keys)
  {
    forall i :: 0 <= i < |order| ==> Chain(categorized, order, i + 1, cfg) == Curated(categorized[order[i]], cfg)
  }

  lemma {:induction false} EmptyChain(categorized: map<string, seq<Article>>, order: seq<string>, cfg: Config, n: nat)
    requires IsOrder(order, categorized.Keys) && n <= |order|
    ensures Chain(categorized, order, n, cfg) == [] <==>
      forall i :: 0 <= i < n ==> Curated(categorized[order[i]], cfg) == []
  {
    hide Curated;
    if n > 0 {
      EmptyChain(categorized, order, cfg, n - 1);
    }
  }

  /** A visit gives every category its own articles if and only if all categories but the last
      visited have none. */
  lemma EachItsOwnIff(categorized: map<string, seq<Article>>, order: seq<string>, cfg: Config)
    requires IsOrder(order, categorized.Keys)
    ensures EachItsOwn(categorized, order, cfg) <==>
      forall i :: 0 <= i < |order| - 1 ==> Curated(categorized[order[i]], cfg) == []
  {
    hide Curated, Chain;
    forall i: nat | i < |order|
      ensures Chain(categorized, order, i + 1, cfg) == Curated(categorized[order[i]], cfg)
        <==> Chain(categorized, order, i, cfg) == []
    {
      ChainNext(categorized, order, i, cfg);
    }
    if |order| > 0 {
      EmptyChain(categorized, order, cfg, |order| - 1);
    }
    if forall i :: 0 <= i < |order| - 1 ==> Curated(categorized[order[i]], cfg) == [] {
      forall i: nat | i < |order| ensures Chain(categorized, order, i, cfg) == [] {
        EmptyChain(categorized, order, cfg, i);
      }
    }
  }

  lemma VisitedFirst(k: string, rest: seq<string>)
    ensures IsVisited([k] + rest, k) && forall other :: IsVisited(rest, other) ==> IsVisited([k] + rest, other)
  {
    var order := [k] + rest;
    assert order[0] == k;
    forall other | IsVisited(rest, other) ensures IsVisited(order, other) {
      var i :| 0 <= i < |rest| && rest[i] == other;
      assert order[i + 1] == other;
    }
  }

  lemma {:induction false} SomeOrder(keys: set<string>) returns (order: seq<string>)
    ensures IsOrder(order, keys)
  {
    order := [];
    if keys != {} {
      var k :| k in keys;
      var rest := SomeOrder(keys - {k});
      order := [k] + rest;
      VisitedFirst(k, rest);
    }
  }

  /** The result is right for every order only when there is at most one category, or none has an
      article with an image: a category visited after a non-empty one lists that one's articles. */
  lemma RightForAllOrdersIff(categorized: map<string, seq<Article>>, cfg: Config)
    ensures (forall order :: IsOrder(order, categorized.Keys) ==> EachItsOwn(categorized, order, cfg)) <==>
      |categorized| <= 1 || forall c :: c in categorized ==> Curated(categorized[c], cfg) == []
  {
    hide Curated, EachItsOwn;
    if |categorized| <= 1 {
      forall order | IsOrder(order, categorized.Keys) ensures EachItsOwn(categorized, order, cfg) {
        AtMostOne(order, categorized.Keys);
        EachItsOwnIff(categorized, order, cfg);
      }
    } else if c :| c in categorized && Curated(categorized[c], cfg) != [] {
      var rest := SomeOrder(categorized.Keys - {c});
      var order := [c] + rest;
      VisitedFirst(c, rest);
      assert IsOrder(order, categorized.Keys);
      assert rest != [] by {
        assert |categorized.Keys - {c}| == |categorized.Keys| - 1;
        var d :| d in categorized.Keys - {c};
        assert IsVisited(rest, d);
      }
      EachItsOwnIff(categorized, order, cfg);
      assert order[0] == c;
      assert !EachItsOwn(categorized, order, cfg);
    } else {
      forall order | IsOrder(order, categorized.Keys) ensures EachItsOwn(categorized, order, cfg) {
        EachItsOwnIff(categorized, order, cfg);
      }
    }
  }

  lemma AtMostOne(order: seq<string>, keys: set<string>)
    requires IsOrder(order, keys) && |keys| <= 1
    ensures |order| <= 1
  {
    if |order| > 1 {
      assert order[0] in keys && order[1] in keys && order[0] != order[1];
      assert {order[0], order[1]} <= keys;
      Cardinality({order[0], order[1]}, keys);
    }
  }

  lemma {:induction false} Cardinality(a: set<string>, b: set<string>)
    requires a <= b
    ensures |a| <= |b|
  {
    assert b == a + (b - a);
  }

  // ---------- The content-hash ID ----------

  ghost predicate Injective(f: string -> string) {
    forall x, y :: f(x) == f(y) ==> x == y
  }

  // The tags, the highlights and the ID are the ones the summarizers give.
  predicate Stamped(s: Summarized, cfg: Config) {
    s.companyTags == TAGS && s.highlights == HIGHLIGHTS && s.stockicID == cfg.sha(Fields(s))
  }

  lemma {:induction false} CuratedAreStamped(articles: seq<Article>, cfg: Config)
    ensures forall s :: s in Curated(articles, cfg) ==> Stamped(s, cfg)
  {
    if articles != [] {
      CuratedAreStamped(articles[..|articles| - 1], cfg);
      hide Fields;
    }
  }

  // All fields but the last are as wide in one as in the other.
  predicate SameWidths(a: Summarized, b: Summarized) {
    && |a.source| == |b.source| && |a.author| == |b.author| && |a.title| == |b.title|
    && |a.url| == |b.url| && |a.urlToImage| == |b.urlToImage| && |a.publishedAt| == |b.publishedAt|
  }

  lemma SplitAt(x: string, y: string, x': string, y': string)
    requires |x| == |x'| && x + y == x' + y'
    ensures x == x' && y == y'
  {
    assert x == (x + y)[..|x|] && x' == (x' + y')[..|x|];
    assert y == (x + y)[|x|..] && y' == (x' + y')[|x|..];
  }

  lemma SameFields(a: Summarized, b: Summarized)
    requires Fields(a) == Fields(b) && SameWidths(a, b)
    ensures a.source == b.source && a.author == b.author && a.title == b.title && a.url == b.url
    ensures a.urlToImage == b.urlToImage && a.publishedAt == b.publishedAt && a.content == b.content
  {
    var a2, b2 := a.source + a.author, b.source + b.author;
    var a3, b3 := a2 + a.title, b2 + b.title;
    var a4, b4 := a3 + a.url, b3 + b.url;
    var a5, b5 := a4 + a.urlToImage, b4 + b.urlToImage;
    var a6, b6 := a5 + a.publishedAt, b5 + b.publishedAt;
    assert a6 + a.content == b6 + b.content;
    hide Fields;
    SplitAt(a6, a.content, b6, b.content);
    SplitAt(a5, a.publishedAt, b5, b.publishedAt);
    SplitAt(a4, a.urlToImage, b4, b.urlToImage);
    SplitAt(a3, a.url, b3, b.url);
    SplitAt(a2, a.title, b2, b.title);
    SplitAt(a.source, a.author, b.source, b.author);
  }

  /** Without hash collisions, two articles share an ID if and only if their concatenated fields are
      the same; then they are the same article if and only if the fields have the same widths. */
  lemma SameIdIff(a: Summarized, b: Summarized, cfg: Config)
    requires Injective(cfg.sha) && Stamped(a, cfg) && Stamped(b, cfg)
    ensures a.stockicID == b.stockicID <==> Fields(a) == Fields(b)
    ensures Fields(a) == Fields(b) ==> (SameWidths(a, b) <==> a == b)
  {
    hide Fields;
    if Fields(a) == Fields(b) && SameWidths(a, b) {
      SameFields(a, b);
    }
  }

  /** The fields are not separated, so whatever the hash, two different articles can share an ID. */
  lemma SharedId(cfg: Config)
    ensures var a, b := Article("s", "ab", "c", "u", "i", "p", "t"), Article("s", "a", "bc", "u", "i", "p", "t");
      Normalise(a, cfg) != Normalise(b, cfg) && Normalise(a, cfg).stockicID == Normalise(b, cfg).stockicID
  {
    var a, b := Article("s", "ab", "c", "u", "i", "p", "t"), Article("s", "a", "bc", "u", "i", "p", "t");
    assert Fields(Normalise(a, cfg)) == "sabcuipt" == Fields(Normalise(b, cfg));
    assert Normalise(a, cfg).author == "ab" && Normalise(b, cfg).author == "a";
    assert |"ab"| != |"a"|;
  }
}
