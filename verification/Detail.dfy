/** DetailHandler: two reads, the lookup, and the increment it leaves to a goroutine. */
module Detail {
  import opened Wrappers
  import opened CounterKeys
  import opened DrainProtocol
  import opened DrainCycle
  import opened Summarizer
  import opened Publication

  // The reply to a GET of one of the two news values: an error, or a value that may not decode.
  datatype Reply = RedisError | Value(news: Option<News>)

  /** The last element of the path. */
  function NewsID(path: string): string {
    var parts := Split(path, '/');
    parts[|parts| - 1]
  }

  /** The ID is what follows the last slash of the path. */
  lemma {:induction false} NewsIDIsLast(prefix: string, id: string)
    requires '/' !in id
    ensures NewsID(prefix + "/" + id) == id
  {
    var path := prefix + "/" + id;
    if prefix == "" {
      assert path[1..] == id;
      SplitWithoutSeparator(id, '/');
    } else {
      NewsIDIsLast(prefix[1..], id);
      assert path[1..] == prefix[1..] + "/" + id;
      LastOfSplit(path);
    }
  }

  // What comes before a slash plays no part.
  lemma LastOfSplit(path: string)
    requires path != "" && '/' in path[1..]
    ensures NewsID(path) == NewsID(path[1..])
  {
    var rest := Split(path[1..], '/');
    SplitWithoutSeparator(path[1..], '/');
    if |rest| == 1 { JoinOfSplit(path[1..], '/'); }
  }

  // The path of the route, with an ID after it.
  lemma DetailPath(id: string)
    requires '/' !in id
    ensures |Split("/api/v2/detail/" + id, '/')| == 5 && NewsID("/api/v2/detail/" + id) == id
  {
    var path := "/api/v2/detail/" + id;
    assert path == "" + "/" + ("api" + "/" + ("v2" + "/" + ("detail" + "/" + id)));
    assert path == "/api/v2/detail" + "/" + id;
    hide Split, NewsID;
    SplitAtSeparator("", "api" + "/" + ("v2" + "/" + ("detail" + "/" + id)), '/');
    SplitAtSeparator("api", "v2" + "/" + ("detail" + "/" + id), '/');
    SplitAtSeparator("v2", "detail" + "/" + id, '/');
    SplitAtSeparator("detail", id, '/');
    SplitWithoutSeparator(id, '/');
    NewsIDIsLast("/api/v2/detail", id);
  }

  ghost predicate IsServed(newsID: string, headlines: Reply, discover: Reply) {
    headlines.Value? && discover.Value? && (HasId(headlines.news, newsID) || HasId(discover.news, newsID))
  }

  // A pending increment that a drainer will credit to the news item and the owner of the API key.
  ghost predicate IsCounterOf(e: Entry, newsID: string, apiKey: string) {
    e.place == Pending && ParseKey(e.key) == Some((newsID, Owner(apiKey)))
  }

  /** A request is answered 200 exactly when it is a well-formed GET, both values can be read and one
      of them has the article; then, and only then, it leaves one increment for its counter to the
      goroutines, under a key that credits the news item and the owner of the API key. */
  method DetailHandler(w: World, isGet: bool, path: string, apiKey: string, headlines: Reply, discover: Reply)
    returns (status: Status, article: Option<Summarized>)
    requires w.Valid()
    modifies w
    ensures w.Valid()
    ensures status ==
      if !isGet then StatusMethodNotAllowed
      else if |Split(path, '/')| < 5 then StatusBadRequest
      else if headlines.RedisError? || discover.RedisError? then StatusInternalServerError
      else if !IsServed(NewsID(path), headlines, discover) then StatusNotFound
      else StatusOK
    ensures forall id | '/' !in id && path == "/api/v2/detail/" + id ::
      && (status == StatusOK <==> isGet && IsServed(id, headlines, discover))
      && (status == StatusOK ==> article.Some? && IsLookup(id, headlines.news, discover.news, article)
                                 && w.trace == old(w.trace) + [Serve(id, apiKey)])
    ensures status == StatusOK ==> article.Some? && IsLookup(NewsID(path), headlines.news, discover.news, article)
    ensures w.trace == old(w.trace) + if status == StatusOK then [Serve(NewsID(path), apiKey)] else []
    ensures status != StatusOK ==> w.sys == old(w.sys)
    ensures status == StatusOK ==>
      w.sys.ledger != [] && IsCounterOf(w.sys.ledger[|w.sys.ledger| - 1], NewsID(path), apiKey)
  {
    article := None;
    forall id | '/' !in id && path == "/api/v2/detail/" + id ensures |Split(path, '/')| == 5 && NewsID(path) == id {
      DetailPath(id);
    }
    hide Split;
    if !isGet { return StatusMethodNotAllowed, None; }
    if |Split(path, '/')| < 5 { return StatusBadRequest, None; }
    var newsID := NewsID(path);
    if headlines.RedisError? { return StatusInternalServerError, None; }
    if discover.RedisError? { return StatusInternalServerError, None; }
    article := FindArticleByID(newsID, headlines.news, discover.news);
    if article.None? { return StatusNotFound, None; }
    w.Step(Serve(newsID, apiKey));
    ParseOfCounterKey(newsID, apiKey);
    status := StatusOK;
  }
}
