/** The names that tie the services together: the Redis key of an access counter, and the
    name of the object a drained user's log is stored under. */
module CounterKeys {
  import opened Wrappers

  // The KEYS pattern of both drainers is this prefix followed by a star.
  const KEY_PREFIX := "endpoint:/detail/news:"

  // Go's strings.Split for a one-byte separator.
  function Split(s: string, sep: char): (parts: seq<string>)
    ensures |parts| > 0
    ensures forall i :: 0 <= i < |parts| ==> sep !in parts[i]
  {
    if s == [] then [""]
    else
      var rest := Split(s[1..], sep);
      if s[0] == sep then [""] + rest else [[s[0]] + rest[0]] + rest[1..]
  }

  function Join(parts: seq<string>, sep: char): string
    requires |parts| > 0
  {
    if |parts| == 1 then parts[0] else parts[0] + [sep] + Join(parts[1..], sep)
  }

  function TrimPrefix(s: string, prefix: string): string {
    if prefix <= s then s[|prefix|..] else s
  }

  function CounterKey(newsID: string, apiKey: string): string {
    KEY_PREFIX + newsID + "/user:" + apiKey
  }

  /** What a drainer reads back out of a key, or None for "Invalid key format". */
  function ParseKey(key: string): Option<(string, string)> {
    var parts := Split(key, '/');
    if |parts| < 4 then None
    else Some((TrimPrefix(parts[2], "news:"), TrimPrefix(parts[3], "user:")))
  }

  /** The user a drainer credits: the part of the API key before its first slash. */
  function Owner(apiKey: string): string {
    Split(apiKey, '/')[0]
  }

  function ObjectName(user: string, stamp: string): string {
    user + "/detail-log-" + stamp + ".json"
  }

  // ---------- Split is the inverse of Join ----------

  lemma {:induction false} JoinOfSplit(s: string, sep: char)
    ensures Join(Split(s, sep), sep) == s
  {
    if s != [] {
      JoinOfSplit(s[1..], sep);
      var rest := Split(s[1..], sep);
      if s[0] == sep {
        assert ([""] + rest)[1..] == rest;
        assert s == "" + [sep] + s[1..];
      } else {
        assert ([[s[0]] + rest[0]] + rest[1..])[1..] == rest[1..];
        assert s == [s[0]] + s[1..];
      }
    }
  }

  lemma {:induction false} SplitAtSeparator(a: string, b: string, sep: char)
    requires sep !in a
    ensures Split(a + [sep] + b, sep) == [a] + Split(b, sep)
  {
    var s := a + [sep] + b;
    if a == [] {
      assert s[1..] == b;
    } else {
      SplitAtSeparator(a[1..], b, sep);
      assert s[1..] == a[1..] + [sep] + b;
      assert a == [a[0]] + a[1..];
    }
  }

  lemma {:induction false} SplitWithoutSeparator(a: string, sep: char)
    ensures Split(a, sep) == [a] <==> sep !in a
  {
    if a == [] {
    } else if sep !in a {
      SplitWithoutSeparator(a[1..], sep);
      assert a == [a[0]] + a[1..];
    } else {
      assert sep !in Split(a, sep)[0];
    }
  }

  // ---------- The counter key ----------

  lemma SplitOfCounterKey(newsID: string, apiKey: string)
    requires '/' !in newsID
    ensures Split(CounterKey(newsID, apiKey), '/') ==
            ["endpoint:", "detail", "news:" + newsID] + Split("user:" + apiKey, '/')
  {
    hide Split;
    var newsPart, userPart := "news:" + newsID, "user:" + apiKey;
    var tail := newsPart + "/" + userPart;
    assert CounterKey(newsID, apiKey) == "endpoint:" + "/" + ("detail" + "/" + tail);
    SplitAtSeparator("endpoint:", "detail" + "/" + tail, '/');
    SplitAtSeparator("detail", tail, '/');
    SplitAtSeparator(newsPart, userPart, '/');
  }

  /** Draining a key credits the news item of the request and the owner of its API key.
      The news ID is the last part of a split on "/", so it holds no slash. */
  lemma ParseOfCounterKey(newsID: string, apiKey: string)
    requires '/' !in newsID
    ensures ParseKey(CounterKey(newsID, apiKey)) == Some((newsID, Owner(apiKey)))
    ensures KEY_PREFIX <= CounterKey(newsID, apiKey)
  {
    SplitOfCounterKey(newsID, apiKey);
    SplitPrefix("user:", apiKey, '/');
    hide Split;
    assert CounterKey(newsID, apiKey)[..|KEY_PREFIX|] == KEY_PREFIX;
    hide CounterKey;
  }

  /** A separator-free prefix stays on the first part. */
  lemma {:induction false} SplitPrefix(p: string, s: string, sep: char)
    requires sep !in p
    ensures Split(p + s, sep) == [p + Split(s, sep)[0]] + Split(s, sep)[1..]
  {
    if p == [] {
      assert p + s == s && p + Split(s, sep)[0] == Split(s, sep)[0];
    } else {
      SplitPrefix(p[1..], s, sep);
      assert (p + s)[1..] == p[1..] + s;
      assert [p[0]] + (p[1..] + Split(s, sep)[0]) == p + Split(s, sep)[0];
    }
  }

  /** The key round-trips exactly for the API keys that hold no slash. */
  lemma CounterKeyRoundTrip(newsID: string, apiKey: string)
    requires '/' !in newsID
    ensures ParseKey(CounterKey(newsID, apiKey)) == Some((newsID, apiKey)) <==> '/' !in apiKey
  {
    ParseOfCounterKey(newsID, apiKey);
    SplitWithoutSeparator(apiKey, '/');
    if '/' in apiKey {
      assert '/' !in Owner(apiKey);
    }
  }

  /** Two requests share a counter only when they are for the same news item and API key. */
  lemma CounterKeyInjective(n1: string, u1: string, n2: string, u2: string)
    requires '/' !in n1 && '/' !in n2
    requires CounterKey(n1, u1) == CounterKey(n2, u2)
    ensures n1 == n2 && u1 == u2
  {
    ParseOfCounterKey(n1, u1);
    ParseOfCounterKey(n2, u2);
    var cut := |KEY_PREFIX + n1 + "/user:"|;
    assert CounterKey(n1, u1)[cut..] == u1;
    assert CounterKey(n2, u2)[cut..] == u2;
  }

  /** Object names are injective in the user and the second, whose rendering has a fixed width. */
  lemma ObjectNameInjective(u1: string, t1: string, u2: string, t2: string)
    requires |t1| == |t2|
    requires ObjectName(u1, t1) == ObjectName(u2, t2)
    ensures u1 == u2 && t1 == t2
  {
    var name := ObjectName(u1, t1);
    assert |u1| == |u2|;
    assert name[..|u1|] == u1 && name[..|u2|] == u2;
    var cut := |u1 + "/detail-log-"|;
    assert name[cut..cut + |t1|] == t1 && name[cut..cut + |t2|] == t2;
  }
}
