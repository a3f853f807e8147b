/** Cache-aside validation of API keys: any number of requests of feed-api and actions, which run
    the same code, look a key up in one shared Redis, read Firestore on a miss and fill the cache,
    while documents change, entries expire or are evicted and every call can fail. */
module UserCache {
  import opened Wrappers

  const TTL := 86400  // APIKeyCacheExpiration, 24 hours in seconds

  // A user document as far as validation reads it: "premium-status" when it is a bool.
  datatype UserDoc = UserDoc(premium: Option<bool>)

  type Docs = map<string, UserDoc>

  datatype UserStatus = UserStatus(found: bool, premium: bool)

  const UNKNOWN := UserStatus(false, false)

  // What docRef.Get returns.
  datatype Fetched = NotFound | OtherError | Snapshot(found: bool, premium: Option<bool>)

  function ReadDoc(docs: Docs, user: string): Fetched {
    if user in docs then Snapshot(true, docs[user].premium) else NotFound
  }

  /** The answer of a lookup that always asks Firestore. */
  function Direct(docs: Docs, user: string): UserStatus {
    if user !in docs then UNKNOWN else UserStatus(true, docs[user].premium == Some(true))
  }

  // `src` is the moment of the run whose documents the status was read from.
  datatype Cached = Cached(status: UserStatus, expires: nat, src: nat)

  datatype How = Hit | Filled | Transient

  // One request inside ValidateUserAPIKey.
  datatype Request =
    | Missed(user: string)
    | Fetching(user: string, status: UserStatus, readAt: nat, src: nat)
    | Answered(user: string, status: UserStatus, how: How)

  datatype Moment = Moment(now: nat, docs: Docs)

  // `hist` records the clock and the documents after every step of the run.
  datatype State = State(now: nat, docs: Docs, cache: map<string, Cached>, requests: map<nat, Request>,
                         hist: seq<Moment>)

  datatype Label =
    | Lookup(id: nat, user: string, redisOk: bool)    // Redis GET and the decoding of its reply
    | Fetch(id: nat, firestoreOk: bool)
    | Fill(id: nat, redisOk: bool)                    // Redis SET with the 24 h expiry
    | Change(user: string, doc: Option<UserDoc>)
    | Evict(user: string)
    | Pass(seconds: nat)

  predicate Enabled(s: State, lab: Label) {
    match lab
    case Lookup(id, _, _) => id !in s.requests
    case Fetch(id, _) => id in s.requests && s.requests[id].Missed?
    case Fill(id, _) => id in s.requests && s.requests[id].Fetching?
    case _ => true
  }

  predicate InForce(s: State, user: string) {
    user in s.cache && s.now < s.cache[user].expires
  }

  function Effect(s: State, lab: Label): State
    requires Enabled(s, lab)
  {
    match lab
    case Lookup(id, user, redisOk) =>
      var r := if redisOk && InForce(s, user) then Answered(user, s.cache[user].status, Hit) else Missed(user);
      s.(requests := s.requests[id := r])
    case Fetch(id, firestoreOk) =>
      var user := s.requests[id].user;
      var r := if firestoreOk then Fetching(user, Direct(s.docs, user), s.now, |s.hist|)
               else Answered(user, UNKNOWN, Transient);
      s.(requests := s.requests[id := r])
    case Fill(id, redisOk) =>
      var r := s.requests[id];
      s.(requests := s.requests[id := Answered(r.user, r.status, Filled)],
         cache := if redisOk then s.cache[r.user := Cached(r.status, s.now + TTL, r.src)] else s.cache)
    case Change(user, doc) =>
      s.(docs := if doc.Some? then s.docs[user := doc.value] else s.docs - {user})
    case Evict(user) => s.(cache := s.cache - {user})
    case Pass(seconds) => s.(now := s.now + seconds)
  }

  function Apply(s: State, lab: Label): State
    requires Enabled(s, lab)
  {
    var s' := Effect(s, lab);
    s'.(hist := s.hist + [Moment(s'.now, s'.docs)])
  }

  ghost predicate Legal(s: State, labels: seq<Label>)
    decreases |labels|
  {
    labels == [] || (Enabled(s, labels[0]) && Legal(Apply(s, labels[0]), labels[1..]))
  }

  ghost function Exec(s: State, labels: seq<Label>): State
    requires Legal(s, labels)
    decreases |labels|
  {
    if labels == [] then s else Exec(Apply(s, labels[0]), labels[1..])
  }

  function Start(docs: Docs): State {
    State(0, docs, map[], map[], [Moment(0, docs)])
  }

  function MomentOf(s: State): Moment {
    Moment(s.now, s.docs)
  }

  // ---------- Bounded staleness ----------

  // Every cache write of the run comes at most `delay` seconds after the read it stores.
  ghost predicate Prompt(s: State, labels: seq<Label>, delay: nat)
    requires Legal(s, labels)
    decreases |labels|
  {
    labels == [] ||
    (&& (labels[0].Fill? ==> s.now <= s.requests[labels[0].id].readAt + delay)
     && Prompt(Apply(s, labels[0]), labels[1..], delay))
  }

  // The documents of moment `src` gave this user this status.
  ghost predicate Sourced(hist: seq<Moment>, src: nat, user: string, status: UserStatus) {
    src < |hist| && Direct(hist[src].docs, user) == status
  }

  ghost predicate FreshEntry(s: State, user: string, delay: nat)
    requires user in s.cache
  {
    var e := s.cache[user];
    Sourced(s.hist, e.src, user, e.status) && e.expires <= s.hist[e.src].now + delay + TTL
  }

  ghost predicate FreshRequest(s: State, r: Request) {
    r.Fetching? ==> Sourced(s.hist, r.src, r.user, r.status) && s.hist[r.src].now == r.readAt
  }

  ghost predicate Fresh(s: State, delay: nat) {
    && (forall user :: user in s.cache ==> FreshEntry(s, user, delay))
    && (forall id :: id in s.requests ==> FreshRequest(s, s.requests[id]))
  }

  lemma StepKeepsFresh(s: State, lab: Label, delay: nat)
    requires Fresh(s, delay) && Enabled(s, lab)
    requires lab.Fill? ==> s.now <= s.requests[lab.id].readAt + delay
    ensures Fresh(Apply(s, lab), delay)
  {
    var s' := Apply(s, lab);
    forall user | user in s'.cache ensures FreshEntry(s', user, delay) {
      if lab.Fill? && user == s.requests[lab.id].user {
        assert FreshRequest(s, s.requests[lab.id]);
      }
      assert user in s.cache ==> FreshEntry(s, user, delay);
    }
    forall id | id in s'.requests ensures FreshRequest(s', s'.requests[id]) {
      assert id in s.requests ==> FreshRequest(s, s.requests[id]);
    }
  }

  lemma {:induction false} RunKeepsFresh(s: State, labels: seq<Label>, delay: nat)
    requires Fresh(s, delay) && Legal(s, labels) && Prompt(s, labels, delay)
    ensures Fresh(Exec(s, labels), delay)
    decreases |labels|
  {
    if labels != [] {
      StepKeepsFresh(s, labels[0], delay);
      RunKeepsFresh(Apply(s, labels[0]), labels[1..], delay);
    }
  }

  // The history is the sequence of states the run went through, and its clock never goes back.
  lemma {:induction false} HistoryIsTheRun(s: State, labels: seq<Label>, j: nat)
    requires Legal(s, labels) && j <= |labels|
    requires s.hist != [] && s.hist[|s.hist| - 1] == MomentOf(s)
    ensures Legal(s, labels[..j])
    ensures |Exec(s, labels).hist| == |s.hist| + |labels| && s.hist <= Exec(s, labels).hist
    ensures Exec(s, labels).hist[|s.hist| - 1 + j] == MomentOf(Exec(s, labels[..j]))
    ensures s.now <= Exec(s, labels).now
    decreases |labels|
  {
    if labels != [] {
      var s1 := Apply(s, labels[0]);
      HistoryIsTheRun(s1, labels[1..], if j == 0 then 0 else j - 1);
      if j > 0 {
        assert labels[..j][1..] == labels[1..][..j - 1];
      }
    }
  }

  lemma {:induction false} ClockAdvances(s: State, labels: seq<Label>, i: nat, j: nat)
    requires Legal(s, labels) && i <= j <= |labels|
    requires Legal(s, labels[..i]) && Legal(s, labels[..j])
    ensures Exec(s, labels[..i]).now <= Exec(s, labels[..j]).now
    decreases |labels|
  {
    if i == 0 {
      Forward(s, labels[..j]);
    } else {
      assert labels[..i][1..] == labels[1..][..i - 1] && labels[..j][1..] == labels[1..][..j - 1];
      ClockAdvances(Apply(s, labels[0]), labels[1..], i - 1, j - 1);
    }
  }

  lemma {:induction false} Forward(s: State, labels: seq<Label>)
    requires Legal(s, labels)
    ensures s.now <= Exec(s, labels).now
    decreases |labels|
  {
    if labels != [] {
      Forward(Apply(s, labels[0]), labels[1..]);
    }
  }

  /** A status returned from a cache hit was the Firestore status at some moment of the run less
      than 24 hours and the fill delay ago, for every interleaving of validations by either
      service, document changes, expiries and failures. */
  lemma BoundedStaleness(docs: Docs, labels: seq<Label>, delay: nat, id: nat, user: string) returns (j: nat)
    requires Legal(Start(docs), labels) && Prompt(Start(docs), labels, delay)
    requires var s := Exec(Start(docs), labels); id !in s.requests && InForce(s, user)
    ensures j <= |labels| && Legal(Start(docs), labels[..j])
    ensures var s, past := Exec(Start(docs), labels), Exec(Start(docs), labels[..j]);
      && Apply(s, Lookup(id, user, true)).requests[id] == Answered(user, Direct(past.docs, user), Hit)
      && s.now - TTL - delay < past.now <= s.now
  {
    var s := Exec(Start(docs), labels);
    RunKeepsFresh(Start(docs), labels, delay);
    assert FreshEntry(s, user, delay);
    HistoryIsTheRun(Start(docs), labels, 0);
    j := s.cache[user].src;
    HistoryIsTheRun(Start(docs), labels, j);
    assert labels[..|labels|] == labels;
    ClockAdvances(Start(docs), labels, j, |labels|);
  }

  // From moment c on, the user's documents have said what they say at the end.
  ghost predicate SteadySince(docs: Docs, labels: seq<Label>, user: string, c: nat)
    requires Legal(Start(docs), labels)
  {
    forall j :: c <= j <= |labels| && Legal(Start(docs), labels[..j]) ==>
      Direct(Exec(Start(docs), labels[..j]).docs, user) == Direct(Exec(Start(docs), labels).docs, user)
  }

  /** Once a user's Firestore status has stayed the same for 24 hours and the fill delay, every
      hit returns it. */
  lemma HitsConverge(docs: Docs, labels: seq<Label>, delay: nat, id: nat, user: string, c: nat)
    requires Legal(Start(docs), labels) && Prompt(Start(docs), labels, delay)
    requires var s := Exec(Start(docs), labels); id !in s.requests && InForce(s, user)
    requires c <= |labels| && Legal(Start(docs), labels[..c]) && SteadySince(docs, labels, user, c)
    requires Exec(Start(docs), labels).now >= Exec(Start(docs), labels[..c]).now + TTL + delay
    ensures var s := Exec(Start(docs), labels);
      Apply(s, Lookup(id, user, true)).requests[id] == Answered(user, Direct(s.docs, user), Hit)
  {
    var j := BoundedStaleness(docs, labels, delay, id, user);
    if j < c {
      ClockAdvances(Start(docs), labels, j, c);
    }
  }

  // ---------- A filled entry answers ----------

  // The run neither evicts the user's entry nor replaces it.
  ghost predicate Keeps(s: State, labels: seq<Label>, user: string)
    requires Legal(s, labels)
    decreases |labels|
  {
    labels == [] ||
    (&& labels[0] != Evict(user)
     && (labels[0].Fill? ==> s.requests[labels[0].id].user != user || !labels[0].redisOk)
     && Keeps(Apply(s, labels[0]), labels[1..], user))
  }

  lemma {:induction false} EntryStays(s: State, labels: seq<Label>, user: string)
    requires Legal(s, labels) && Keeps(s, labels, user) && user in s.cache
    ensures var s' := Exec(s, labels); user in s'.cache && s'.cache[user] == s.cache[user]
    decreases |labels|
  {
    if labels != [] {
      EntryStays(Apply(s, labels[0]), labels[1..], user);
    }
  }

  /** After a fill that Redis accepts, and until the entry is evicted or filled again, a lookup that
      reaches Redis returns the status filled if and only if 24 hours are not over; Firestore is not
      asked and may fail. A lookup that does not reach Redis is a miss. */
  lemma FilledHitsIff(s: State, fill: nat, labels: seq<Label>, id: nat, redisOk: bool)
    requires Enabled(s, Fill(fill, true)) && Legal(Apply(s, Fill(fill, true)), labels)
    requires Keeps(Apply(s, Fill(fill, true)), labels, s.requests[fill].user)
    requires id !in Exec(Apply(s, Fill(fill, true)), labels).requests
    ensures var filled, s' := s.requests[fill], Exec(Apply(s, Fill(fill, true)), labels);
      Apply(s', Lookup(id, filled.user, redisOk)).requests[id] ==
        if redisOk && s'.now < s.now + 86400 then Answered(filled.user, filled.status, Hit) else Missed(filled.user)
  {
    EntryStays(Apply(s, Fill(fill, true)), labels, s.requests[fill].user);
  }

  // ---------- Refinement of the direct lookup ----------

  ghost predicate RightAnswer(docs: Docs, r: Request) {
    match r
    case Missed(_) => true
    case Fetching(user, status, _, _) => status == Direct(docs, user)
    case Answered(user, status, how) => status == if how == Transient then UNKNOWN else Direct(docs, user)
  }

  ghost predicate Consistent(s: State) {
    && (forall user :: user in s.cache ==> s.cache[user].status == Direct(s.docs, user))
    && (forall id :: id in s.requests ==> RightAnswer(s.docs, s.requests[id]))
  }

  lemma StepKeepsConsistent(s: State, lab: Label)
    requires Consistent(s) && Enabled(s, lab) && !lab.Change?
    ensures Consistent(Apply(s, lab)) && Apply(s, lab).docs == s.docs
  {
    assert lab.Fill? ==> RightAnswer(s.docs, s.requests[lab.id]);
  }

  /** While no document changes, every validation of either service returns what Firestore says,
      or (false, false) when its own Firestore read failed, whatever expires, is evicted or fails
      in Redis. A failed read never reaches the cache, so no other answer depends on it. */
  lemma {:induction false} CachedRefinesDirect(s: State, labels: seq<Label>, id: nat)
    requires Consistent(s) && Legal(s, labels) && id !in s.requests
    requires forall i :: 0 <= i < |labels| ==> !labels[i].Change?
    ensures var s' := Exec(s, labels);
      && Consistent(s') && s'.docs == s.docs
      && (id in s'.requests && s'.requests[id].Answered? ==>
            s'.requests[id].status ==
              if Fetch(id, false) in labels then UNKNOWN else Direct(s.docs, s'.requests[id].user))
  {
    Answers(s, labels, id, false);
  }

  // `failed` says that the request's own read has failed already.
  lemma {:induction false} Answers(s: State, labels: seq<Label>, id: nat, failed: bool)
    requires Consistent(s) && Legal(s, labels)
    requires forall i :: 0 <= i < |labels| ==> !labels[i].Change?
    requires failed <==> id in s.requests && s.requests[id].Answered? && s.requests[id].how == Transient
    ensures var s' := Exec(s, labels);
      && Consistent(s') && s'.docs == s.docs
      && (id in s'.requests && s'.requests[id].Answered? ==>
            (s'.requests[id].how == Transient <==> failed || Fetch(id, false) in labels)
            && s'.requests[id].status ==
              if failed || Fetch(id, false) in labels then UNKNOWN else Direct(s.docs, s'.requests[id].user))
    decreases |labels|
  {
    if labels == [] {
      assert id in s.requests ==> RightAnswer(s.docs, s.requests[id]);
    } else {
      var s1 := Apply(s, labels[0]);
      StepKeepsConsistent(s, labels[0]);
      Answers(s1, labels[1..], id, failed || labels[0] == Fetch(id, false));
      assert labels == [labels[0]] + labels[1..];
    }
  }
}
