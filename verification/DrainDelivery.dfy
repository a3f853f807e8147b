/** What the drain protocol guarantees over whole runs: a conservation law for the counts of
    every (news, user) pair, exact delivery when nothing is lost, and progress of one cycle. */
module DrainDelivery {
  import opened Wrappers
  import opened CounterKeys
  import opened DrainProtocol

  // ---------- Totals of the concrete counts ----------

  function SumRecs(recs: seq<Rec>, news: string): nat {
    if recs == [] then 0
    else
      var last := recs[|recs| - 1];
      SumRecs(recs[..|recs| - 1], news) + if last.news == news then last.count else 0
  }

  ghost function AnyOf<T>(s: set<T>): (x: T)
    requires s != {}
    ensures x in s
  {
    var x :| x in s; x
  }

  // Over the stored objects of one user among `names`.
  ghost function SumObjects(objects: map<Obj, seq<Rec>>, names: set<Obj>, news: string, user: string): nat
    requires names <= objects.Keys
  {
    if names == {} then 0
    else
      var o := AnyOf(names);
      SumObjects(objects, names - {o}, news, user) + if o.user == user then SumRecs(objects[o], news) else 0
  }

  ghost function SumCounters(counters: map<string, nat>, keys: set<string>, news: string, user: string): nat
    requires keys <= counters.Keys
  {
    if keys == {} then 0
    else
      var k := AnyOf(keys);
      SumCounters(counters, keys - {k}, news, user) + if ParseKey(k) == Some((news, user)) then counters[k] else 0
  }

  /** The accesses that the stored objects report. */
  ghost function Delivered(s: State, news: string, user: string): nat {
    SumObjects(s.objects, s.objects.Keys, news, user)
  }

  ghost function Counted(s: State, news: string, user: string): nat {
    SumCounters(s.counters, s.counters.Keys, news, user)
  }

  ghost function InHand(s: State, d: DrainerId, news: string, user: string): nat
    requires HasDrainers(s)
  {
    SumRecs(Recs(s, Hand(d, user)), news)
  }

  // ---------- The increments behind them ----------

  ghost predicate Credited(e: Entry, news: string, user: string) {
    ParseKey(e.key) == Some((news, user))
  }

  ghost function Issued(l: Ledger, news: string, user: string): set<nat> {
    set t: nat | t < |l| && Credited(l[t], news, user)
  }

  ghost function Waiting(l: Ledger, news: string, user: string): set<nat> {
    set t: nat | t < |l| && Credited(l[t], news, user) && l[t].place == Pending
  }

  ghost function LiveAmong(l: Ledger, keys: set<string>, news: string, user: string): set<nat> {
    set t: nat | t < |l| && Credited(l[t], news, user) && l[t].place.Live? && l[t].place.key in keys
  }

  ghost function OnShelf(l: Ledger, shelf: Shelf, bound: nat, news: string, user: string): set<nat> {
    set t: nat | t < |l| && Credited(l[t], news, user)
      && l[t].place.On? && l[t].place.shelf == shelf && l[t].place.index < bound
  }

  ghost function StoredAmong(l: Ledger, names: set<Obj>, news: string, user: string): set<nat> {
    set t: nat | t < |l| && Credited(l[t], news, user)
      && l[t].place.On? && l[t].place.shelf.Bucket? && l[t].place.shelf.obj in names
  }

  ghost function LostTo(l: Ledger, why: Loss, news: string, user: string): set<nat> {
    set t: nat | t < |l| && Credited(l[t], news, user) && l[t].place == Gone(why)
  }

  ghost function LostCount(l: Ledger, news: string, user: string): nat {
    |LostTo(l, IncrFailed, news, user)| + |LostTo(l, ReplyLost, news, user)|
    + |LostTo(l, PutFailed, news, user)| + |LostTo(l, Overwritten, news, user)|
  }

  lemma OneMoreRecord(s: State, shelf: Shelf, i: nat, news: string)
    requires Inv(s) && i < |Recs(s, shelf)|
    ensures OnShelf(s.ledger, shelf, i + 1, news, ShelfUser(shelf)) ==
            OnShelf(s.ledger, shelf, i, news, ShelfUser(shelf))
            + if Recs(s, shelf)[i].news == news then At(s.ledger, On(shelf, i)) else {}
  {
    hide ParseKey, KEY_PREFIX, CountersMatch, KeysListed, Recs;
    forall t: nat | t < |s.ledger| && s.ledger[t].place == On(shelf, i)
      ensures Credited(s.ledger[t], news, ShelfUser(shelf)) <==> Recs(s, shelf)[i].news == news
    {
      assert Labelled(s, s.ledger[t]);
    }
    hide ShelvesMatch, Credited;
  }

  lemma {:induction false} ShelfPrefix(s: State, shelf: Shelf, bound: nat, news: string)
    requires Inv(s) && bound <= |Recs(s, shelf)|
    ensures SumRecs(Recs(s, shelf)[..bound], news) == |OnShelf(s.ledger, shelf, bound, news, ShelfUser(shelf))|
  {
    hide ParseKey, KEY_PREFIX, CountersMatch, KeysListed, Recs, ShelfUser, Labelled, Credited;
    var recs, user := Recs(s, shelf), ShelfUser(shelf);
    if bound == 0 {
      assert OnShelf(s.ledger, shelf, 0, news, user) == {};
    } else {
      ShelfPrefix(s, shelf, bound - 1, news);
      OneMoreRecord(s, shelf, bound - 1, news);
      assert recs[..bound][..bound - 1] == recs[..bound - 1];
      assert OnShelf(s.ledger, shelf, bound - 1, news, user) !! At(s.ledger, On(shelf, bound - 1));
    }
  }

  // The records of a shelf total the increments that lie on it.
  lemma ShelfTotal(s: State, shelf: Shelf, news: string)
    requires Inv(s)
    ensures SumRecs(Recs(s, shelf), news) == |OnShelf(s.ledger, shelf, |Recs(s, shelf)|, news, ShelfUser(shelf))|
  {
    hide ParseKey, KEY_PREFIX, ShelvesMatch, CountersMatch, KeysListed;
    ShelfPrefix(s, shelf, |Recs(s, shelf)|, news);
    assert Recs(s, shelf)[..|Recs(s, shelf)|] == Recs(s, shelf);
  }

  lemma OneMoreObject(s: State, names: set<Obj>, o: Obj, news: string, user: string)
    requires Inv(s) && o in names && names <= s.objects.Keys
    ensures var rest := StoredAmong(s.ledger, names - {o}, news, user);
      var here := if o.user == user then OnShelf(s.ledger, Bucket(o), |Recs(s, Bucket(o))|, news, user) else {};
      StoredAmong(s.ledger, names, news, user) == rest + here && rest !! here
  {
    hide ParseKey, KEY_PREFIX, CountersMatch, KeysListed;
    forall t: nat | t < |s.ledger| && s.ledger[t].place.On? && s.ledger[t].place.shelf == Bucket(o)
      ensures s.ledger[t].place.index < |Recs(s, Bucket(o))|
      ensures Credited(s.ledger[t], news, user) ==> o.user == user
    {
      assert Labelled(s, s.ledger[t]);
    }
    hide ShelvesMatch, Recs, Credited, Labelled;
  }

  lemma {:induction false} StoredTotal(s: State, names: set<Obj>, news: string, user: string)
    requires Inv(s) && names <= s.objects.Keys
    ensures SumObjects(s.objects, names, news, user) == |StoredAmong(s.ledger, names, news, user)|
    decreases names
  {
    if names == {} {
      assert StoredAmong(s.ledger, names, news, user) == {};
    } else {
      hide CountersMatch, ShelvesMatch, KeysListed, StoredAmong, OnShelf, SumRecs;
      var o := AnyOf(names);
      StoredTotal(s, names - {o}, news, user);
      OneMoreObject(s, names, o, news, user);
      if o.user == user { ShelfTotal(s, Bucket(o), news); }
    }
  }

  lemma CreditedByKey(s: State, t: nat, k: string, news: string, user: string)
    requires Inv(s) && t < |s.ledger| && s.ledger[t].place == Live(k)
    ensures Credited(s.ledger[t], news, user) <==> ParseKey(k) == Some((news, user))
  {
    hide ParseKey, KEY_PREFIX, ShelvesMatch, KeysListed;
  }

  lemma OneMoreCounter(s: State, keys: set<string>, k: string, news: string, user: string)
    requires Inv(s) && k in keys && keys <= s.counters.Keys
    ensures var rest := LiveAmong(s.ledger, keys - {k}, news, user);
      var here := if ParseKey(k) == Some((news, user)) then At(s.ledger, Live(k)) else {};
      LiveAmong(s.ledger, keys, news, user) == rest + here && rest !! here
  {
    hide ParseKey, Inv, Credited;
    forall t: nat | t < |s.ledger| && s.ledger[t].place == Live(k)
      ensures Credited(s.ledger[t], news, user) <==> ParseKey(k) == Some((news, user))
    {
      CreditedByKey(s, t, k, news, user);
    }
    if ParseKey(k) == Some((news, user)) {
      assert LiveAmong(s.ledger, keys, news, user) ==
             LiveAmong(s.ledger, keys - {k}, news, user) + At(s.ledger, Live(k));
    } else {
      assert LiveAmong(s.ledger, keys, news, user) == LiveAmong(s.ledger, keys - {k}, news, user);
    }
  }

  lemma {:induction false} LiveTotal(s: State, keys: set<string>, news: string, user: string)
    requires Inv(s) && keys <= s.counters.Keys
    ensures SumCounters(s.counters, keys, news, user) == |LiveAmong(s.ledger, keys, news, user)|
    decreases keys
  {
    if keys == {} {
      assert LiveAmong(s.ledger, keys, news, user) == {};
    } else {
      hide ShelvesMatch, KeysListed, LiveAmong, ParseKey, At;
      var k := AnyOf(keys);
      LiveTotal(s, keys - {k}, news, user);
      OneMoreCounter(s, keys, k, news, user);
    }
  }

  lemma Disjoint3(a: set<nat>, b: set<nat>, c: set<nat>)
    requires a !! b && a !! c && b !! c
    ensures |a + b + c| == |a| + |b| + |c|
  {
  }

  ghost function InSystem(s: State, news: string, user: string): set<nat>
    requires HasDrainers(s)
  {
    Waiting(s.ledger, news, user) + LiveAmong(s.ledger, s.counters.Keys, news, user)
    + StoredAmong(s.ledger, s.objects.Keys, news, user)
  }

  ghost function Held(s: State, d: DrainerId, news: string, user: string): set<nat>
    requires HasDrainers(s)
  {
    OnShelf(s.ledger, Hand(d, user), |Recs(s, Hand(d, user))|, news, user)
  }

  ghost function Vanished(l: Ledger, news: string, user: string): set<nat> {
    set t: nat | t < |l| && Credited(l[t], news, user) && l[t].place.Gone?
  }

  lemma LostByKind(l: Ledger, news: string, user: string)
    ensures |Vanished(l, news, user)| == LostCount(l, news, user)
  {
    hide Credited;
    var a, b := LostTo(l, IncrFailed, news, user), LostTo(l, ReplyLost, news, user);
    var c, d := LostTo(l, PutFailed, news, user), LostTo(l, Overwritten, news, user);
    assert a !! b && a !! c && b !! c && a + b + c !! d;
    VanishedByKind(l, news, user);
    hide LostTo, Vanished;
    Disjoint3(a, b, c);
  }

  lemma VanishedByKind(l: Ledger, news: string, user: string)
    ensures Vanished(l, news, user) ==
            (LostTo(l, IncrFailed, news, user) + LostTo(l, ReplyLost, news, user) + LostTo(l, PutFailed, news, user))
            + LostTo(l, Overwritten, news, user)
  {
    hide Credited;
    forall t: nat | t < |l| && l[t].place.Gone?
      ensures l[t].place.why in {IncrFailed, ReplyLost, PutFailed, Overwritten}
    {
      match l[t].place.why case IncrFailed => case ReplyLost => case PutFailed => case Overwritten =>
    }
  }

  lemma DisjointParts(s: State, news: string, user: string)
    requires HasDrainers(s)
    ensures Held(s, FeedApi, news, user) !! Held(s, LogPusher, news, user)
            !! InSystem(s, news, user) !! Vanished(s.ledger, news, user)
  {
    hide Credited, Recs, ParseKey;
  }

  // Each increment is in exactly one of these places.
  lemma Partition(s: State, news: string, user: string)
    requires Inv(s)
    ensures Issued(s.ledger, news, user) ==
            InSystem(s, news, user)
            + (Held(s, FeedApi, news, user) + Held(s, LogPusher, news, user) + Vanished(s.ledger, news, user))
  {
    hide ParseKey, KEY_PREFIX, ShelvesMatch, CountersMatch, KeysListed, Credited, Recs;
    forall t | t in Issued(s.ledger, news, user)
      ensures t in InSystem(s, news, user)
        + (Held(s, FeedApi, news, user) + Held(s, LogPusher, news, user) + Vanished(s.ledger, news, user))
    {
      Somewhere(s, t, news, user);
      match s.ledger[t].place
      case On(Hand(FeedApi, _), _) => assert t in Held(s, FeedApi, news, user);
      case On(Hand(LogPusher, _), _) => assert t in Held(s, LogPusher, news, user);
      case On(Bucket(_), _) => assert t in StoredAmong(s.ledger, s.objects.Keys, news, user);
      case _ =>
    }
  }

  // Whatever lies on a shelf lies on one that is there.
  lemma Somewhere(s: State, t: nat, news: string, user: string)
    requires Inv(s) && t in Issued(s.ledger, news, user)
    ensures match s.ledger[t].place
      case Live(k) => k in s.counters
      case On(Bucket(o), _) => o in s.objects
      case On(Hand(d, u), i) => u == user && i < |Recs(s, Hand(d, u))|
      case _ => true
  {
    hide ParseKey, KEY_PREFIX;
    if s.ledger[t].place.On? {
      assert Labelled(s, s.ledger[t]);
    }
  }

  lemma SystemTotal(s: State, news: string, user: string)
    requires Inv(s)
    ensures |InSystem(s, news, user)| ==
            |Waiting(s.ledger, news, user)| + Counted(s, news, user) + Delivered(s, news, user)
  {
    hide ParseKey, KEY_PREFIX, ShelvesMatch, CountersMatch, KeysListed, Credited, SumObjects, SumCounters;
    LiveTotal(s, s.counters.Keys, news, user);
    StoredTotal(s, s.objects.Keys, news, user);
    Disjoint3(Waiting(s.ledger, news, user), LiveAmong(s.ledger, s.counters.Keys, news, user),
              StoredAmong(s.ledger, s.objects.Keys, news, user));
  }

  /** In every state that keeps the invariant, the increments issued for a (news, user) pair are
      those not yet applied, the live counters, what either drainer holds, what is stored, and
      what each kind of fault lost. The counts are the ones Redis, the drainers and the objects hold. */
  lemma Conservation(s: State, news: string, user: string)
    requires Inv(s)
    ensures |Issued(s.ledger, news, user)| ==
            |Waiting(s.ledger, news, user)| + Counted(s, news, user)
            + InHand(s, FeedApi, news, user) + InHand(s, LogPusher, news, user)
            + Delivered(s, news, user) + LostCount(s.ledger, news, user)
  {
    hide ParseKey, KEY_PREFIX, ShelvesMatch, CountersMatch, KeysListed, Credited;
    hide SumRecs, SumObjects, SumCounters, Recs;
    SystemTotal(s, news, user);
    ShelfTotal(s, Hand(FeedApi, user), news);
    ShelfTotal(s, Hand(LogPusher, user), news);
    Partition(s, news, user);
    DisjointParts(s, news, user);
    LostByKind(s.ledger, news, user);
    hide Waiting, OnShelf, Vanished, InSystem, Issued, LostCount, Counted, Delivered;
    Disjoint3(Held(s, FeedApi, news, user), Held(s, LogPusher, news, user), Vanished(s.ledger, news, user));
  }

  // ---------- Over whole runs ----------

  // The detail requests of a run that a drainer credits to (news, user).
  function CountServed(labels: seq<Label>, news: string, user: string): nat {
    if labels == [] then 0
    else
      (if labels[0].Serve? && labels[0].news == news && Owner(labels[0].apiKey) == user then 1 else 0)
      + CountServed(labels[1..], news, user)
  }

  lemma {:induction false} NoneServed(labels: seq<Label>, news: string, user: string)
    requires forall i :: 0 <= i < |labels| ==> !labels[i].Serve?
    ensures CountServed(labels, news, user) == 0
  {
    if labels != [] {
      NoneServed(labels[1..], news, user);
    }
  }

  // The detail requests of a run made for `news` with this very API key.
  function CountRequests(labels: seq<Label>, news: string, apiKey: string): nat {
    if labels == [] then 0
    else
      (if labels[0] == Serve(news, apiKey) then 1 else 0) + CountRequests(labels[1..], news, apiKey)
  }

  lemma ServeIssues(l: Ledger, e: Entry, news: string, user: string)
    ensures |Issued(l + [e], news, user)| == |Issued(l, news, user)| + if Credited(e, news, user) then 1 else 0
  {
    hide Credited;
    var l' := l + [e];
    assert Issued(l', news, user) == Issued(l, news, user) + if Credited(e, news, user) then {|l|} else {};
  }

  lemma KeysKept(s: State, lab: Label)
    requires HasDrainers(s) && Enabled(s, lab) && !lab.Serve?
    ensures var l' := Apply(s, lab).ledger;
      |l'| == |s.ledger| && forall t :: 0 <= t < |l'| ==> l'[t].key == s.ledger[t].key
  {
    hide ParseKey, CounterKey, KEY_PREFIX;
  }

  lemma StepIssues(s: State, lab: Label, news: string, user: string)
    requires HasDrainers(s) && Enabled(s, lab)
    ensures |Issued(Apply(s, lab).ledger, news, user)| ==
            |Issued(s.ledger, news, user)| + CountServed([lab], news, user)
  {
    assert [lab][1..] == [];
    if lab.Serve? {
      ParseOfCounterKey(lab.news, lab.apiKey);
      hide ParseKey, CounterKey, KEY_PREFIX, Issued;
      ServeIssues(s.ledger, Entry(CounterKey(lab.news, lab.apiKey), Pending), news, user);
    } else {
      KeysKept(s, lab);
      hide ParseKey, CounterKey, KEY_PREFIX, Apply;
      assert Issued(Apply(s, lab).ledger, news, user) == Issued(s.ledger, news, user);
    }
  }

  lemma {:induction false} RunIssues(s: State, labels: seq<Label>, news: string, user: string)
    requires Inv(s) && Legal(s, labels)
    ensures |Issued(Exec(s, labels).ledger, news, user)| ==
            |Issued(s.ledger, news, user)| + CountServed(labels, news, user)
    decreases |labels|
  {
    if labels != [] {
      hide Inv, Enabled, ParseKey, Owner;
      StepIssues(s, labels[0], news, user);
      StepKeepsInv(s, labels[0]);
      RunIssues(Apply(s, labels[0]), labels[1..], news, user);
      assert [labels[0]][1..] == [];
    }
  }

  lemma InitInv()
    ensures Inv(INIT)
  {
    forall d: DrainerId ensures d in INIT.phase { match d case FeedApi => case LogPusher => }
    forall p ensures At(INIT.ledger, p) == {} {}
  }

  /** Conservation in every reachable state of any interleaving of requests, INCR goroutines and
      both drainers, with any faults. */
  lemma RunConservation(labels: seq<Label>, news: string, user: string)
    requires Legal(INIT, labels)
    ensures HasDrainers(Exec(INIT, labels))
    ensures var s := Exec(INIT, labels);
      CountServed(labels, news, user) ==
        |Waiting(s.ledger, news, user)| + Counted(s, news, user)
        + InHand(s, FeedApi, news, user) + InHand(s, LogPusher, news, user)
        + Delivered(s, news, user) + LostCount(s.ledger, news, user)
  {
    InitInv();
    RunKeepsInv(INIT, labels);
    RunIssues(INIT, labels, news, user);
    assert Issued(INIT.ledger, news, user) == {};
    Conservation(Exec(INIT, labels), news, user);
  }

  ghost predicate Quiescent(s: State)
    requires HasDrainers(s)
  {
    && (forall t :: 0 <= t < |s.ledger| ==> s.ledger[t].place != Pending)
    && s.counters == map[]
    && forall d :: s.phase[d].Idle?
  }

  // ---------- Which runs lose counts ----------

  ghost predicate HasNews(recs: seq<Rec>, news: string) {
    exists i :: 0 <= i < |recs| && recs[i].news == news
  }

  /** The step loses counts of (news, user): an INCR of theirs fails, the reply of a GETDEL of one of
      their live counters is lost, a PUT of a group that holds some is rejected, or a PUT replaces an
      object that holds some. */
  ghost predicate Loses(s: State, lab: Label, news: string, user: string)
    requires HasDrainers(s) && Enabled(s, lab)
  {
    match lab
    case Incr(t, incr) => incr == IncrError && ParseKey(s.ledger[t].key) == Some((news, user))
    case GetDel(d, reply) =>
      var key := s.phase[d].todo[0];
      reply == Lost && key in s.counters && ParseKey(key) == Some((news, user))
    case Put(d, put) =>
      var obj := s.phase[d].name.value;
      obj.user == user && HasNews(if put == Stored then Recs(s, Bucket(obj)) else s.phase[d].groups[user], news)
    case _ => false
  }

  ghost predicate Lossless(s: State, labels: seq<Label>, news: string, user: string)
    requires Legal(s, labels)
    decreases |labels|
  {
    labels == [] || (!Loses(s, labels[0], news, user) && Lossless(Apply(s, labels[0]), labels[1..], news, user))
  }

  ghost predicate NoneGone(l: Ledger, news: string, user: string) {
    forall t :: 0 <= t < |l| && Credited(l[t], news, user) ==> !l[t].place.Gone?
  }

  // No counter, and no record, stands at zero.
  ghost predicate Positive(s: State)
    requires HasDrainers(s)
  {
    && (forall k :: k in s.counters ==> s.counters[k] > 0)
    && (forall shelf, i: nat :: i < |Recs(s, shelf)| ==> Recs(s, shelf)[i].count > 0)
  }

  lemma StepKeepsPositive(s: State, lab: Label)
    requires HasDrainers(s) && Positive(s) && Enabled(s, lab)
    ensures Positive(Apply(s, lab))
  {
    hide ParseKey, CounterKey, KEY_PREFIX, IsSnapshot;
    var s' := Apply(s, lab);
    forall shelf, i: nat | i < |Recs(s', shelf)| ensures Recs(s', shelf)[i].count > 0 {
      if lab.Put? && lab.put == Stored && shelf == Bucket(s.phase[lab.d].name.value) {
        assert Recs(s', shelf) == Recs(s, Hand(lab.d, shelf.obj.user));
      } else {
        assert i < |Recs(s, shelf)| ==> Recs(s', shelf)[i] == Recs(s, shelf)[i];
      }
    }
  }

  // Gone stays gone.
  lemma GoneBefore(s: State, lab: Label, news: string, user: string)
    requires Inv(s) && Enabled(s, lab) && NoneGone(Apply(s, lab).ledger, news, user)
    ensures NoneGone(s.ledger, news, user)
  {
    hide ParseKey, Inv, Apply, Enabled;
    forall t | 0 <= t < |s.ledger| && Credited(s.ledger[t], news, user) ensures !s.ledger[t].place.Gone? {
      StepAdvances(s, lab, t);
    }
  }

  // An increment behind each record of a shelf.
  lemma Behind(s: State, shelf: Shelf, news: string) returns (t: nat)
    requires Inv(s) && Positive(s) && HasNews(Recs(s, shelf), news)
    ensures t < |s.ledger| && s.ledger[t].place.On? && s.ledger[t].place.shelf == shelf
    ensures Credited(s.ledger[t], news, ShelfUser(shelf))
  {
    hide ParseKey, CountersMatch, KeysListed;
    var i: nat :| i < |Recs(s, shelf)| && Recs(s, shelf)[i].news == news;
    assert At(s.ledger, On(shelf, i)) != {};
    t :| t in At(s.ledger, On(shelf, i));
    assert Labelled(s, s.ledger[t]);
  }

  // A step that loses leaves an increment of the pair gone.
  lemma LosingStep(s: State, lab: Label, news: string, user: string) returns (t: nat)
    requires Inv(s) && Positive(s) && Enabled(s, lab) && Loses(s, lab, news, user)
    ensures var l' := Apply(s, lab).ledger;
      t < |l'| && Credited(l'[t], news, user) && l'[t].place.Gone?
  {
    hide ParseKey, CounterKey, KEY_PREFIX, KeysListed, ShelvesMatch;
    match lab
    case Incr(u, _) => t := u;
    case GetDel(d, _) =>
      var key := s.phase[d].todo[0];
      assert At(s.ledger, Live(key)) != {};
      t :| t in At(s.ledger, Live(key));
    case Put(d, put) =>
      var obj := s.phase[d].name.value;
      t := Behind(s, if put == Stored then Bucket(obj) else Hand(d, user), news);
  }

  // Where there is such an increment on a shelf, there is a record of it.
  lemma RecordOf(s: State, t: nat, news: string, user: string)
    requires Inv(s) && t < |s.ledger| && s.ledger[t].place.On? && Credited(s.ledger[t], news, user)
    ensures ShelfUser(s.ledger[t].place.shelf) == user && HasNews(Recs(s, s.ledger[t].place.shelf), news)
  {
    hide ParseKey, CountersMatch, KeysListed;
    assert Labelled(s, s.ledger[t]);
  }

  // A step that does not lose leaves none gone that was not.
  lemma KeepingStep(s: State, lab: Label, news: string, user: string)
    requires Inv(s) && Enabled(s, lab) && NoneGone(s.ledger, news, user) && !Loses(s, lab, news, user)
    ensures NoneGone(Apply(s, lab).ledger, news, user)
  {
    hide ParseKey, CounterKey, KEY_PREFIX, KeysListed, ShelvesMatch;
    var l' := Apply(s, lab).ledger;
    forall t | 0 <= t < |l'| && Credited(l'[t], news, user) ensures !l'[t].place.Gone? {
      if t < |s.ledger| {
        StepAdvances(s, lab, t);
        if s.ledger[t].place.On? { RecordOf(s, t, news, user); }
      }
    }
  }

  /** A run loses no increment of (news, user) exactly when none of its steps loses any. */
  lemma {:induction false} LosslessRun(s: State, labels: seq<Label>, news: string, user: string)
    requires Inv(s) && Positive(s) && Legal(s, labels)
    ensures NoneGone(Exec(s, labels).ledger, news, user) <==>
            NoneGone(s.ledger, news, user) && Lossless(s, labels, news, user)
    decreases |labels|
  {
    if labels != [] {
      hide Inv, Enabled, Loses, Positive, NoneGone, Apply;
      var lab := labels[0];
      StepKeepsInv(s, lab);
      StepKeepsPositive(s, lab);
      LosslessRun(Apply(s, lab), labels[1..], news, user);
      if NoneGone(Apply(s, lab).ledger, news, user) {
        GoneBefore(s, lab, news, user);
        if Loses(s, lab, news, user) { LostAtOnce(s, lab, news, user); }
      } else if NoneGone(s.ledger, news, user) && !Loses(s, lab, news, user) {
        KeepingStep(s, lab, news, user);
      }
    }
  }

  lemma LostAtOnce(s: State, lab: Label, news: string, user: string)
    requires Inv(s) && Positive(s) && Enabled(s, lab) && Loses(s, lab, news, user)
    ensures !NoneGone(Apply(s, lab).ledger, news, user)
  {
    hide Inv, Positive, Enabled, Loses, Apply, Credited;
    var t := LosingStep(s, lab, news, user);
  }

  lemma NoneGoneIff(l: Ledger, news: string, user: string)
    ensures NoneGone(l, news, user) <==> LostCount(l, news, user) == 0
  {
    LostByKind(l, news, user);
    hide Credited, LostCount;
    forall t: nat | t < |l| && Credited(l[t], news, user) && l[t].place.Gone? ensures t in Vanished(l, news, user) {}
    forall t | t in Vanished(l, news, user) ensures !NoneGone(l, news, user) {}
  }

  /** In every quiescent state the stored objects report, for each (news, user), all requests but
      those a fault lost. They report exactly the requests if and only if no step of the run loses
      counts of the pair. */
  lemma ExactDelivery(labels: seq<Label>, news: string, user: string)
    requires Legal(INIT, labels) && HasDrainers(Exec(INIT, labels)) && Quiescent(Exec(INIT, labels))
    ensures var s := Exec(INIT, labels);
      && Delivered(s, news, user) + LostCount(s.ledger, news, user) == CountServed(labels, news, user)
      && (Delivered(s, news, user) == CountServed(labels, news, user) <==> Lossless(INIT, labels, news, user))
  {
    var s := Exec(INIT, labels);
    RunConservation(labels, news, user);
    assert Waiting(s.ledger, news, user) == {};
    InitInv();
    LosslessRun(INIT, labels, news, user);
    NoneGoneIff(s.ledger, news, user);
  }

  // An INCR fails, the reply of a GETDEL is lost, or a PUT is rejected.
  predicate Fault(lab: Label) {
    match lab
    case Incr(_, incr) => incr == IncrError
    case GetDel(_, reply) => reply == Lost
    case Put(_, put) => put == Rejected
    case _ => false
  }

  // The run has no such fault, and takes no name that is in `taken` and none twice: no two names for
  // one user in one second.
  ghost predicate FaultFree(s: State, labels: seq<Label>, taken: set<Obj>)
    requires Legal(s, labels)
    decreases |labels|
  {
    labels == [] ||
    (&& !Fault(labels[0])
     && (labels[0].Name? ==> Obj(labels[0].user, s.clock) !in taken)
     && FaultFree(Apply(s, labels[0]), labels[1..], TakenBy(s, labels[0], taken)))
  }

  function TakenBy(s: State, lab: Label, taken: set<Obj>): set<Obj> {
    if lab.Name? then taken + {Obj(lab.user, s.clock)} else taken
  }

  ghost predicate Holds(s: State, d: DrainerId, name: Obj)
    requires HasDrainers(s)
  {
    s.phase[d].Uploading? && s.phase[d].name == Some(name)
  }

  // Every stored or held name was taken, and a held one is neither stored nor held by the other.
  ghost predicate Taken(s: State, taken: set<Obj>)
    requires HasDrainers(s)
  {
    && s.objects.Keys <= taken
    && (forall d, name :: Holds(s, d, name) ==> name in taken && name !in s.objects)
    && forall d, d', name :: Holds(s, d, name) && Holds(s, d', name) ==> d == d'
  }

  lemma StepKeepsTaken(s: State, lab: Label, taken: set<Obj>)
    requires HasDrainers(s) && Enabled(s, lab) && Taken(s, taken)
    requires lab.Name? ==> Obj(lab.user, s.clock) !in taken
    ensures Taken(Apply(s, lab), TakenBy(s, lab, taken))
  {
    hide ParseKey, CounterKey, KEY_PREFIX, IsSnapshot;
    var s' := Apply(s, lab);
    forall d, name | Holds(s', d, name)
      ensures Holds(s, d, name) || (lab.Name? && d == lab.d && name == Obj(lab.user, s.clock))
    {
    }
    if lab.Put? {
      var name := s.phase[lab.d].name.value;
      assert Holds(s, lab.d, name) && s'.objects.Keys <= s.objects.Keys + {name};
      assert forall d :: !Holds(s', d, name);
    } else {
      assert s'.objects == s.objects;
    }
  }

  /** A run without such faults that takes no name twice loses nothing of any pair. A lost reply for
      a counter the other drainer already took is a fault and loses nothing. */
  lemma {:induction false} FaultFreeIsLossless(s: State, labels: seq<Label>, taken: set<Obj>,
                                                 news: string, user: string)
    requires Legal(s, labels) && FaultFree(s, labels, taken) && HasDrainers(s) && Taken(s, taken)
    ensures Lossless(s, labels, news, user)
    decreases |labels|
  {
    if labels != [] {
      StepKeepsTaken(s, labels[0], taken);
      assert labels[0].Put? ==> Holds(s, labels[0].d, s.phase[labels[0].d].name.value);
      hide Apply, ParseKey, Taken, TakenBy;
      FaultFreeIsLossless(Apply(s, labels[0]), labels[1..], TakenBy(s, labels[0], taken), news, user);
    }
  }

  lemma CarryLoses(l: Ledger, from: Shelf, to: Option<Shelf>, bound: nat, news: string, user: string)
    requires to != Some(from)
    requires var shelf := if to.Some? then to.value else from;
      forall t :: 0 <= t < |l| && l[t].place.On? && l[t].place.shelf == shelf ==> l[t].place.index < bound
    ensures var shelf, why := if to.Some? then to.value else from, if to.Some? then Overwritten else PutFailed;
      |LostTo(Carry(l, from, to), why, news, user)| ==
      |LostTo(l, why, news, user)| + |OnShelf(l, shelf, bound, news, user)|
  {
    hide ParseKey;
    var shelf, why := if to.Some? then to.value else from, if to.Some? then Overwritten else PutFailed;
    var l' := Carry(l, from, to);
    assert forall t :: 0 <= t < |l| ==> (Credited(l'[t], news, user) <==> Credited(l[t], news, user));
    hide Credited;
    assert LostTo(l', why, news, user) == LostTo(l, why, news, user) + OnShelf(l, shelf, bound, news, user);
  }

  lemma IndexInShelf(s: State, shelf: Shelf, t: nat)
    requires Inv(s) && t < |s.ledger| && s.ledger[t].place.On? && s.ledger[t].place.shelf == shelf
    ensures s.ledger[t].place.index < |Recs(s, shelf)|
  {
    assert Labelled(s, s.ledger[t]);
  }

  /** What a PUT loses, exactly: under a name already used, the counts of the object it replaces;
      when it is rejected, the counts of the group, which the drainer does not keep. */
  lemma PutLoses(s: State, d: DrainerId, put: PutOutcome, news: string)
    requires Inv(s) && Enabled(s, Put(d, put))
    ensures var l', obj := Apply(s, Put(d, put)).ledger, s.phase[d].name.value;
      if put == Stored
      then |LostTo(l', Overwritten, news, obj.user)| ==
           |LostTo(s.ledger, Overwritten, news, obj.user)| + SumRecs(Recs(s, Bucket(obj)), news)
      else |LostTo(l', PutFailed, news, obj.user)| ==
           |LostTo(s.ledger, PutFailed, news, obj.user)| + SumRecs(s.phase[d].groups[obj.user], news)
  {
    hide ParseKey, KEY_PREFIX, CountersMatch, KeysListed, ShelvesMatch, SumRecs, LostTo, Carry;
    var obj := s.phase[d].name.value;
    var user := obj.user;
    var from, to := Hand(d, user), if put == Stored then Some(Bucket(obj)) else None;
    var shelf := if to.Some? then to.value else from;
    forall t | 0 <= t < |s.ledger| && s.ledger[t].place.On? && s.ledger[t].place.shelf == shelf
      ensures s.ledger[t].place.index < |Recs(s, shelf)|
    {
      IndexInShelf(s, shelf, t);
    }
    CarryLoses(s.ledger, from, to, |Recs(s, shelf)|, news, user);
    ShelfTotal(s, shelf, news);
  }

  // The requests for `news` made with another key that is credited to the same user: keys that go
  // on after this one with a slash.
  function CountOthers(labels: seq<Label>, news: string, apiKey: string): nat {
    if labels == [] then 0
    else
      var lab := labels[0];
      (if lab.Serve? && lab.news == news && lab.apiKey != apiKey && Owner(lab.apiKey) == apiKey then 1 else 0)
      + CountOthers(labels[1..], news, apiKey)
  }

  lemma {:induction false} RequestsByKey(labels: seq<Label>, news: string, apiKey: string)
    requires '/' !in apiKey
    ensures CountServed(labels, news, apiKey) == CountRequests(labels, news, apiKey) + CountOthers(labels, news, apiKey)
  {
    if labels != [] {
      RequestsByKey(labels[1..], news, apiKey);
      SplitWithoutSeparator(apiKey, '/');
      hide Split;
    }
  }

  /** In every quiescent state a user is credited with the requests made with their slash-free key and
      with the keys that go on after it with a slash, less what faults lost; with exactly those if and
      only if no step loses counts of the user and the news item. */
  lemma ExactDeliveryByKey(labels: seq<Label>, news: string, apiKey: string)
    requires Legal(INIT, labels) && HasDrainers(Exec(INIT, labels)) && Quiescent(Exec(INIT, labels))
    requires '/' !in apiKey
    ensures var s, made := Exec(INIT, labels), CountRequests(labels, news, apiKey) + CountOthers(labels, news, apiKey);
      && Delivered(s, news, apiKey) + LostCount(s.ledger, news, apiKey) == made
      && (Delivered(s, news, apiKey) == made <==> Lossless(INIT, labels, news, apiKey))
  {
    ExactDelivery(labels, news, apiKey);
    RequestsByKey(labels, news, apiKey);
  }

  // ---------- Progress ----------

  function Rank(p: Place): nat {
    match p
    case Pending => 0
    case Live(_) => 1
    case On(Hand(_, _), _) => 2
    case On(Bucket(_), _) => 3
    case Gone(_) => 4
  }

  /** An increment only ever moves forward: it is counted once, drained once and stored once, and
      a stored one stays where it is unless its object is overwritten. */
  lemma StepAdvances(s: State, lab: Label, t: nat)
    requires Inv(s) && Enabled(s, lab) && t < |s.ledger|
    ensures var l' := Apply(s, lab).ledger;
      && t < |l'| && l'[t].key == s.ledger[t].key
      && (l'[t].place == s.ledger[t].place || Rank(l'[t].place) > Rank(s.ledger[t].place))
  {
    hide ParseKey, CounterKey, KEY_PREFIX, CountersMatch, ShelvesMatch;
  }

  // The step is no snapshot by d and no failing GETDEL of this key by d.
  ghost predicate Spares(s: State, d: DrainerId, lab: Label, key: string)
    requires HasDrainers(s) && Enabled(s, lab)
  {
    && !(lab.Snapshot? && lab.d == d)
    && (lab == GetDel(d, Failed) ==> s.phase[d].todo[0] != key)
  }

  // The run is part of one cycle of d, in which its GETDEL of this key does not fail.
  ghost predicate OneCycle(s: State, d: DrainerId, labels: seq<Label>, key: string)
    requires Legal(s, labels)
    decreases |labels|
  {
    labels == [] || (Spares(s, d, labels[0], key) && OneCycle(Apply(s, labels[0]), d, labels[1..], key))
  }

  // Everything of `watched` that is still in a counter has yet to be reached by d's loop.
  ghost predicate ToBeDrained(s: State, d: DrainerId, watched: set<nat>)
    requires HasDrainers(s)
  {
    forall t :: t in watched ==>
      && t < |s.ledger|
      && s.ledger[t].place != Pending
      && (s.ledger[t].place.Live? ==> s.phase[d].Draining? && s.ledger[t].key in s.phase[d].todo)
  }

  lemma StepDrains(s: State, d: DrainerId, lab: Label, watched: set<nat>)
    requires Inv(s) && Enabled(s, lab) && ToBeDrained(s, d, watched)
    requires forall t :: t in watched ==> Spares(s, d, lab, s.ledger[t].key)
    ensures ToBeDrained(Apply(s, lab), d, watched)
  {
    hide ParseKey, CounterKey, KEY_PREFIX, ShelvesMatch;
    var s' := Apply(s, lab);
    forall t | t in watched && s'.ledger[t].place.Live?
      ensures s'.phase[d].Draining? && s'.ledger[t].key in s'.phase[d].todo
    {
      StepAdvances(s, lab, t);
      assert s.ledger[t].place.Live?;
    }
    forall t | t in watched ensures t < |s'.ledger| && s'.ledger[t].place != Pending {
      StepAdvances(s, lab, t);
    }
  }

  lemma {:induction false} RunDrains(s: State, d: DrainerId, labels: seq<Label>, t: nat)
    requires Inv(s) && Legal(s, labels) && ToBeDrained(s, d, {t}) && OneCycle(s, d, labels, s.ledger[t].key)
    ensures HasDrainers(Exec(s, labels)) && ToBeDrained(Exec(s, labels), d, {t})
    decreases |labels|
  {
    if labels != [] {
      assert t in {t};
      hide Enabled, KeysListed, CountersMatch, ShelvesMatch, Spares, Apply;
      StepAdvances(s, labels[0], t);
      StepDrains(s, d, labels[0], {t});
      StepKeepsInv(s, labels[0]);
      RunDrains(Apply(s, labels[0]), d, labels[1..], t);
    }
  }

  lemma SnapshotWatches(s: State, d: DrainerId, keys: seq<string>, watched: set<nat>)
    requires Inv(s) && Enabled(s, Snapshot(d, keys))
    requires forall t :: t in watched ==> t < |s.ledger| && s.ledger[t].place.Live?
    ensures ToBeDrained(Apply(s, Snapshot(d, keys)), d, watched)
  {
    hide ParseKey, KEY_PREFIX, ShelvesMatch;
  }

  /** One full cycle of a drainer takes out of Redis every increment its KEYS snapshot saw, however
      the requests and the other drainer interleave, unless the GETDEL of that increment's own key
      fails; only later increments can be in the counters besides. */
  lemma CycleDrainsSnapshot(s: State, d: DrainerId, keys: seq<string>, labels: seq<Label>, t: nat)
    requires Inv(s) && Enabled(s, Snapshot(d, keys)) && Legal(Apply(s, Snapshot(d, keys)), labels)
    requires t < |s.ledger| && s.ledger[t].place.Live?
    requires OneCycle(Apply(s, Snapshot(d, keys)), d, labels, s.ledger[t].key)
    ensures var s' := Exec(Apply(s, Snapshot(d, keys)), labels);
      HasDrainers(s') && t < |s'.ledger| && (!s'.phase[d].Draining? ==> Rank(s'.ledger[t].place) >= 2)
  {
    var s1 := Apply(s, Snapshot(d, keys));
    StepKeepsInv(s, Snapshot(d, keys));
    SnapshotWatches(s, d, keys, {t});
    hide ParseKey, KEY_PREFIX, ShelvesMatch, CountersMatch, KeysListed;
    RunDrains(s1, d, labels, t);
    assert t in {t};
  }
}
