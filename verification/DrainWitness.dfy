/** A run that delivers less than was served: both drainers take a name for the same user within
    one second, and the second PUT replaces the object of the first. */
module DrainWitness {
  import opened Wrappers
  import opened CounterKeys
  import opened DrainProtocol
  import opened DrainDelivery

  // A request, and its INCR.
  function Request(t: nat, news: string, user: string): seq<Label> {
    [Serve(news, user)] + ([Incr(t, Applied)] + [])
  }

  // A tick of drainer d up to the name of its one object.
  function Drain(d: DrainerId, news: string, user: string): seq<Label> {
    [Snapshot(d, [CounterKey(news, user)])] + ([GetDel(d, Replied)] + ([StartUpload(d)] + ([Name(d, user)] + [])))
  }

  // The PUTs of both, and the ends of their ticks.
  function Puts(): seq<Label> {
    [Put(FeedApi, Stored)] + ([Put(LogPusher, Stored)] + ([EndCycle(FeedApi)] + ([EndCycle(LogPusher)] + [])))
  }

  function Race(news: string, user: string): seq<Label> {
    (Request(0, news, user) + Drain(FeedApi, news, user))
    + ((Request(1, news, user) + Drain(LogPusher, news, user)) + Puts())
  }

  function Counted1(s: State, key: string): State {
    s.(counters := map[key := 1], ledger := s.ledger + [Entry(key, Live(key))])
  }

  function Named(s: State, d: DrainerId, key: string, news: string, user: string): State {
    s.(phase := s.phase[d := Uploading(map[user := [Rec(news, 1)]], Some(Obj(user, s.clock)))],
       ledger := s.ledger + [Entry(key, On(Hand(d, user), 0))])
  }

  lemma RequestLeads(s: State, news: string, user: string)
    requires HasDrainers(s) && s.counters == map[] && '/' !in news
    ensures Leads(s, Request(|s.ledger|, news, user), Counted1(s, CounterKey(news, user)))
  {
    hide CounterKey;
    var t := |s.ledger|;
    var s1 := Apply(s, Serve(news, user));
    var s2 := Apply(s1, Incr(t, Applied));
    assert s2 == Counted1(s, CounterKey(news, user));
    Cons(s1, Incr(t, Applied), [], s2);
    Cons(s, Serve(news, user), [Incr(t, Applied)] + [], s2);
  }

  lemma GetDelLeads(s: State, d: DrainerId, key: string, news: string, user: string)
    requires HasDrainers(s) && s.counters == map[] && ParseKey(key) == Some((news, user))
    requires forall t :: 0 <= t < |s.ledger| ==> !s.ledger[t].place.Live?
    ensures var s1 := Counted1(s, key).(phase := s.phase[d := Draining([key], map[])]);
      DrainHead(s1, d, Replied) == s.(phase := s.phase[d := Draining([], map[user := [Rec(news, 1)]])],
                                      ledger := s.ledger + [Entry(key, On(Hand(d, user), 0))])
  {
    hide ParseKey;
    var s1 := Counted1(s, key).(phase := s.phase[d := Draining([key], map[])]);
    assert [key][1..] == [] && [] + [Rec(news, 1)] == [Rec(news, 1)];
    assert Move(s1.ledger, Live(key), On(Hand(d, user), 0)) == s.ledger + [Entry(key, On(Hand(d, user), 0))];
    assert s1.counters - {key} == map[];
  }

  lemma DrainLeads(s: State, d: DrainerId, news: string, user: string)
    requires HasDrainers(s) && s.phase[d].Idle? && s.counters == map[] && '/' !in news && '/' !in user
    requires forall t :: 0 <= t < |s.ledger| ==> !s.ledger[t].place.Live?
    ensures var key := CounterKey(news, user);
      Leads(Counted1(s, key), Drain(d, news, user), Named(s, d, key, news, user))
  {
    var key, s0 := CounterKey(news, user), Counted1(s, CounterKey(news, user));
    ParseOfCounterKey(news, user);
    SplitWithoutSeparator(user, '/');
    hide ParseKey, CounterKey, KEY_PREFIX;
    var s1 := Apply(s0, Snapshot(d, [key]));
    GetDelLeads(s, d, key, news, user);
    hide DrainHead;
    var s2 := Apply(s1, GetDel(d, Replied));
    var s3 := Apply(s2, StartUpload(d));
    var s4 := Apply(s3, Name(d, user));
    assert s4 == Named(s, d, key, news, user);
    Cons(s3, Name(d, user), [], s4);
    Cons(s2, StartUpload(d), [Name(d, user)] + [], s4);
    Cons(s1, GetDel(d, Replied), [StartUpload(d)] + ([Name(d, user)] + []), s4);
    Cons(s0, Snapshot(d, [key]), [GetDel(d, Replied)] + ([StartUpload(d)] + ([Name(d, user)] + [])), s4);
  }

  // Both drainers hold one record for the user, under the same name.
  ghost predicate BothNamed(s: State, news: string, user: string) {
    && HasDrainers(s) && s.counters == map[] && s.objects == map[]
    && (forall d :: s.phase[d] == Uploading(map[user := [Rec(news, 1)]], Some(Obj(user, s.clock))))
    && forall t :: 0 <= t < |s.ledger| ==> s.ledger[t].place.On?
  }

  lemma PutsLead(s: State, news: string, user: string) returns (s': State)
    requires BothNamed(s, news, user)
    ensures Leads(s, Puts(), s') && HasDrainers(s') && Quiescent(s')
    ensures s'.objects == map[Obj(user, s.clock) := [Rec(news, 1)]]
  {
    var left: Groups := map[user := [Rec(news, 1)]];
    assert left - {user} == map[];
    var s1 := Apply(s, Put(FeedApi, Stored));
    var s2 := Apply(s1, Put(LogPusher, Stored));
    var s3 := Apply(s2, EndCycle(FeedApi));
    s' := Apply(s3, EndCycle(LogPusher));
    assert s'.objects == s.objects[Obj(user, s.clock) := [Rec(news, 1)]][Obj(user, s.clock) := [Rec(news, 1)]];
    Cons(s3, EndCycle(LogPusher), [], s');
    Cons(s2, EndCycle(FeedApi), [EndCycle(LogPusher)] + [], s');
    Cons(s1, Put(LogPusher, Stored), [EndCycle(FeedApi)] + ([EndCycle(LogPusher)] + []), s');
    Cons(s, Put(FeedApi, Stored), [Put(LogPusher, Stored)] + ([EndCycle(FeedApi)] + ([EndCycle(LogPusher)] + [])), s');
    forall d ensures s'.phase[d].Idle? { match d case FeedApi => case LogPusher => }
  }

  lemma OneObject(o: Obj, news: string)
    ensures var objects := map[o := [Rec(news, 1)]]; SumObjects(objects, objects.Keys, news, o.user) == 1
  {
    var objects := map[o := [Rec(news, 1)]];
    assert objects.Keys == {o};
    assert AnyOf({o}) == o;
    assert {o} - {o} == {};
    assert SumRecs([Rec(news, 1)][..0], news) == 0;
  }

  lemma {:induction false} CountAppend(a: seq<Label>, b: seq<Label>, news: string, user: string)
    ensures CountServed(a + b, news, user) == CountServed(a, news, user) + CountServed(b, news, user)
  {
    if a == [] {
      assert [] + b == b;
    } else {
      CountAppend(a[1..], b, news, user);
      assert (a + b)[0] == a[0] && (a + b)[1..] == a[1..] + b;
    }
  }

  lemma RaceServes(news: string, user: string)
    requires '/' !in user
    ensures CountServed(Race(news, user), news, user) == 2
  {
    SplitWithoutSeparator(user, '/');
    hide CounterKey;
    var first, second := Drain(FeedApi, news, user), Drain(LogPusher, news, user);
    forall t: nat ensures CountServed(Request(t, news, user), news, user) == 1 {
      NoneServed(Request(t, news, user)[1..], news, user);
    }
    NoneServed(first, news, user);
    NoneServed(second, news, user);
    NoneServed(Puts(), news, user);
    hide CountServed, Request, Drain, Puts;
    CountAppend(Request(0, news, user), first, news, user);
    CountAppend(Request(1, news, user), second, news, user);
    CountAppend(Request(1, news, user) + second, Puts(), news, user);
    CountAppend(Request(0, news, user) + first, (Request(1, news, user) + second) + Puts(), news, user);
  }

  lemma HalfLeads(s: State, d: DrainerId, news: string, user: string)
    requires HasDrainers(s) && s.phase[d].Idle? && s.counters == map[] && '/' !in news && '/' !in user
    requires forall t :: 0 <= t < |s.ledger| ==> !s.ledger[t].place.Live?
    ensures var labels := Request(|s.ledger|, news, user) + Drain(d, news, user);
      Leads(s, labels, Named(s, d, CounterKey(news, user), news, user))
  {
    var key := CounterKey(news, user);
    RequestLeads(s, news, user);
    DrainLeads(s, d, news, user);
    hide CounterKey, Leads, Request, Drain, Counted1, Named;
    Chain(s, Request(|s.ledger|, news, user), Counted1(s, key), Drain(d, news, user), Named(s, d, key, news, user));
  }

  lemma RaceLeads(news: string, user: string) returns (s: State)
    requires '/' !in news && '/' !in user
    ensures Leads(INIT, Race(news, user), s) && HasDrainers(s) && Quiescent(s)
    ensures s.objects == map[Obj(user, 0) := [Rec(news, 1)]]
  {
    var key := CounterKey(news, user);
    InitInv();
    hide CounterKey, Quiescent, Leads, Request, Drain, Puts;
    HalfLeads(INIT, FeedApi, news, user);
    var s1 := Named(INIT, FeedApi, key, news, user);
    HalfLeads(s1, LogPusher, news, user);
    var s2 := Named(s1, LogPusher, key, news, user);
    s := PutsLead(s2, news, user);
    hide Named, BothNamed;
    var first := Request(0, news, user) + Drain(FeedApi, news, user);
    var second := Request(1, news, user) + Drain(LogPusher, news, user);
    Chain(s1, second, s2, Puts(), s);
    Chain(INIT, first, s1, second + Puts(), s);
  }

  /** For every news item and slash-free user, this run is legal and ends at rest: two requests were
      served and the stored objects report one. No call of it fails. */
  lemma RaceLoses(news: string, user: string)
    requires '/' !in news && '/' !in user
    ensures var labels := Race(news, user);
      && Legal(INIT, labels)
      && HasDrainers(Exec(INIT, labels)) && Quiescent(Exec(INIT, labels))
      && CountServed(labels, news, user) == 2
      && Delivered(Exec(INIT, labels), news, user) == 1
  {
    var s := RaceLeads(news, user);
    RaceServes(news, user);
    OneObject(Obj(user, 0), news);
    hide Race, Quiescent, Legal, Exec, SumObjects;
  }
}
