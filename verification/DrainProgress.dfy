/** From every reachable state the drain protocol can come to rest: some continuation without faults
    empties the counters and both drainers, and loses nothing on the way. */
module DrainProgress {
  import opened Wrappers
  import opened CounterKeys
  import opened DrainProtocol
  import opened DrainDelivery

  // ---------- What reachable states have besides Inv ----------

  // A name is taken for a group that is still there.
  ghost predicate NamesHeld(s: State)
    requires HasDrainers(s)
  {
    forall d :: s.phase[d].Uploading? && s.phase[d].name.Some? ==> s.phase[d].name.value.user in s.phase[d].groups
  }

  ghost predicate Sane(s: State) {
    Inv(s) && Positive(s) && NamesHeld(s)
  }

  lemma StepKeepsSane(s: State, lab: Label)
    requires Sane(s) && Enabled(s, lab)
    ensures Sane(Apply(s, lab))
  {
    StepKeepsInv(s, lab);
    StepKeepsPositive(s, lab);
    StepKeepsNames(s, lab);
  }

  lemma StepKeepsNames(s: State, lab: Label)
    requires HasDrainers(s) && NamesHeld(s) && Enabled(s, lab)
    ensures NamesHeld(Apply(s, lab))
  {
    hide ParseKey, CounterKey, KEY_PREFIX, IsSnapshot;
  }

  lemma {:induction false} RunKeepsSane(s: State, labels: seq<Label>)
    requires Sane(s) && Legal(s, labels)
    ensures Sane(Exec(s, labels))
    decreases |labels|
  {
    if labels != [] {
      StepKeepsSane(s, labels[0]);
      RunKeepsSane(Apply(s, labels[0]), labels[1..]);
    }
  }

  // ---------- The measure ----------

  ghost function Todo(s: State, d: DrainerId): seq<string>
    requires HasDrainers(s)
  {
    if s.phase[d].Draining? then s.phase[d].todo else []
  }

  ghost predicate Listed(s: State, k: string)
    requires HasDrainers(s)
  {
    exists d :: k in Todo(s, d)
  }

  // The counters that no drainer has on its list.
  ghost function Unlisted(s: State): set<string>
    requires HasDrainers(s)
  {
    set k | k in s.counters && !Listed(s, k)
  }

  // The steps a drainer has before it, at most.
  function Work(p: Phase): nat {
    match p
    case Idle => 0
    case Draining(todo, groups) => 3 + 4 * |todo| + 3 * |groups|
    case Uploading(groups, name) => 2 + 3 * |groups| - if name.Some? then 1 else 0
  }

  ghost function WorkLeft(s: State): nat
    requires HasDrainers(s)
  {
    Work(s.phase[FeedApi]) + Work(s.phase[LogPusher])
  }

  // The seconds until a name taken now is a new one.
  function Lag(s: State, top: nat): nat {
    if s.clock < top then top - s.clock else 0
  }

  /** From s to s' less is left to do: fewer pending INCRs, else fewer unlisted counters, else less
      work of the drainers. */
  ghost predicate Less(s': State, s: State)
    requires HasDrainers(s') && HasDrainers(s)
  {
    var p', p := |At(s'.ledger, Pending)|, |At(s.ledger, Pending)|;
    var u', u := |Unlisted(s')|, |Unlisted(s)|;
    p' < p || (p' == p && (u' < u || (u' == u && WorkLeft(s') < WorkLeft(s))))
  }

  // ---------- One step ----------

  lemma {:induction false} SubsetSize<T>(a: set<T>, b: set<T>)
    requires a <= b
    ensures |a| <= |b|
    ensures a != b ==> |a| < |b|
  {
    assert b == a + (b - a);
  }

  lemma CountersAreListable(s: State, k: string)
    requires Inv(s) && Positive(s) && k in s.counters
    ensures KEY_PREFIX <= k && ParseKey(k).Some?
  {
    hide ParseKey, KEY_PREFIX, ShelvesMatch;
    assert At(s.ledger, Live(k)) != {};
    var t :| t in At(s.ledger, Live(k));
    assert s.ledger[t].key == k;
  }

  // A drainer's own step leaves the pending INCRs alone.
  lemma PendingStays(s: State, lab: Label)
    requires HasDrainers(s) && Enabled(s, lab) && !lab.Serve? && !lab.Incr?
    ensures At(Apply(s, lab).ledger, Pending) == At(s.ledger, Pending)
  {
    hide ParseKey, CounterKey, KEY_PREFIX, IsSnapshot;
    var l' := Apply(s, lab).ledger;
    assert forall t: nat :: t < |s.ledger| ==> (l'[t].place == Pending <==> s.ledger[t].place == Pending);
  }

  // The GETDEL that takes the head of d's list.
  lemma GetDelIsLess(s: State, d: DrainerId)
    requires Sane(s) && s.phase[d].Draining? && s.phase[d].todo != []
    ensures Less(Apply(s, GetDel(d, Replied)), s)
  {
    PendingStays(s, GetDel(d, Replied));
    GetDelLists(s, d);
    GroupsGrow(s, d);
    hide Apply, CountersMatch, ShelvesMatch, KeysListed, Positive, NamesHeld, Unlisted, WorkLeft, At;
    SubsetSize(Unlisted(Apply(s, GetDel(d, Replied))), Unlisted(s));
  }

  lemma GetDelLists(s: State, d: DrainerId)
    requires Sane(s) && s.phase[d].Draining? && s.phase[d].todo != []
    ensures Unlisted(Apply(s, GetDel(d, Replied))) <= Unlisted(s)
  {
    var key, s' := s.phase[d].todo[0], Apply(s, GetDel(d, Replied));
    if key in s.counters { CountersAreListable(s, key); }
    GetDelEffect(s, d);
    hide ParseKey, CountersMatch, ShelvesMatch, KeysListed, Positive, NamesHeld, Apply;
    assert Todo(s, d) == [key] + Todo(s', d);
    hide Todo;
    forall k | k in s'.counters && Listed(s, k) ensures Listed(s', k) {
      var d' :| k in Todo(s, d');
      assert k in Todo(s', d');
    }
  }

  lemma GetDelEffect(s: State, d: DrainerId)
    requires HasDrainers(s) && s.phase[d].Draining? && s.phase[d].todo != []
    requires var key := s.phase[d].todo[0]; key in s.counters ==> ParseKey(key).Some?
    ensures var s' := Apply(s, GetDel(d, Replied));
      && s'.counters == s.counters - {s.phase[d].todo[0]}
      && forall d' :: Todo(s', d') == if d' == d then s.phase[d].todo[1..] else Todo(s, d')
  {
    hide ParseKey, Move, Append, GroupOf;
  }

  lemma GroupsGrow(s: State, d: DrainerId)
    requires HasDrainers(s) && s.phase[d].Draining? && s.phase[d].todo != []
    ensures WorkLeft(Apply(s, GetDel(d, Replied))) < WorkLeft(s)
  {
    hide ParseKey, Move;
    var p, p' := s.phase[d], Apply(s, GetDel(d, Replied)).phase[d];
    assert |p'.todo| == |p.todo| - 1;
    assert forall user, r :: |Append(p.groups, user, r)| <= |p.groups| + 1;
    match d case FeedApi => case LogPusher =>
  }

  // The other steps of a drainer that is not idle; `top` is above every second a name was taken in.
  function NextUpload(s: State, d: DrainerId, user: string): Label
    requires d in s.phase && !s.phase[d].Idle?
  {
    match s.phase[d]
    case Draining(_, _) => StartUpload(d)
    case Uploading(groups, name) =>
      if name.Some? then Put(d, Stored) else if groups == map[] then EndCycle(d) else Name(d, user)
  }

  lemma UploadIsLess(s: State, d: DrainerId, user: string)
    requires HasDrainers(s) && NamesHeld(s) && !s.phase[d].Idle? && (s.phase[d].Draining? ==> s.phase[d].todo == [])
    requires s.phase[d].groups != map[] ==> user in s.phase[d].groups
    ensures var lab := NextUpload(s, d, user); Enabled(s, lab) && Less(Apply(s, lab), s)
  {
    var lab := NextUpload(s, d, user);
    UploadWork(s, d, user);
    PendingStays(s, lab);
    hide Apply, NextUpload, WorkLeft, At;
    var s' := Apply(s, lab);
    assert Unlisted(s') == Unlisted(s);
  }

  lemma OneLess(groups: Groups, user: string)
    requires user in groups
    ensures |groups - {user}| == |groups| - 1
  {
    assert (groups - {user}).Keys == groups.Keys - {user};
  }

  lemma UploadWork(s: State, d: DrainerId, user: string)
    requires HasDrainers(s) && NamesHeld(s) && !s.phase[d].Idle? && (s.phase[d].Draining? ==> s.phase[d].todo == [])
    requires s.phase[d].groups != map[] ==> user in s.phase[d].groups
    ensures var lab := NextUpload(s, d, user);
      && Enabled(s, lab)
      && WorkLeft(Apply(s, lab)) < WorkLeft(s)
      && Apply(s, lab).counters == s.counters
      && forall d' :: Todo(Apply(s, lab), d') == Todo(s, d')
  {
    UploadEffect(s, d, user);
    var s' := Apply(s, NextUpload(s, d, user));
    hide NextUpload, Apply, Work, Enabled, NamesHeld;
    assert s'.phase[d].Draining? || Todo(s', d) == [];
    match d case FeedApi => case LogPusher =>
  }

  lemma UploadEffect(s: State, d: DrainerId, user: string)
    requires HasDrainers(s) && NamesHeld(s) && !s.phase[d].Idle? && (s.phase[d].Draining? ==> s.phase[d].todo == [])
    requires s.phase[d].groups != map[] ==> user in s.phase[d].groups
    ensures var lab := NextUpload(s, d, user);
      && Enabled(s, lab)
      && Apply(s, lab).counters == s.counters
      && Apply(s, lab).phase == s.phase[d := Apply(s, lab).phase[d]]
      && !Apply(s, lab).phase[d].Draining?
      && Work(Apply(s, lab).phase[d]) < Work(s.phase[d])
  {
    hide Carry;
    var p := s.phase[d];
    if p.Uploading? && p.name.Some? { OneLess(p.groups, p.name.value.user); }
  }

  lemma IncrIsLess(s: State, t: nat)
    requires HasDrainers(s) && t < |s.ledger| && s.ledger[t].place == Pending
    ensures Less(Apply(s, Incr(t, Applied)), s)
  {
    var s' := Apply(s, Incr(t, Applied));
    assert At(s'.ledger, Pending) == At(s.ledger, Pending) - {t};
    assert t in At(s.ledger, Pending);
  }

  lemma SnapshotIsLess(s: State, d: DrainerId, keys: seq<string>)
    requires Sane(s) && Enabled(s, Snapshot(d, keys)) && s.counters != map[]
    requires forall d :: s.phase[d].Idle?
    ensures Less(Apply(s, Snapshot(d, keys)), s)
  {
    PendingStays(s, Snapshot(d, keys));
    var s' := Apply(s, Snapshot(d, keys));
    forall k | k in s.counters ensures Listed(s', k) && !Listed(s, k) {
      CountersAreListable(s, k);
      assert k in Todo(s', d);
    }
    assert Unlisted(s') == {} && Unlisted(s) == s.counters.Keys;
  }

  lemma {:induction false} SomeSnapshot(counters: map<string, nat>, left: set<string>) returns (keys: seq<string>)
    requires left <= counters.Keys
    ensures forall i, j :: 0 <= i < j < |keys| ==> keys[i] != keys[j]
    ensures forall k :: k in keys <==> k in left && KEY_PREFIX <= k
  {
    keys := [];
    if left != {} {
      var k :| k in left;
      keys := SomeSnapshot(counters, left - {k});
      if KEY_PREFIX <= k { keys := keys + [k]; }
    }
  }

  /** Where the protocol is not at rest there is a step without a fault that leaves less to do, or a
      tick that brings the next name closer. */
  lemma NextStep(s: State, top: nat) returns (lab: Label)
    requires Sane(s) && !Quiescent(s)
    ensures Enabled(s, lab) && !Fault(lab) && !lab.Serve?
    ensures lab.Name? ==> s.clock >= top
    ensures (lab == Tick && s.clock < top) || Less(Apply(s, lab), s)
  {
    if d: DrainerId :| !s.phase[d].Idle? {
      lab := DrainerStep(s, d, top);
    } else if t :| 0 <= t < |s.ledger| && s.ledger[t].place == Pending {
      lab := Incr(t, Applied);
      IncrIsLess(s, t);
    } else {
      lab := IdleStep(s);
    }
  }

  lemma DrainerStep(s: State, d: DrainerId, top: nat) returns (lab: Label)
    requires Sane(s) && !s.phase[d].Idle?
    ensures Enabled(s, lab) && !Fault(lab) && !lab.Serve?
    ensures lab.Name? ==> s.clock >= top
    ensures (lab == Tick && s.clock < top) || Less(Apply(s, lab), s)
  {
    hide CountersMatch, ShelvesMatch, KeysListed, Less, Apply;
    if s.phase[d].Draining? && s.phase[d].todo != [] {
      lab := GetDel(d, Replied);
      GetDelIsLess(s, d);
    } else {
      var user := if u :| u in s.phase[d].groups then u else "";
      lab := NextUpload(s, d, user);
      UploadIsLess(s, d, user);
      if lab.Name? && s.clock < top { lab := Tick; }
    }
  }

  lemma IdleStep(s: State) returns (lab: Label)
    requires Sane(s) && s.counters != map[] && forall d :: s.phase[d].Idle?
    ensures Enabled(s, lab) && lab.Snapshot? && Less(Apply(s, lab), s)
  {
    hide CountersMatch, ShelvesMatch, KeysListed, Less, Apply, KEY_PREFIX;
    var keys := SomeSnapshot(s.counters, s.counters.Keys);
    lab := Snapshot(FeedApi, keys);
    SnapshotIsLess(s, FeedApi, keys);
  }

  // ---------- Coming to rest ----------

  // Every name in `taken` was taken before second `top`.
  ghost predicate Above(taken: set<Obj>, top: nat) {
    forall o :: o in taken ==> o.second < top
  }

  function NextTop(s: State, lab: Label, top: nat): nat {
    if lab.Name? then s.clock + 1 else top
  }

  // The step is one of a fault-free run and brings the protocol closer to rest.
  ghost predicate GoodStep(s: State, lab: Label, taken: set<Obj>, top: nat)
    requires HasDrainers(s)
  {
    && Enabled(s, lab) && Sane(Apply(s, lab))
    && !Fault(lab) && !lab.Serve? && (lab.Name? ==> Obj(lab.user, s.clock) !in taken)
    && Above(TakenBy(s, lab, taken), NextTop(s, lab, top))
    && var s' := Apply(s, lab);
       (Less(s', s) || (SameMeasure(s', s) && Lag(s', NextTop(s, lab, top)) < Lag(s, top)))
  }

  ghost predicate SameMeasure(s': State, s: State)
    requires HasDrainers(s') && HasDrainers(s)
  {
    && |At(s'.ledger, Pending)| == |At(s.ledger, Pending)|
    && |Unlisted(s')| == |Unlisted(s)| && WorkLeft(s') == WorkLeft(s)
  }

  lemma SomeGoodStep(s: State, taken: set<Obj>, top: nat) returns (lab: Label)
    requires Sane(s) && !Quiescent(s) && Above(taken, top)
    ensures GoodStep(s, lab, taken, top)
  {
    lab := NextStep(s, top);
    StepKeepsSane(s, lab);
    hide CountersMatch, ShelvesMatch, KeysListed, Positive, NamesHeld, Quiescent;
    if lab == Tick { TickKeeps(s); }
    hide At, Unlisted, WorkLeft, Enabled, Less;
  }

  lemma {:induction false} Rest(s: State, taken: set<Obj>, top: nat) returns (more: seq<Label>)
    requires Sane(s) && Above(taken, top)
    ensures Legal(s, more) && FaultFree(s, more, taken)
    ensures HasDrainers(Exec(s, more)) && Quiescent(Exec(s, more))
    ensures forall i :: 0 <= i < |more| ==> !more[i].Serve?
    decreases |At(s.ledger, Pending)|, |Unlisted(s)|, WorkLeft(s), Lag(s, top)
  {
    hide CountersMatch, ShelvesMatch, KeysListed, Positive, NamesHeld, Quiescent, Apply, Enabled, Fault;
    hide At, Unlisted, WorkLeft, Lag, TakenBy, NextTop, Above;
    more := [];
    if !Quiescent(s) {
      var lab := SomeGoodStep(s, taken, top);
      var rest := Rest(Apply(s, lab), TakenBy(s, lab, taken), NextTop(s, lab, top));
      more := [lab] + rest;
      assert more[0] == lab && more[1..] == rest;
    }
  }

  lemma TickKeeps(s: State)
    requires HasDrainers(s)
    ensures HasDrainers(Apply(s, Tick)) && Unlisted(Apply(s, Tick)) == Unlisted(s)
    ensures WorkLeft(Apply(s, Tick)) == WorkLeft(s) && Apply(s, Tick).ledger == s.ledger
  {
    forall k ensures Listed(Apply(s, Tick), k) <==> Listed(s, k) {
      forall d ensures Todo(Apply(s, Tick), d) == Todo(s, d) {}
      if d :| k in Todo(s, d) { assert k in Todo(Apply(s, Tick), d); }
    }
  }

  lemma {:induction false} AboveAll(taken: set<Obj>) returns (top: nat)
    ensures Above(taken, top)
  {
    if taken == {} {
      top := 0;
    } else {
      var o :| o in taken;
      top := AboveAll(taken - {o});
      top := if o.second < top then top else o.second + 1;
    }
  }

  lemma InitIsSane()
    ensures Sane(INIT)
  {
    InitInv();
    forall d: DrainerId ensures INIT.phase[d].Idle? { match d case FeedApi => case LogPusher => }
    forall shelf ensures Recs(INIT, shelf) == [] {}
  }

  /** From every reachable state, whatever failed before, some continuation of INCRs, GETDELs and PUTs
      without a fault and without a name that is in `taken` ends at rest. */
  lemma CanComeToRest(labels: seq<Label>, taken: set<Obj>) returns (more: seq<Label>)
    requires Legal(INIT, labels)
    ensures var s := Exec(INIT, labels);
      && Legal(s, more) && FaultFree(s, more, taken)
      && HasDrainers(Exec(s, more)) && Quiescent(Exec(s, more))
      && forall i :: 0 <= i < |more| ==> !more[i].Serve?
  {
    InitIsSane();
    RunKeepsSane(INIT, labels);
    var top := AboveAll(taken);
    hide *;
    more := Rest(Exec(INIT, labels), taken, top);
  }

  /** Where no request of a (news, user) is lost so far, and no name that a drainer holds is used
      already, the continuation delivers every request of the pair that was served. */
  lemma RestDelivers(labels: seq<Label>, taken: set<Obj>, news: string, user: string) returns (more: seq<Label>)
    requires Legal(INIT, labels) && Lossless(INIT, labels, news, user)
    requires HasDrainers(Exec(INIT, labels)) && Taken(Exec(INIT, labels), taken)
    ensures var s := Exec(INIT, labels);
      && Legal(s, more) && HasDrainers(Exec(s, more)) && Quiescent(Exec(s, more))
      && Delivered(Exec(s, more), news, user) == CountServed(labels, news, user)
  {
    var s := Exec(INIT, labels);
    more := CanComeToRest(labels, taken);
    FaultFreeIsLossless(s, more, taken, news, user);
    InitIsSane();
    LosslessRun(INIT, labels, news, user);
    RunKeepsSane(INIT, labels);
    LosslessRun(s, more, news, user);
    RunKeepsInv(s, more);
    RunIssues(INIT, labels, news, user);
    RunIssues(s, more, news, user);
    NoneServed(more, news, user);
    AtRest(Exec(s, more), news, user);
  }

  lemma AtRest(s: State, news: string, user: string)
    requires Inv(s) && Quiescent(s) && NoneGone(s.ledger, news, user)
    ensures Delivered(s, news, user) == |Issued(s.ledger, news, user)|
  {
    Conservation(s, news, user);
    NoneGoneIff(s.ledger, news, user);
    assert Waiting(s.ledger, news, user) == {};
  }
}
