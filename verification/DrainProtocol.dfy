/** The access-count protocol: detail requests increment Redis counters from goroutines while
    two drainers (one in feed-api, one in log-redis-pusher) list the counters, GETDEL them one
    by one, group the counts by user, and for each user take a name for an object and PUT it.
    Every step that is atomic in Redis or in the object store is one transition here, with each
    of its failure outcomes. */
module DrainProtocol {
  import opened Wrappers
  import opened CounterKeys

  datatype DrainerId = FeedApi | LogPusher

  // One entry of groupedLogs; its timestamp plays no part in what follows.
  datatype Rec = Rec(news: string, count: nat)

  type Groups = map<string, seq<Rec>>

  datatype Phase =
    | Idle
    | Draining(todo: seq<string>, groups: Groups)
    | Uploading(groups: Groups, name: Option<Obj>)  // the name taken for the next PUT

  // An object of the user-logs bucket; CounterKeys.ObjectNameInjective says that the pair is the name.
  datatype Obj = Obj(user: string, second: nat)

  // ---------- The ledger: where each increment is ----------

  datatype Shelf = Hand(d: DrainerId, user: string) | Bucket(obj: Obj)

  datatype Loss = IncrFailed | ReplyLost | PutFailed | Overwritten

  datatype Place = Pending | Live(key: string) | On(shelf: Shelf, index: nat) | Gone(why: Loss)

  // An increment is its index in the ledger.
  datatype Entry = Entry(key: string, place: Place)

  type Ledger = seq<Entry>

  datatype State = State(
    clock: nat,
    counters: map<string, nat>,
    phase: map<DrainerId, Phase>,
    objects: map<Obj, seq<Rec>>,
    ledger: Ledger)

  const INIT := State(0, map[], map[FeedApi := Idle, LogPusher := Idle], map[], [])

  datatype IncrOutcome = Applied | IncrError
  // Failed leaves the counter alone; Lost deletes it although the reply never arrives.
  datatype GetDelOutcome = Replied | Failed | Lost
  // A PUT that is reported as failed after the object was written has the effect of Stored.
  datatype PutOutcome = Stored | Rejected

  datatype Label =
    | Serve(news: string, apiKey: string)
    | Incr(token: nat, incr: IncrOutcome)
    | Snapshot(d: DrainerId, keys: seq<string>)
    | GetDel(d: DrainerId, reply: GetDelOutcome)
    | StartUpload(d: DrainerId)
    | Name(d: DrainerId, user: string)
    | Put(d: DrainerId, put: PutOutcome)
    | EndCycle(d: DrainerId)
    | Tick

  // ---------- The transitions ----------

  ghost predicate HasDrainers(s: State) {
    forall d: DrainerId :: d in s.phase
  }

  // KEYS lists each matching counter once, in some order.
  predicate IsSnapshot(counters: map<string, nat>, keys: seq<string>) {
    && (forall i, j :: 0 <= i < j < |keys| ==> keys[i] != keys[j])
    && (forall k :: k in keys ==> k in counters && KEY_PREFIX <= k)
    && (forall k :: k in counters && KEY_PREFIX <= k ==> k in keys)
  }

  predicate Enabled(s: State, lab: Label)
    requires HasDrainers(s)
  {
    match lab
    case Serve(news, _) => '/' !in news
    case Incr(t, _) => t < |s.ledger| && s.ledger[t].place == Pending
    case Snapshot(d, keys) => s.phase[d].Idle? && IsSnapshot(s.counters, keys)
    case GetDel(d, _) => s.phase[d].Draining? && s.phase[d].todo != []
    case StartUpload(d) => s.phase[d].Draining? && s.phase[d].todo == []
    case Name(d, user) => s.phase[d].Uploading? && s.phase[d].name.None? && user in s.phase[d].groups
    case Put(d, _) => s.phase[d].Uploading? && s.phase[d].name.Some? && s.phase[d].name.value.user in s.phase[d].groups
    case EndCycle(d) => s.phase[d].Uploading? && s.phase[d].groups == map[]
    case Tick => true
  }

  function GroupOf(groups: Groups, user: string): seq<Rec> {
    if user in groups then groups[user] else []
  }

  function Append(groups: Groups, user: string, r: Rec): Groups {
    groups[user := GroupOf(groups, user) + [r]]
  }

  // Every increment at `from` goes to `to`.
  function Move(l: Ledger, from: Place, to: Place): Ledger {
    seq(|l|, t requires 0 <= t < |l| => if l[t].place == from then l[t].(place := to) else l[t])
  }

  function Carried(p: Place, from: Shelf, to: Option<Shelf>): Place {
    if !p.On? then p
    else if p.shelf == from then
      (if to.Some? then On(to.value, p.index) else Gone(PutFailed))
    else if to.Some? && p.shelf == to.value then Gone(Overwritten)
    else p
  }

  // What lies on shelf `from` goes to `to`, overwriting what lay there, or is dropped.
  function Carry(l: Ledger, from: Shelf, to: Option<Shelf>): Ledger {
    seq(|l|, t requires 0 <= t < |l| => l[t].(place := Carried(l[t].place, from, to)))
  }

  function DrainHead(s: State, d: DrainerId, reply: GetDelOutcome): State
    requires d in s.phase && s.phase[d].Draining? && s.phase[d].todo != []
  {
    var key := s.phase[d].todo[0];
    var rest, groups := s.phase[d].todo[1..], s.phase[d].groups;
    var skipped := s.(phase := s.phase[d := Draining(rest, groups)]);
    match ParseKey(key)
    case None => skipped
    case Some((news, user)) =>
      if key !in s.counters || reply == Failed then skipped
      else if reply == Lost then
        skipped.(counters := s.counters - {key}, ledger := Move(s.ledger, Live(key), Gone(ReplyLost)))
      else
        var slot := On(Hand(d, user), |GroupOf(groups, user)|);
        s.(counters := s.counters - {key},
           phase := s.phase[d := Draining(rest, Append(groups, user, Rec(news, s.counters[key])))],
           ledger := Move(s.ledger, Live(key), slot))
  }

  function PutGroup(s: State, d: DrainerId, put: PutOutcome): State
    requires HasDrainers(s) && Enabled(s, Put(d, put))
  {
    var obj := s.phase[d].name.value;
    var user, groups := obj.user, s.phase[d].groups;
    var phase := s.phase[d := Uploading(groups - {user}, None)];
    if put == Stored then
      s.(phase := phase, objects := s.objects[obj := groups[user]],
         ledger := Carry(s.ledger, Hand(d, user), Some(Bucket(obj))))
    else
      s.(phase := phase, ledger := Carry(s.ledger, Hand(d, user), None))
  }

  function Apply(s: State, lab: Label): State
    requires HasDrainers(s)
    requires Enabled(s, lab)
    ensures HasDrainers(Apply(s, lab))
  {
    match lab
    case Serve(news, apiKey) => s.(ledger := s.ledger + [Entry(CounterKey(news, apiKey), Pending)])
    case Incr(t, Applied) =>
      var key := s.ledger[t].key;
      var before := if key in s.counters then s.counters[key] else 0;
      s.(counters := s.counters[key := before + 1], ledger := s.ledger[t := Entry(key, Live(key))])
    case Incr(t, IncrError) => s.(ledger := s.ledger[t := s.ledger[t].(place := Gone(IncrFailed))])
    case Snapshot(d, keys) => s.(phase := s.phase[d := Draining(keys, map[])])
    case GetDel(d, reply) => DrainHead(s, d, reply)
    case StartUpload(d) => s.(phase := s.phase[d := Uploading(s.phase[d].groups, None)])
    case Name(d, user) => s.(phase := s.phase[d := s.phase[d].(name := Some(Obj(user, s.clock)))])
    case Put(d, put) => PutGroup(s, d, put)
    case EndCycle(d) => s.(phase := s.phase[d := Idle])
    case Tick => s.(clock := s.clock + 1)
  }

  ghost predicate Legal(s: State, labels: seq<Label>)
    decreases |labels|
  {
    labels == [] || (HasDrainers(s) && Enabled(s, labels[0]) && Legal(Apply(s, labels[0]), labels[1..]))
  }

  ghost function Exec(s: State, labels: seq<Label>): State
    requires Legal(s, labels)
    decreases |labels|
  {
    if labels == [] then s else Exec(Apply(s, labels[0]), labels[1..])
  }

  // From s the labels lead to s'.
  ghost predicate Leads(s: State, labels: seq<Label>, s': State) {
    Legal(s, labels) && Exec(s, labels) == s'
  }

  lemma Cons(s: State, lab: Label, rest: seq<Label>, s': State)
    requires HasDrainers(s) && Enabled(s, lab) && Leads(Apply(s, lab), rest, s')
    ensures Leads(s, [lab] + rest, s')
  {
    hide Enabled, Apply;
    var labels := [lab] + rest;
    assert labels[0] == lab && labels[1..] == rest;
  }

  lemma {:induction false} Chain(s: State, a: seq<Label>, s': State, b: seq<Label>, s'': State)
    requires Leads(s, a, s') && Leads(s', b, s'')
    ensures Leads(s, a + b, s'')
    decreases |a|
  {
    hide Enabled, Apply;
    if a == [] {
      assert [] + b == b;
    } else {
      Chain(Apply(s, a[0]), a[1..], s', b, s'');
      Cons(s, a[0], a[1..] + b, s'');
      assert [a[0]] + (a[1..] + b) == a + b;
    }
  }

  // ---------- The invariant: every count is the number of increments that lie there ----------

  ghost function At(l: Ledger, p: Place): set<nat> {
    set t: nat | t < |l| && l[t].place == p
  }

  // The records on a shelf, none when it is not there.
  ghost function Recs(s: State, shelf: Shelf): seq<Rec>
    requires HasDrainers(s)
  {
    match shelf
    case Hand(d, user) => if s.phase[d].Idle? then [] else GroupOf(s.phase[d].groups, user)
    case Bucket(obj) => if obj in s.objects then s.objects[obj] else []
  }

  function ShelfUser(shelf: Shelf): string {
    match shelf
    case Hand(_, user) => user
    case Bucket(obj) => obj.user
  }

  ghost predicate CountersMatch(s: State) {
    && (forall k :: k in s.counters ==> s.counters[k] == |At(s.ledger, Live(k))|)
    && (forall t :: 0 <= t < |s.ledger| && s.ledger[t].place.Live? ==>
          s.ledger[t].place.key == s.ledger[t].key && s.ledger[t].key in s.counters)
  }

  ghost predicate ShelvesMatch(s: State)
    requires HasDrainers(s)
  {
    && (forall shelf, i: nat :: i < |Recs(s, shelf)| ==> Recs(s, shelf)[i].count == |At(s.ledger, On(shelf, i))|)
    && (forall t :: 0 <= t < |s.ledger| && s.ledger[t].place.On? ==> Labelled(s, s.ledger[t]))
  }

  // The record an increment was counted into names the news item and the owner of its key.
  ghost predicate Labelled(s: State, e: Entry)
    requires HasDrainers(s) && e.place.On?
  {
    var recs := Recs(s, e.place.shelf);
    e.place.index < |recs| && ParseKey(e.key) == Some((recs[e.place.index].news, ShelfUser(e.place.shelf)))
  }

  ghost predicate KeysListed(l: Ledger) {
    forall t :: 0 <= t < |l| ==> KEY_PREFIX <= l[t].key && ParseKey(l[t].key).Some?
  }

  ghost predicate Inv(s: State) {
    HasDrainers(s) && CountersMatch(s) && ShelvesMatch(s) && KeysListed(s.ledger)
  }

  lemma MoveEffect(l: Ledger, from: Place, to: Place)
    requires from != to
    ensures At(Move(l, from, to), to) == At(l, to) + At(l, from)
    ensures At(Move(l, from, to), from) == {}
    ensures forall p :: p != from && p != to ==> At(Move(l, from, to), p) == At(l, p)
  {
    var l' := Move(l, from, to);
    forall p | p != from && p != to ensures At(l', p) == At(l, p) {
      assert forall t: nat :: t < |l| ==> (l'[t].place == p <==> l[t].place == p);
    }
  }

  lemma CarryEffect(l: Ledger, from: Shelf, to: Option<Shelf>)
    requires to != Some(from)
    ensures var l' := Carry(l, from, to);
      && (forall i: nat :: At(l', On(from, i)) == {})
      && (to.Some? ==> forall i: nat :: At(l', On(to.value, i)) == At(l, On(from, i)))
      && (forall shelf, i: nat :: shelf != from && Some(shelf) != to ==> At(l', On(shelf, i)) == At(l, On(shelf, i)))
      && (forall k :: At(l', Live(k)) == At(l, Live(k)))
  {
    var l' := Carry(l, from, to);
    forall k ensures At(l', Live(k)) == At(l, Live(k)) {
      assert forall t: nat :: t < |l| ==> (l'[t].place == Live(k) <==> l[t].place == Live(k));
    }
    forall i: nat ensures At(l', On(from, i)) == {} {
      assert forall t: nat :: t < |l| ==> l'[t].place != On(from, i);
    }
    if to.Some? {
      forall i: nat ensures At(l', On(to.value, i)) == At(l, On(from, i)) {
        assert forall t: nat :: t < |l| ==> (l'[t].place == On(to.value, i) <==> l[t].place == On(from, i));
      }
    }
    forall shelf, i: nat | shelf != from && Some(shelf) != to ensures At(l', On(shelf, i)) == At(l, On(shelf, i)) {
      assert forall t: nat :: t < |l| ==> (l'[t].place == On(shelf, i) <==> l[t].place == On(shelf, i));
    }
  }

  lemma ServeKeepsInv(s: State, news: string, apiKey: string)
    requires Inv(s) && Enabled(s, Serve(news, apiKey))
    ensures Inv(Apply(s, Serve(news, apiKey)))
  {
    var s' := Apply(s, Serve(news, apiKey));
    ParseOfCounterKey(news, apiKey);
    forall p | p != Pending ensures At(s'.ledger, p) == At(s.ledger, p) {}
    SameShelves(s, s');
  }

  // Steps that leave the shelves and what lies on them alone keep ShelvesMatch.
  lemma SameShelves(s: State, s': State)
    requires HasDrainers(s) && HasDrainers(s') && ShelvesMatch(s)
    requires forall shelf :: Recs(s', shelf) == Recs(s, shelf)
    requires forall shelf, i: nat :: At(s'.ledger, On(shelf, i)) == At(s.ledger, On(shelf, i))
    requires forall t :: 0 <= t < |s'.ledger| && s'.ledger[t].place.On? ==>
      t < |s.ledger| && s.ledger[t] == s'.ledger[t]
    ensures ShelvesMatch(s')
  {
  }

  // Moving increment t alone.
  lemma MoveOne(l: Ledger, t: nat, to: Place)
    requires t < |l| && l[t].place == Pending && to != Pending
    ensures var l' := l[t := l[t].(place := to)];
      && At(l', to) == At(l, to) + {t}
      && forall p :: p != to && p != Pending ==> At(l', p) == At(l, p)
  {
    var l' := l[t := l[t].(place := to)];
    forall p | p != to && p != Pending ensures At(l', p) == At(l, p) {
      assert forall u: nat :: u < |l| ==> (l'[u].place == p <==> l[u].place == p);
    }
  }

  lemma IncrKeepsCounters(s: State, t: nat, incr: IncrOutcome)
    requires Inv(s) && Enabled(s, Incr(t, incr))
    ensures CountersMatch(Apply(s, Incr(t, incr)))
  {
    hide ParseKey, CounterKey, KEY_PREFIX, ShelvesMatch, KeysListed, IsSnapshot;
    var s' := Apply(s, Incr(t, incr));
    var key := s.ledger[t].key;
    MoveOne(s.ledger, t, s'.ledger[t].place);
    if incr == Applied && key !in s.counters {
      assert At(s.ledger, Live(key)) == {};
    }
    assert t !in At(s.ledger, s'.ledger[t].place);
  }

  lemma IncrKeepsInv(s: State, t: nat, incr: IncrOutcome)
    requires Inv(s) && Enabled(s, Incr(t, incr))
    ensures Inv(Apply(s, Incr(t, incr)))
  {
    hide ParseKey, CounterKey, KEY_PREFIX, CountersMatch;
    var s' := Apply(s, Incr(t, incr));
    MoveOne(s.ledger, t, s'.ledger[t].place);
    SameShelves(s, s');
    IncrKeepsCounters(s, t, incr);
  }

  lemma QuietDrainKeepsInv(s: State, d: DrainerId, reply: GetDelOutcome)
    requires Inv(s) && Enabled(s, GetDel(d, reply))
    requires var key := s.phase[d].todo[0]; ParseKey(key).None? || key !in s.counters || reply == Failed
    ensures Inv(Apply(s, GetDel(d, reply)))
  {
    hide ParseKey, KEY_PREFIX;
    SameShelves(s, Apply(s, GetDel(d, reply)));
  }

  lemma LostReplyKeepsShelves(s: State, d: DrainerId, key: string)
    requires Inv(s) && s.phase[d].Draining? && s.phase[d].todo != [] && key == s.phase[d].todo[0]
    requires ParseKey(key).Some? && key in s.counters
    ensures ShelvesMatch(DrainHead(s, d, Lost))
  {
    hide ParseKey, KEY_PREFIX, CountersMatch, KeysListed;
    MoveEffect(s.ledger, Live(key), Gone(ReplyLost));
    SameShelves(s, DrainHead(s, d, Lost));
  }

  // A counter moved onto the end of a shelf as record r.
  lemma MovedShelves(s: State, s': State, key: string, shelf: Shelf, r: Rec)
    requires HasDrainers(s) && HasDrainers(s') && ShelvesMatch(s)
    requires s'.ledger == Move(s.ledger, Live(key), On(shelf, |Recs(s, shelf)|))
    requires Recs(s', shelf) == Recs(s, shelf) + [r]
    requires forall other :: other != shelf ==> Recs(s', other) == Recs(s, other)
    requires r.count == |At(s.ledger, Live(key))| && ParseKey(key) == Some((r.news, ShelfUser(shelf)))
    requires forall t :: 0 <= t < |s.ledger| && s.ledger[t].place == Live(key) ==> s.ledger[t].key == key
    ensures ShelvesMatch(s')
  {
    hide ParseKey, Recs, HasDrainers, ShelfUser;
    var slot := On(shelf, |Recs(s, shelf)|);
    assert At(s.ledger, slot) == {};
    MoveEffect(s.ledger, Live(key), slot);
    forall t | 0 <= t < |s'.ledger| && s'.ledger[t].place.On? ensures Labelled(s', s'.ledger[t]) {
      assert s.ledger[t].place.On? ==> Labelled(s, s.ledger[t]);
    }
  }

  lemma ReplyKeepsShelves(s: State, d: DrainerId, key: string)
    requires Inv(s) && s.phase[d].Draining? && s.phase[d].todo != [] && key == s.phase[d].todo[0]
    requires ParseKey(key).Some? && key in s.counters
    ensures ShelvesMatch(DrainHead(s, d, Replied))
  {
    hide ParseKey, KEY_PREFIX, KeysListed, ShelvesMatch;
    var s' := DrainHead(s, d, Replied);
    var (news, user) := ParseKey(key).value;
    var shelf := Hand(d, user);
    assert Recs(s, shelf) == GroupOf(s.phase[d].groups, user);
    forall other | other != shelf ensures Recs(s', other) == Recs(s, other) {}
    MovedShelves(s, s', key, shelf, Rec(news, s.counters[key]));
  }

  lemma MovedCounters(s: State, s': State, key: string, slot: Place)
    requires CountersMatch(s) && !slot.Live?
    requires s'.ledger == Move(s.ledger, Live(key), slot) && s'.counters == s.counters - {key}
    ensures CountersMatch(s')
  {
    MoveEffect(s.ledger, Live(key), slot);
  }

  lemma ReplyKeepsCounters(s: State, d: DrainerId, key: string, reply: GetDelOutcome)
    requires Inv(s) && s.phase[d].Draining? && s.phase[d].todo != [] && key == s.phase[d].todo[0]
    requires ParseKey(key).Some? && key in s.counters && reply != Failed
    ensures CountersMatch(DrainHead(s, d, reply))
  {
    hide ParseKey, KEY_PREFIX, ShelvesMatch, KeysListed, GroupOf, Append;
    var user := ParseKey(key).value.1;
    var slot := if reply == Lost then Gone(ReplyLost) else On(Hand(d, user), |GroupOf(s.phase[d].groups, user)|);
    var s' := DrainHead(s, d, reply);
    assert s'.ledger == Move(s.ledger, Live(key), slot) && s'.counters == s.counters - {key};
    MovedCounters(s, s', key, slot);
  }

  lemma DrainKeepsInv(s: State, d: DrainerId, reply: GetDelOutcome)
    requires Inv(s) && Enabled(s, GetDel(d, reply))
    ensures Inv(Apply(s, GetDel(d, reply)))
  {
    hide ParseKey, KEY_PREFIX, CountersMatch, ShelvesMatch;
    var key := s.phase[d].todo[0];
    if ParseKey(key).None? || key !in s.counters || reply == Failed {
      QuietDrainKeepsInv(s, d, reply);
    } else {
      if reply == Lost { LostReplyKeepsShelves(s, d, key); } else { ReplyKeepsShelves(s, d, key); }
      ReplyKeepsCounters(s, d, key, reply);
    }
  }

  lemma PutKeepsShelves(s: State, d: DrainerId, put: PutOutcome)
    requires Inv(s) && Enabled(s, Put(d, put))
    ensures ShelvesMatch(PutGroup(s, d, put))
  {
    hide ParseKey, KEY_PREFIX, CountersMatch, KeysListed;
    var s' := PutGroup(s, d, put);
    var obj := s.phase[d].name.value;
    var from := Hand(d, obj.user);
    var to := if put == Stored then Some(Bucket(obj)) else None;
    CarryEffect(s.ledger, from, to);
    assert Recs(s', from) == [];
    assert to.Some? ==> Recs(s', to.value) == Recs(s, from);
    forall other | other != from && Some(other) != to ensures Recs(s', other) == Recs(s, other) {}
    forall t | 0 <= t < |s'.ledger| && s'.ledger[t].place.On? ensures Labelled(s', s'.ledger[t]) {
      assert Labelled(s, s.ledger[t]);
    }
  }

  lemma PutKeepsInv(s: State, d: DrainerId, put: PutOutcome)
    requires Inv(s) && Enabled(s, Put(d, put))
    ensures Inv(Apply(s, Put(d, put)))
  {
    hide ParseKey, KEY_PREFIX, ShelvesMatch;
    var obj := s.phase[d].name.value;
    CarryEffect(s.ledger, Hand(d, obj.user), if put == Stored then Some(Bucket(obj)) else None);
    PutKeepsShelves(s, d, put);
  }

  /** Every transition keeps the counts and the ledger in step. */
  lemma StepKeepsInv(s: State, lab: Label)
    requires Inv(s) && Enabled(s, lab)
    ensures Inv(Apply(s, lab))
  {
    match lab
    case Serve(news, apiKey) => ServeKeepsInv(s, news, apiKey);
    case Incr(t, incr) => IncrKeepsInv(s, t, incr);
    case GetDel(d, reply) => DrainKeepsInv(s, d, reply);
    case Put(d, put) => PutKeepsInv(s, d, put);
    case Name(d, _) => SameShelves(s, Apply(s, lab));
    case Snapshot(d, _) => SameShelves(s, Apply(s, lab));
    case StartUpload(d) => SameShelves(s, Apply(s, lab));
    case EndCycle(d) => SameShelves(s, Apply(s, lab));
    case Tick => SameShelves(s, Apply(s, lab));
  }

  lemma {:induction false} RunKeepsInv(s: State, labels: seq<Label>)
    requires Inv(s) && Legal(s, labels)
    ensures Inv(Exec(s, labels))
    decreases |labels|
  {
    if labels != [] {
      StepKeepsInv(s, labels[0]);
      RunKeepsInv(Apply(s, labels[0]), labels[1..]);
    }
  }
}
