/** One tick of SyncLogRedisToMinIO, the loop body that feed-api and log-redis-pusher share, run
    while request goroutines and the other drainer interfere between any two of its calls. */
module DrainCycle {
  import opened Wrappers
  import opened CounterKeys
  import opened DrainProtocol
  import opened DrainDelivery

  // The drainer whose own call a transition is, if any.
  function Actor(lab: Label): Option<DrainerId> {
    match lab
    case Snapshot(d, _) => Some(d)
    case GetDel(d, _) => Some(d)
    case StartUpload(d) => Some(d)
    case Name(d, _) => Some(d)
    case Put(d, _) => Some(d)
    case EndCycle(d) => Some(d)
    case _ => None
  }

  lemma {:induction false} ExecAppend(s: State, labels: seq<Label>, lab: Label)
    requires HasDrainers(s) && Legal(s, labels)
    ensures HasDrainers(Exec(s, labels))
    ensures Enabled(Exec(s, labels), lab) ==>
      Legal(s, labels + [lab]) && Exec(s, labels + [lab]) == Apply(Exec(s, labels), lab)
    decreases |labels|
  {
    hide Enabled, Apply;
    if labels == [] {
      assert [] + [lab] == [lab] && [lab][1..] == [];
    } else {
      ExecAppend(Apply(s, labels[0]), labels[1..], lab);
      assert (labels + [lab])[1..] == labels[1..] + [lab];
    }
  }

  /** How the GETDEL of each key and the PUT for each user end. */
  datatype Outcomes = Outcomes(reply: string -> GetDelOutcome, put: string -> PutOutcome)

  // A GETDEL or PUT of drainer d, made in state s, ends as `out` says for its key or user.
  ghost predicate Carries(s: State, d: DrainerId, lab: Label, out: Outcomes) {
    match lab
    case GetDel(d', reply) =>
      d' == d ==>
        d in s.phase && s.phase[d].Draining? && s.phase[d].todo != [] && reply == out.reply(s.phase[d].todo[0])
    case Put(d', put) =>
      d' == d ==>
        d in s.phase && s.phase[d].Uploading? && s.phase[d].name.Some? && put == out.put(s.phase[d].name.value.user)
    case _ => true
  }

  // states[i] is the state in which step i of the run is taken.
  ghost predicate Visits(labels: seq<Label>, states: seq<State>) {
    && |states| == |labels|
    && forall i :: 0 <= i < |labels| ==> Legal(INIT, labels[..i]) && states[i] == Exec(INIT, labels[..i])
  }

  lemma VisitsNext(labels: seq<Label>, states: seq<State>, lab: Label)
    requires Visits(labels, states) && Legal(INIT, labels)
    ensures Visits(labels + [lab], states + [Exec(INIT, labels)])
  {
    hide Legal, Exec;
    forall i | 0 <= i < |labels| + 1 ensures (labels + [lab])[..i] == labels[..i] {}
    assert labels[..|labels|] == labels;
  }

  // What the others do of `labels`; a transition that is not enabled does not happen.
  ghost function Effective(s: State, d: DrainerId, labels: seq<Label>): seq<Label>
    requires HasDrainers(s)
    decreases |labels|
  {
    if labels == [] then []
    else if Actor(labels[0]) != Some(d) && Enabled(s, labels[0])
    then [labels[0]] + Effective(Apply(s, labels[0]), d, labels[1..])
    else Effective(s, d, labels[1..])
  }

  /** The log Redis, the user-logs bucket and the other goroutines. */
  class World {
    var sys: State
    ghost var trace: seq<Label>
    ghost var states: seq<State>

    // The world is in a reachable state of the protocol.
    ghost predicate Valid()
      reads this
    {
      && HasDrainers(INIT) && Legal(INIT, trace) && sys == Exec(INIT, trace) && Inv(sys)
      && |states| == |trace| && Visits(trace, states)
    }

    constructor ()
      ensures Valid() && sys == INIT
    {
      sys, trace, states := INIT, [], [];
      new;
      InitInv();
    }

    /** Since the old state, the calls of drainer d ended as `out` says. */
    twostate predicate Carried(d: DrainerId, out: Outcomes)
      reads this
    {
      && old(trace) <= trace && old(states) <= states && |states| == |trace| && |old(states)| == |old(trace)|
      && forall i :: |old(trace)| <= i < |trace| ==> Carries(states[i], d, trace[i], out)
    }

    method Step(lab: Label)
      requires Valid() && Enabled(sys, lab)
      modifies this
      ensures Valid() && sys == Apply(old(sys), lab)
      ensures trace == old(trace) + [lab] && states == old(states) + [old(sys)]
    {
      ExecAppend(INIT, trace, lab);
      StepKeepsInv(sys, lab);
      VisitsNext(trace, states, lab);
      sys, trace, states := Apply(sys, lab), trace + [lab], states + [sys];
    }

    // Whatever the others do.
    method Interfere(d: DrainerId, others: seq<Label>, ghost out: Outcomes, ghost watched: set<nat>)
      requires Valid() && Awaits(sys, d, out, watched)
      modifies this
      ensures Valid() && Carried(d, out) && sys.phase[d] == old(sys.phase[d])
      ensures trace == old(trace) + Effective(old(sys), d, others) && old(sys).clock <= sys.clock
      ensures Awaits(sys, d, out, watched)
    {
      hide Apply, Awaits, Legal, Exec, Visits, CountersMatch, ShelvesMatch, KeysListed;
      for i := 0 to |others|
        invariant Valid() && Carried(d, out) && sys.phase[d] == old(sys.phase[d]) && old(sys).clock <= sys.clock
        invariant trace + Effective(sys, d, others[i..]) == old(trace) + Effective(old(sys), d, others)
        invariant Awaits(sys, d, out, watched)
      {
        assert others[i..][0] == others[i] && others[i..][1..] == others[i + 1..];
        if Actor(others[i]) != Some(d) && Enabled(sys, others[i]) {
          OtherKeepsPhase(sys, d, others[i]);
          StepKeepsAwaits(sys, d, others[i], out, watched);
          ghost var rest := Effective(Apply(sys, others[i]), d, others[i + 1..]);
          assert trace + ([others[i]] + rest) == (trace + [others[i]]) + rest;
          Step(others[i]);
        }
      }
    }

    method Keys() returns (keys: seq<string>)
      ensures IsSnapshot(sys.counters, keys)
    {
      keys := [];
      var left := sys.counters.Keys;
      while left != {}
        invariant left <= sys.counters.Keys
        invariant forall i, j :: 0 <= i < j < |keys| ==> keys[i] != keys[j]
        invariant forall k :: k in keys ==> k in sys.counters && KEY_PREFIX <= k && k !in left
        invariant forall k :: k in sys.counters && KEY_PREFIX <= k && k !in left ==> k in keys
        decreases left
      {
        var k :| k in left;
        left := left - {k};
        if KEY_PREFIX <= k { keys := keys + [k]; }
      }
    }

    // The GETDEL of the next listed key: its count, or None when the call returns an error.
    method GetDel(d: DrainerId, reply: GetDelOutcome) returns (count: Option<nat>)
      requires Valid() && Enabled(sys, Label.GetDel(d, reply)) && ParseKey(sys.phase[d].todo[0]).Some?
      modifies this
      ensures Valid() && sys == Apply(old(sys), Label.GetDel(d, reply))
      ensures trace == old(trace) + [Label.GetDel(d, reply)] && states == old(states) + [old(sys)]
      ensures var key := old(sys).phase[d].todo[0];
        count == if key in old(sys).counters && reply == Replied then Some(old(sys).counters[key]) else None
    {
      var key := sys.phase[d].todo[0];
      count := if key in sys.counters && reply == Replied then Some(sys.counters[key]) else None;
      Step(Label.GetDel(d, reply));
    }
  }

  lemma OtherKeepsPhase(s: State, d: DrainerId, lab: Label)
    requires HasDrainers(s) && Enabled(s, lab) && Actor(lab) != Some(d)
    ensures Apply(s, lab).phase[d] == s.phase[d] && s.clock <= Apply(s, lab).clock
  {
    hide ParseKey, CounterKey, KEY_PREFIX;
  }

  // What one GETDEL of drainer d does to its own loop.
  lemma HeadEffect(s: State, d: DrainerId, reply: GetDelOutcome)
    requires HasDrainers(s) && Enabled(s, GetDel(d, reply))
    ensures var key, p' := s.phase[d].todo[0], Apply(s, GetDel(d, reply)).phase[d];
      p' == Draining(s.phase[d].todo[1..],
        if ParseKey(key).Some? && key in s.counters && reply == Replied
        then Append(s.phase[d].groups, ParseKey(key).value.1, Rec(ParseKey(key).value.0, s.counters[key]))
        else s.phase[d].groups)
  {
    hide ParseKey;
  }

  // Everything of `watched` that is still in a counter has yet to be reached by d's loop, and the
  // GETDEL of its key does not fail.
  ghost predicate Awaits(s: State, d: DrainerId, out: Outcomes, watched: set<nat>)
    requires HasDrainers(s)
  {
    && ToBeDrained(s, d, watched)
    && forall t :: t in watched ==> out.reply(s.ledger[t].key) != Failed
  }

  lemma StepKeepsAwaits(s: State, d: DrainerId, lab: Label, out: Outcomes, watched: set<nat>)
    requires Inv(s) && Enabled(s, lab) && Carries(s, d, lab, out) && !(lab.Snapshot? && lab.d == d)
    requires Awaits(s, d, out, watched)
    ensures Awaits(Apply(s, lab), d, out, watched)
  {
    hide Apply, CountersMatch, ShelvesMatch, KeysListed, ParseKey, IsSnapshot;
    StepDrains(s, d, lab, watched);
    forall t: nat | t in watched ensures Apply(s, lab).ledger[t].key == s.ledger[t].key {
      StepAdvances(s, lab, t);
    }
  }

  // The increments that are in a counter whose GETDEL does not fail.
  ghost function LiveTokens(s: State, out: Outcomes): set<nat> {
    set t: nat | t < |s.ledger| && s.ledger[t].place.Live? && out.reply(s.ledger[t].key) != Failed
  }

  // They have left Redis: held, stored or lost.
  ghost predicate Drained(s: State, tokens: set<nat>) {
    forall t :: t in tokens ==> t < |s.ledger| && Rank(s.ledger[t].place) >= 2
  }

  lemma IdleMeansDrained(s: State, d: DrainerId, watched: set<nat>)
    requires HasDrainers(s) && ToBeDrained(s, d, watched) && s.phase[d].Idle?
    ensures Drained(s, watched)
  {
  }

  // The KEYS call sees everything that is in a counter.
  lemma SnapshotAwaits(s: State, d: DrainerId, keys: seq<string>, out: Outcomes)
    requires Inv(s) && Enabled(s, Snapshot(d, keys))
    ensures Awaits(Apply(s, Snapshot(d, keys)), d, out, LiveTokens(s, out))
  {
    hide ParseKey, KEY_PREFIX, CountersMatch, ShelvesMatch, KeysListed, IsSnapshot, ToBeDrained;
    SnapshotWatches(s, d, keys, LiveTokens(s, out));
  }

  // Drains the listed counters into groupedLogs.
  method DrainKeys(w: World, d: DrainerId, keys: seq<string>, out: Outcomes, env: nat -> seq<Label>,
                   ghost watched: set<nat>)
    returns (groupedLogs: Groups)
    requires w.Valid() && w.sys.phase[d] == Draining(keys, map[]) && Awaits(w.sys, d, out, watched)
    modifies w
    ensures w.Valid() && w.Carried(d, out) && w.sys.phase[d] == Draining([], groupedLogs)
    ensures Awaits(w.sys, d, out, watched)
  {
    hide ParseKey, KEY_PREFIX, Apply, CountersMatch, ShelvesMatch, KeysListed, Legal, Exec, Visits, Awaits, Effective;
    groupedLogs := map[];
    for i := 0 to |keys|
      invariant w.Valid() && w.Carried(d, out) && Awaits(w.sys, d, out, watched)
      invariant w.sys.phase[d] == Draining(keys[i..], groupedLogs)
    {
      w.Interfere(d, env(i), out, watched);
      var outcome := out.reply(keys[i]);
      StepKeepsAwaits(w.sys, d, GetDel(d, outcome), out, watched);
      HeadEffect(w.sys, d, outcome);
      var parsed := ParseKey(keys[i]);
      if parsed.None? {
        w.Step(GetDel(d, outcome));
        continue;
      }
      var (newsID, apiKey) := parsed.value;
      var accessCount := w.GetDel(d, outcome);
      if accessCount.None? { continue; }
      groupedLogs := Append(groupedLogs, apiKey, Rec(newsID, accessCount.value));
    }
  }

  // Stores one object per user of groupedLogs, in any order, each under the second at which its
  // name is taken, which may be long past when the PUT arrives.
  method UploadGroups(w: World, d: DrainerId, groupedLogs: Groups, out: Outcomes, env: nat -> seq<Label>,
                      ghost watched: set<nat>)
    requires w.Valid() && w.sys.phase[d] == Uploading(groupedLogs, None) && Awaits(w.sys, d, out, watched)
    modifies w
    ensures w.Valid() && w.Carried(d, out) && w.sys.phase[d] == Uploading(map[], None)
    ensures Awaits(w.sys, d, out, watched)
  {
    hide CountersMatch, ShelvesMatch, KeysListed, Legal, Exec, Visits, Apply, Enabled, Awaits, Carries;
    var left, n := groupedLogs, 0;
    while left != map[]
      invariant w.Valid() && w.Carried(d, out) && Awaits(w.sys, d, out, watched)
      invariant w.sys.phase[d] == Uploading(left, None)
      decreases |left|
    {
      var apiKey :| apiKey in left;
      UploadGroup(w, d, left, apiKey, out, env(n), env(n + 1), watched);
      left, n := left - {apiKey}, n + 2;
    }
  }

  predicate HasObject(s: State, o: Obj, logs: seq<Rec>) {
    o in s.objects && s.objects[o] == logs
  }

  // The object is stored for the user, under a second between two moments.
  ghost predicate IsStored(s: State, user: string, logs: seq<Rec>, from: nat) {
    exists second: nat :: from <= second <= s.clock && HasObject(s, Obj(user, second), logs)
  }

  /** One object: its name first, then the PUT, with the others at work before each. If the store
      accepts the PUT, the group is what is stored under the user and a second of the upload. */
  method UploadGroup(w: World, d: DrainerId, left: Groups, apiKey: string, out: Outcomes, before: seq<Label>,
                     between: seq<Label>, ghost watched: set<nat>)
    requires w.Valid() && w.sys.phase[d] == Uploading(left, None) && apiKey in left && Awaits(w.sys, d, out, watched)
    modifies w
    ensures w.Valid() && w.Carried(d, out) && w.sys.phase[d] == Uploading(left - {apiKey}, None)
    ensures out.put(apiKey) == Stored ==> IsStored(w.sys, apiKey, left[apiKey], old(w.sys).clock)
    ensures Awaits(w.sys, d, out, watched)
  {
    hide CountersMatch, ShelvesMatch, KeysListed, Legal, Exec, Visits, Apply, Awaits, Effective;
    w.Interfere(d, before, out, watched);
    ghost var second := w.sys.clock;
    NameEffect(w.sys, d, apiKey);
    StepKeepsAwaits(w.sys, d, Name(d, apiKey), out, watched);
    w.Step(Name(d, apiKey));
    w.Interfere(d, between, out, watched);
    var outcome := out.put(apiKey);
    PutEffect(w.sys, d, outcome);
    StepKeepsAwaits(w.sys, d, Put(d, outcome), out, watched);
    w.Step(Put(d, outcome));
    assert outcome == Stored ==> HasObject(w.sys, Obj(apiKey, second), left[apiKey]);
  }

  lemma NameEffect(s: State, d: DrainerId, user: string)
    requires HasDrainers(s) && Enabled(s, Name(d, user))
    ensures var s' := Apply(s, Name(d, user));
      s'.phase[d] == Uploading(s.phase[d].groups, Some(Obj(user, s.clock))) && s'.clock == s.clock
  {
  }

  lemma PutEffect(s: State, d: DrainerId, put: PutOutcome)
    requires HasDrainers(s) && Enabled(s, Put(d, put))
    ensures var s', name := Apply(s, Put(d, put)), s.phase[d].name.value;
      && s'.phase[d] == Uploading(s.phase[d].groups - {name.user}, None) && s'.clock == s.clock
      && s'.objects == if put == Stored then s.objects[name := s.phase[d].groups[name.user]] else s.objects
  {
    hide Carry;
  }

  method DrainAndUpload(w: World, d: DrainerId, keys: seq<string>, out: Outcomes, env: nat -> seq<Label>,
                        env': nat -> seq<Label>, ghost watched: set<nat>)
    requires w.Valid() && w.sys.phase[d] == Draining(keys, map[]) && Awaits(w.sys, d, out, watched)
    modifies w
    ensures w.Valid() && w.Carried(d, out) && w.sys.phase[d].Idle?
    ensures Awaits(w.sys, d, out, watched)
  {
    hide ParseKey, Legal, Exec, Visits, CountersMatch, ShelvesMatch, KeysListed, IsSnapshot, DrainHead, PutGroup;
    hide Awaits;
    var groupedLogs := DrainKeys(w, d, keys, out, env, watched);
    StepKeepsAwaits(w.sys, d, StartUpload(d), out, watched);
    w.Step(StartUpload(d));
    UploadGroups(w, d, groupedLogs, out, env', watched);
    StepKeepsAwaits(w.sys, d, EndCycle(d), out, watched);
    w.Step(EndCycle(d));
  }

  // Where no outcome is a fault, no step of the drainer is one.
  lemma CarriedIsFaultless(s: State, d: DrainerId, lab: Label, out: Outcomes)
    requires Carries(s, d, lab, out) && Actor(lab) == Some(d)
    requires (forall key :: out.reply(key) != Lost) && (forall user :: out.put(user) == Stored)
    ensures !Fault(lab)
  {
  }

  /** One tick. `ping` and `list` say whether the PING and the KEYS succeed, `out` how the GETDEL of
      each key and the PUT of each user end, and `env` and `env'` what happens in between. The tick
      is a run of the protocol whose calls end that way; it ends with nothing in hand and with every
      increment that its KEYS call saw out of Redis, unless the GETDEL of its own key failed. */
  method SyncCycle(w: World, d: DrainerId, ping: bool, list: bool, out: Outcomes, env: nat -> seq<Label>,
                   env': nat -> seq<Label>)
    requires w.Valid() && w.sys.phase[d].Idle?
    modifies w
    ensures w.Valid() && w.Carried(d, out) && w.sys.phase[d].Idle?
    ensures !ping || !list ==> w.sys == old(w.sys)
    ensures ping && list ==> Drained(w.sys, LiveTokens(old(w.sys), out))
    ensures (forall key :: out.reply(key) != Lost) && (forall user :: out.put(user) == Stored) ==>
      forall i :: |old(w.trace)| <= i < |w.trace| && Actor(w.trace[i]) == Some(d) ==> !Fault(w.trace[i])
  {
    if !ping || !list { return; }
    hide ParseKey, Legal, Exec, Visits, CountersMatch, ShelvesMatch, KeysListed, IsSnapshot, DrainHead, PutGroup;
    hide ToBeDrained, Drained, LiveTokens;
    ghost var watched := LiveTokens(w.sys, out);
    var keys := w.Keys();
    SnapshotAwaits(w.sys, d, keys, out);
    w.Step(Snapshot(d, keys));
    DrainAndUpload(w, d, keys, out, env, env', watched);
    IdleMeansDrained(w.sys, d, watched);
    if (forall key :: out.reply(key) != Lost) && (forall user :: out.put(user) == Stored) {
      forall i | |old(w.trace)| <= i < |w.trace| && Actor(w.trace[i]) == Some(d) ensures !Fault(w.trace[i]) {
        CarriedIsFaultless(w.states[i], d, w.trace[i], out);
      }
    }
  }
}
