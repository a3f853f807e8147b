/** ValidateUserAPIKey, the code that feed-api and actions share, run while other requests,
    document changes, expiries and time interfere between any two of its calls. */
module UserValidator {
  import opened Wrappers
  import opened UserCache

  // The request whose own call a transition is, if any.
  function Actor(lab: Label): Option<nat> {
    match lab
    case Lookup(id, _, _) => Some(id)
    case Fetch(id, _) => Some(id)
    case Fill(id, _) => Some(id)
    case _ => None
  }

  // Once a request is made, only its own calls move it.
  lemma OthersKeepRequest(s: State, lab: Label, id: nat)
    requires Enabled(s, lab) && Actor(lab) != Some(id)
    ensures id in s.requests <==> id in Apply(s, lab).requests
    ensures id in s.requests ==> Apply(s, lab).requests[id] == s.requests[id]
  {
  }

  predicate NoChange(labels: seq<Label>) {
    forall i :: 0 <= i < |labels| ==> !labels[i].Change?
  }

  lemma OnlyChangeChanges(s: State, lab: Label)
    requires Enabled(s, lab) && !lab.Change?
    ensures Apply(s, lab).docs == s.docs
  {
  }

  // What the others do of `labels`; a transition that is not enabled does not happen.
  function Effective(s: State, id: nat, labels: seq<Label>): seq<Label>
    decreases |labels|
  {
    if labels == [] then []
    else if Actor(labels[0]) != Some(id) && Enabled(s, labels[0])
    then [labels[0]] + Effective(Apply(s, labels[0]), id, labels[1..])
    else Effective(s, id, labels[1..])
  }

  // The calls of one request among those of a run.
  function Own(labels: seq<Label>, id: nat): seq<Label> {
    if labels == [] then []
    else
      var before, last := Own(labels[..|labels| - 1], id), labels[|labels| - 1];
      if Actor(last) == Some(id) then before + [last] else before
  }

  lemma OwnNext(labels: seq<Label>, lab: Label, id: nat)
    ensures Own(labels + [lab], id) == Own(labels, id) + if Actor(lab) == Some(id) then [lab] else []
  {
    assert (labels + [lab])[..|labels|] == labels;
  }

  /** The shared Redis, Firestore and every other request. */
  class Backend {
    var sys: State
    ghost const first: State
    ghost var trace: seq<Label>

    ghost predicate Valid()
      reads this
    {
      Legal(first, trace) && sys == Exec(first, trace)
    }

    constructor (docs: Docs)
      ensures Valid() && first == sys == Start(docs)
    {
      sys, first, trace := Start(docs), Start(docs), [];
    }

    method Step(lab: Label)
      requires Valid() && Enabled(sys, lab)
      modifies this
      ensures Valid() && sys == Apply(old(sys), lab) && trace == old(trace) + [lab]
    {
      ExecAppend(first, trace, lab);
      sys, trace := Apply(sys, lab), trace + [lab];
    }

    method Interfere(id: nat, others: seq<Label>)
      requires Valid() && id in sys.requests
      modifies this
      ensures Valid() && trace == old(trace) + Effective(old(sys), id, others)
      ensures id in sys.requests && sys.requests[id] == old(sys).requests[id]
      ensures Own(trace, id) == Own(old(trace), id)
      ensures NoChange(others) ==> sys.docs == old(sys).docs
    {
      hide Legal, Exec, Apply, Enabled;
      for i := 0 to |others|
        invariant Valid() && trace + Effective(sys, id, others[i..]) == old(trace) + Effective(old(sys), id, others)
        invariant id in sys.requests && sys.requests[id] == old(sys).requests[id]
        invariant Own(trace, id) == Own(old(trace), id)
        invariant NoChange(others) ==> sys.docs == old(sys).docs
      {
        assert others[i..][0] == others[i] && others[i..][1..] == others[i + 1..];
        if Actor(others[i]) != Some(id) && Enabled(sys, others[i]) {
          OthersKeepRequest(sys, others[i], id);
          if !others[i].Change? { OnlyChangeChanges(sys, others[i]); }
          OwnNext(trace, others[i], id);
          ghost var rest := Effective(Apply(sys, others[i]), id, others[i + 1..]);
          assert trace + ([others[i]] + rest) == (trace + [others[i]]) + rest;
          Step(others[i]);
        }
      }
    }

    // GetCachedUserStatus: the status, or None for every error, a miss included.
    method GetCachedUserStatus(id: nat, apiKey: string, redisOk: bool) returns (cached: Option<UserStatus>)
      requires Valid() && id !in sys.requests
      modifies this
      ensures Valid() && trace == old(trace) + [Lookup(id, apiKey, redisOk)]
      ensures id in sys.requests
      ensures match cached
        case Some(status) => sys.requests[id] == Answered(apiKey, status, Hit)
        case None => sys.requests[id] == Missed(apiKey)
      ensures cached == if redisOk && apiKey in old(sys).cache && old(sys).now < old(sys).cache[apiKey].expires
        then Some(old(sys).cache[apiKey].status) else None
      ensures sys.cache == old(sys).cache && sys.docs == old(sys).docs && sys.now == old(sys).now
    {
      cached := if redisOk && InForce(sys, apiKey) then Some(sys.cache[apiKey].status) else None;
      Step(Lookup(id, apiKey, redisOk));
    }

    method GetDoc(id: nat, firestoreOk: bool) returns (doc: Fetched)
      requires Valid() && id in sys.requests && sys.requests[id].Missed?
      modifies this
      ensures Valid() && trace == old(trace) + [Fetch(id, firestoreOk)] && id in sys.requests
      ensures doc == if firestoreOk then ReadDoc(old(sys).docs, old(sys).requests[id].user) else OtherError
      ensures sys == Apply(old(sys), Fetch(id, firestoreOk))
    {
      doc := if firestoreOk then ReadDoc(sys.docs, sys.requests[id].user) else OtherError;
      Step(Fetch(id, firestoreOk));
    }

    // CacheUserStatus: an error is only logged.
    method CacheUserStatus(id: nat, status: UserStatus, redisOk: bool)
      requires Valid() && id in sys.requests && sys.requests[id].Fetching? && sys.requests[id].status == status
      modifies this
      ensures Valid() && trace == old(trace) + [Fill(id, redisOk)] && id in sys.requests
      ensures sys.requests[id] == Answered(old(sys).requests[id].user, status, Filled)
      ensures var user := old(sys).requests[id].user;
        && (redisOk ==>
              user in sys.cache && sys.cache[user].status == status && sys.cache[user].expires == sys.now + 86400)
        && (!redisOk ==> sys.cache == old(sys).cache)
        && (forall other :: other != user && other in old(sys).cache ==>
              other in sys.cache && sys.cache[other] == old(sys).cache[other])
        && sys.now == old(sys).now && sys.docs == old(sys).docs
    {
      Step(Fill(id, redisOk));
    }

    /** Returns the answer that the protocol gives this request. With CachedRefinesDirect that is
        the direct answer while no document changes, and with BoundedStaleness a recent one. */
    method ValidateUserAPIKey(id: nat, apiKey: string, getOk: bool, firestoreOk: bool, setOk: bool,
                              beforeRead: seq<Label>, beforeFill: seq<Label>)
      returns (found: bool, premium: bool)
      requires Valid() && id !in sys.requests
      modifies this
      ensures Valid() && old(trace) < trace
      ensures var hit := getOk && apiKey in old(sys).cache && old(sys).now < old(sys).cache[apiKey].expires;
        && (hit ==> UserStatus(found, premium) == old(sys).cache[apiKey].status)
        && (!hit && firestoreOk && NoChange(beforeRead) ==>
              && (found <==> apiKey in old(sys).docs)
              && (premium <==> apiKey in old(sys).docs && old(sys).docs[apiKey].premium == Some(true)))
        && (!hit && !firestoreOk ==> !found && !premium)
        && Own(trace, id) == Own(old(trace), id) + [Lookup(id, apiKey, getOk)] +
             if hit then [] else [Fetch(id, firestoreOk)] + if firestoreOk then [Fill(id, setOk)] else []
      ensures id in sys.requests && sys.requests[id].Answered? && sys.requests[id].user == apiKey
      ensures sys.requests[id].status == UserStatus(found, premium)
      ensures sys.requests[id].how == Transient ==> !firestoreOk && !found && !premium
    {
      hide Legal, Exec, Own, Effective;
      OwnNext(trace, Lookup(id, apiKey, getOk), id);
      var cachedStatus := GetCachedUserStatus(id, apiKey, getOk);
      if cachedStatus.Some? {
        return cachedStatus.value.found, cachedStatus.value.premium;
      }
      Interfere(id, beforeRead);
      OwnNext(trace, Fetch(id, firestoreOk), id);
      var docSnapshot := GetDoc(id, firestoreOk);
      if docSnapshot.OtherError? {
        return false, false;
      }
      Interfere(id, beforeFill);
      OwnNext(trace, Fill(id, setOk), id);
      if docSnapshot.NotFound? || !docSnapshot.found {
        CacheUserStatus(id, UserStatus(false, false), setOk);
        return false, false;
      }
      if docSnapshot.premium.None? {
        CacheUserStatus(id, UserStatus(true, false), setOk);
        return true, false;
      }
      CacheUserStatus(id, UserStatus(true, docSnapshot.premium.value), setOk);
      return true, docSnapshot.premium.value;
    }
  }

  lemma {:induction false} ExecAppend(s: State, labels: seq<Label>, lab: Label)
    requires Legal(s, labels) && Enabled(Exec(s, labels), lab)
    ensures Legal(s, labels + [lab]) && Exec(s, labels + [lab]) == Apply(Exec(s, labels), lab)
    decreases |labels|
  {
    if labels == [] {
      assert [] + [lab] == [lab] && [lab][1..] == [];
    } else {
      hide Apply;
      ExecAppend(Apply(s, labels[0]), labels[1..], lab);
      assert (labels + [lab])[1..] == labels[1..] + [lab];
    }
  }
}
