/** The Notion sign-in of the actions service, an authorization code grant as in section 4.1 of
    RFC 6749: a session token stored with the user's API key for 15 minutes is the `state` that
    brings the credentials back to that user. Sessions share a Redis database with other keys. */
module NotionSession {
  import opened Wrappers
  import opened Bookmarks
  import opened SharedRedis

  /** The user last stored under this state within 15 minutes. */
  ghost predicate IsSessionOf(history: seq<Write>, state: string, now: nat, user: string) {
    exists i :: LastUnder(Of(history, Session), i, state)
      && Of(history, Session)[i].value == Some(user) && now < Of(history, Session)[i].at + 900
  }

  lemma SessionsLast(history: seq<Write>, i: int, now: nat)
    requires 0 <= i < |Of(history, Session)|
    ensures Unexpired(Expiry(Of(history, Session)[i]), now) <==> now < Of(history, Session)[i].at + 900
  {
    KindOf(history, i);
  }

  lemma {:induction false} KindOf(history: seq<Write>, i: int)
    requires 0 <= i < |Of(history, Session)|
    ensures Of(history, Session)[i].kind == Session
  {
    var before := history[..|history| - 1];
    if i < |Of(before, Session)| {
      KindOf(before, i);
    }
  }

  /** The state of a callback resolves to a user of whom it is a live session, and to all those, if
      and only if nothing is found under it or it does not have the form of another kind of key. */
  lemma OwnerIff(history: seq<Write>, state: string, now: nat)
    requires WellFormed(history)
    ensures var found := Get(Keyspace(history), state, now);
      (forall user :: found == Some(user) <==> IsSessionOf(history, state, now, user)) <==>
      (found == None || !Foreign(Session, state))
  {
    var got, meant := Get(Keyspace(history), state, now), Get(Keyspace(Of(history, Session)), state, now);
    ReadIsOwnIff(history, Session, state, now);
    forall user ensures meant == Some(user) <==> IsSessionOf(history, state, now, user) {
      GetIff(Of(history, Session), state, now, user);
      forall i | 0 <= i < |Of(history, Session)|
        ensures Unexpired(Expiry(Of(history, Session)[i]), now) <==> now < Of(history, Session)[i].at + 900
      {
        SessionsLast(history, i, now);
      }
    }
    hide Get, Keyspace, Foreign, IsSessionOf;
    if forall user :: got == Some(user) <==> meant == Some(user) {
      if got.Some? { assert got == Some(got.value); }
      if meant.Some? { assert meant == Some(meant.value); }
    }
  }

  /** Where the guard fails: a key that validation cached and one of a blocked address each resolve to
      the text stored there, though no session was ever stored. */
  lemma ForeignStates(apiKey: string, ip: string, at: nat)
    requires IsAddress(ip)
    ensures var cached := Write(Status, at, STATUS_PREFIX + apiKey, Some("{\"exists\":false,\"premium\":false}"));
      && WellFormed([cached])
      && Get(Keyspace([cached]), STATUS_PREFIX + apiKey, at) == cached.value
      && forall user :: !IsSessionOf([cached], STATUS_PREFIX + apiKey, at, user)
    ensures var blocked := Write(Marker, at, ip, Some("blocked"));
      && WellFormed([blocked])
      && Get(Keyspace([blocked]), ip, at) == Some("blocked")
      && forall user :: !IsSessionOf([blocked], ip, at, user)
  {
    var cached := Write(Status, at, STATUS_PREFIX + apiKey, Some("{\"exists\":false,\"premium\":false}"));
    var blocked := Write(Marker, at, ip, Some("blocked"));
    assert [cached][..0] == [] && [blocked][..0] == [];
    assert Of([], Session) == [];
    assert Of([cached], Session) == [] && Of([blocked], Session) == [];
  }

  // ---------- The handlers ----------

  // One character of the charset: a letter of either case or a digit.
  function CharAt(r: nat): (c: char)
    requires r < 62
    ensures IsAlphanumeric(c)
  {
    if r < 26 then 'a' + r as char else if r < 52 then 'A' + (r - 26) as char else '0' + (r - 52) as char
  }

  /** All 62 draws give different characters. */
  lemma CharsDiffer(r: nat, r': nat)
    requires r < 62 && r' < 62 && r != r'
    ensures CharAt(r) != CharAt(r')
  {
  }

  // `random` gives each draw below 62, or None when the source of randomness fails.
  method GenerateSessionKey(random: nat -> Option<nat>) returns (token: Option<string>)
    requires forall i :: random(i).Some? ==> random(i).value < 62
    ensures token.None? <==> exists i :: 0 <= i < 32 && random(i).None?
    ensures token.Some? ==> IsToken(token.value) && |token.value| == 32
    ensures token.Some? ==> forall i :: 0 <= i < 32 ==> token.value[i] == CharAt(random(i).value)
  {
    var key := "";
    for i := 0 to TOKEN_LENGTH
      invariant |key| == i
      invariant forall j :: 0 <= j < i ==> random(j).Some? && key[j] == CharAt(random(j).value)
    {
      var r := random(i);
      if r.None? { return None; }
      key := key + [CharAt(r.value)];
    }
    token := Some(key);
  }

  // What comes of the exchange of the code with Notion; an answer that is itself an error decodes
  // like any other.
  datatype Exchange = Unreachable | Undecodable | Credentials(json: string)

  /** The shared Redis and the users collection. */
  class Service {
    var keys: map<string, Entry>
    ghost var history: seq<Write>
    const users: Users

    ghost predicate Valid()
      reads this
    {
      keys == Keyspace(history) && WellFormed(history)
    }

    constructor ()
      ensures Valid() && history == [] && fresh(users)
    {
      keys, history := map[], [];
      users := new Users();
    }

    // One write to the database, by this service or another, or a deletion.
    method Store(w: Write)
      requires Valid() && IsOf(w.kind, w.key)
      modifies this
      ensures Valid() && history == old(history) + [w]
    {
      keys := if w.value.Some? then keys[w.key := Entry(w.value.value, Expiry(w))] else keys - {w.key};
      history := history + [w];
      assert history[..|history| - 1] == old(history);
    }

    // When no token could be generated the response starts as a 404, and the handler goes on with
    // the empty token.
    method CreateAuthSession(now: nat, random: nat -> Option<nat>, user: string, urlSet: bool, setOk: bool)
      returns (status: Status, token: string)
      requires Valid() && forall i :: random(i).Some? ==> random(i).value < 62
      modifies this
      ensures Valid() && IsToken(token)
      ensures token == "" <==> !urlSet || exists i :: 0 <= i < TOKEN_LENGTH && random(i).None?
      ensures status == if token == "" then StatusNotFound else StatusOK
      ensures history == old(history) + if urlSet && setOk then [Write(Session, now, token, Some(user))] else []
    {
      if !urlSet { return StatusNotFound, ""; }
      var generated := GenerateSessionKey(random);
      status, token := StatusOK, "";
      if generated.None? { status := StatusNotFound; } else { token := generated.value; }
      if setOk { Store(Write(Session, now, token, Some(user))); }
    }

    /** Writes the credentials to whatever the database has under the state, as the whole document of
        that name, and to no other; by OwnerIff that is the user of the session if and only if the
        state is not the live key of another service. A failed write goes unnoticed. */
    method Callback(now: nat, state: string, exchange: Exchange, getOk: bool, setOk: bool) returns (status: Status)
      requires Valid()
      modifies users
      ensures Valid()
      ensures var found := if getOk then Get(Keyspace(history), state, now) else None;
        && (forall user :: users.Get(user) ==
              if exchange.Credentials? && setOk && found == Some(user)
              then Some(Doc(Missing, None, Some(exchange.json))) else old(users.Get(user)))
        && status == match exchange
             case Unreachable => StatusInternalServerError
             case Undecodable => StatusUnauthorized
             case Credentials(_) => if found.Some? then StatusOK else StatusUnauthorized
    {
      if exchange.Unreachable? { return StatusInternalServerError; }
      if exchange.Undecodable? { return StatusUnauthorized; }
      if !getOk || state !in keys || !Unexpired(keys[state].expires, now) { return StatusUnauthorized; }
      users.StoreNotion(keys[state].value, exchange.json, setOk);
      status := StatusOK;
    }
  }
}
