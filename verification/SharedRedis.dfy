/** One Redis database with the keys of every service. The deployed configuration keeps sessions,
    cached statuses and blocked addresses in one database, the local one news and counters as well.
    Which service wrote a key can be told from its form alone, but a reader that takes its key from
    a request can ask for any key. */
module SharedRedis {
  import opened Wrappers
  import opened CounterKeys

  datatype Kind = Session | Status | Marker | Counter | News

  // The time a value lives, in seconds.
  function Ttl(kind: Kind): Option<nat> {
    match kind
    case Session => Some(900)
    case Status => Some(86400)
    case Marker => Some(3600)
    case Counter => None
    case News => None
  }

  const STATUS_PREFIX := "apikey:"
  const TOKEN_LENGTH := 32

  predicate IsAlphanumeric(c: char) {
    'a' <= c <= 'z' || 'A' <= c <= 'Z' || '0' <= c <= '9'
  }

  // What GenerateSessionKey returns, or the empty string that stands for its failure.
  predicate IsToken(key: string) {
    key == "" || (|key| == TOKEN_LENGTH && forall i :: 0 <= i < |key| ==> IsAlphanumeric(key[i]))
  }

  // The text of an IP address: hexadecimal digits up to its first dot or colon.
  predicate IsAddress(key: string) {
    key != "" && (key[0] == '.' || key[0] == ':' || (key[0] in "0123456789abcdef" && IsAddress(key[1..])))
  }

  /** The form of the keys that the services write for each purpose. */
  predicate IsOf(kind: Kind, key: string) {
    match kind
    case Session => IsToken(key)
    case Status => STATUS_PREFIX <= key
    case Marker => IsAddress(key)
    case Counter => KEY_PREFIX <= key
    case News => key == "headlines" || key == "discover"
  }

  /** A key has the form of one kind at most. */
  lemma KindsAreDisjoint(a: Kind, b: Kind, key: string)
    requires IsOf(a, key) && IsOf(b, key)
    ensures a == b
  {
    PunctuatedIsNoToken(key);
    if IsAddress(key) {
      AddressIsPunctuated(key);
    } else if STATUS_PREFIX <= key {
      assert key[0] == 'a' && key[6] == ':';
    } else if KEY_PREFIX <= key {
      assert key[0] == 'e' && key[1] == 'n' && key[8] == ':';
    }
    if !IsToken(key) { OthersAreNoAddress(key); }
  }

  lemma PunctuatedIsNoToken(key: string)
    ensures '.' in key || ':' in key ==> !IsToken(key)
  {
    if i :| 0 <= i < |key| && (key[i] == '.' || key[i] == ':') {
      assert !IsAlphanumeric(key[i]);
    }
  }

  lemma {:induction false} AddressIsPunctuated(key: string)
    requires IsAddress(key)
    ensures '.' in key || ':' in key
  {
    if key[0] != '.' && key[0] != ':' {
      AddressIsPunctuated(key[1..]);
    }
  }

  lemma NotHexadecimal(key: string, i: nat)
    requires i < 2 && i < |key| && 'f' < key[i] && (i == 1 ==> key[0] != '.' && key[0] != ':')
    ensures !IsAddress(key)
  {
    assert key[i] !in "0123456789abcdef";
  }

  // The prefixes and names of the others have a letter beyond f before any dot or colon.
  lemma OthersAreNoAddress(key: string)
    ensures STATUS_PREFIX <= key || KEY_PREFIX <= key || key == "headlines" || key == "discover" ==> !IsAddress(key)
  {
    hide IsAddress;
    if STATUS_PREFIX <= key {
      assert key[0] == 'a' && key[1] == 'p';
      NotHexadecimal(key, 1);
    } else if KEY_PREFIX <= key {
      assert key[0] == 'e' && key[1] == 'n';
      NotHexadecimal(key, 1);
    } else if key == "headlines" {
      NotHexadecimal(key, 0);
    } else if key == "discover" {
      NotHexadecimal(key, 1);
    }
  }

  // ---------- The keyspace ----------

  // A SET that succeeded, or an INCR with the value it leaves, or, without a value, a deletion by
  // GETDEL or by Redis itself.
  datatype Write = Write(kind: Kind, at: nat, key: string, value: Option<string>)

  datatype Entry = Entry(value: string, expires: Option<nat>)

  function Expiry(w: Write): Option<nat> {
    match Ttl(w.kind)
    case None => None
    case Some(seconds) => Some(w.at + seconds)
  }

  function Keyspace(history: seq<Write>): map<string, Entry> {
    if history == [] then map[]
    else
      var last, before := history[|history| - 1], Keyspace(history[..|history| - 1]);
      if last.value.Some? then before[last.key := Entry(last.value.value, Expiry(last))] else before - {last.key}
  }

  predicate Unexpired(expires: Option<nat>, now: nat) {
    expires.None? || now < expires.value
  }

  // What a GET returns at a given second.
  function Get(keys: map<string, Entry>, key: string, now: nat): Option<string> {
    if key in keys && Unexpired(keys[key].expires, now) then Some(keys[key].value) else None
  }

  /** A session is found for 15 minutes, a cached status for 24 hours and a blocked address for one
      hour; counters and news stay. */
  lemma LivesFor(history: seq<Write>, w: Write, now: nat)
    requires w.value.Some?
    ensures Get(Keyspace(history + [w]), w.key, now) == w.value <==>
      match w.kind
      case Session => now < w.at + 900
      case Status => now < w.at + 86400
      case Marker => now < w.at + 3600
      case _ => true
  {
    assert (history + [w])[..|history|] == history;
  }

  predicate WellFormed(history: seq<Write>) {
    forall i :: 0 <= i < |history| ==> IsOf(history[i].kind, history[i].key)
  }

  /** The last write under this key. */
  ghost predicate LastUnder(history: seq<Write>, i: int, key: string) {
    && 0 <= i < |history| && history[i].key == key
    && forall j :: i < j < |history| ==> history[j].key != key
  }

  /** A GET returns a value exactly when the last write under the key is of that value and has not
      expired. */
  lemma {:induction false} GetIff(history: seq<Write>, key: string, now: nat, value: string)
    ensures Get(Keyspace(history), key, now) == Some(value) <==>
      exists i :: LastUnder(history, i, key) && history[i].value == Some(value) && Unexpired(Expiry(history[i]), now)
  {
    if history != [] {
      var n := |history| - 1;
      var before := history[..n];
      GetIff(before, key, now, value);
      if history[n].key == key {
        assert LastUnder(history, n, key);
      } else {
        forall i ensures LastUnder(history, i, key) <==> LastUnder(before, i, key) {
          assert forall j :: 0 <= j < n ==> history[j] == before[j];
        }
        assert forall i :: LastUnder(before, i, key) ==> history[i] == before[i];
      }
    }
  }

  // ---------- Reading a key of one's own kind ----------

  // The same history as if the service had a database of its own.
  function Of(history: seq<Write>, kind: Kind): seq<Write> {
    if history == [] then []
    else
      var last, before := history[|history| - 1], Of(history[..|history| - 1], kind);
      if last.kind == kind then before + [last] else before
  }

  lemma {:induction false} OnlyOf(history: seq<Write>, kind: Kind, key: string, now: nat)
    requires forall i :: 0 <= i < |history| && history[i].key == key ==> history[i].kind == kind
    ensures Get(Keyspace(history), key, now) == Get(Keyspace(Of(history, kind)), key, now)
  {
    if history != [] {
      var n := |history| - 1;
      assert history[n].key == key ==> history[n].kind == kind;
      OnlyOf(history[..n], kind, key, now);
      LastWrite(history, key, now);
      if history[n].kind == kind {
        var of := Of(history, kind);
        assert of[..|of| - 1] == Of(history[..n], kind);
        LastWrite(of, key, now);
      }
    }
  }

  lemma LastWrite(history: seq<Write>, key: string, now: nat)
    requires history != []
    ensures var last := history[|history| - 1];
      Get(Keyspace(history), key, now) ==
      if last.key != key then Get(Keyspace(history[..|history| - 1]), key, now)
      else if Unexpired(Expiry(last), now) then last.value else None
  {
  }

  /** A service that reads keys of its own form is not affected by what the others write. */
  lemma OwnKindIsPrivate(history: seq<Write>, kind: Kind, key: string, now: nat)
    requires WellFormed(history) && IsOf(kind, key)
    ensures Get(Keyspace(history), key, now) == Get(Keyspace(Of(history, kind)), key, now)
  {
    forall i | 0 <= i < |history| && history[i].key == key ensures history[i].kind == kind {
      KindsAreDisjoint(history[i].kind, kind, key);
    }
    OnlyOf(history, kind, key, now);
  }

  // ---------- Reading any key ----------

  // The form of a key that another service than `kind`'s writes.
  predicate Foreign(kind: Kind, key: string) {
    exists other: Kind :: other != kind && IsOf(other, key)
  }

  lemma {:induction false} NoneUnder(history: seq<Write>, key: string, now: nat)
    requires forall i :: 0 <= i < |history| ==> history[i].key != key
    ensures Get(Keyspace(history), key, now) == None
  {
    if history != [] {
      NoneUnder(history[..|history| - 1], key, now);
    }
  }

  lemma {:induction false} OfIsOf(history: seq<Write>, kind: Kind, key: string)
    requires WellFormed(history) && !IsOf(kind, key)
    ensures forall i :: 0 <= i < |Of(history, kind)| ==> Of(history, kind)[i].key != key
  {
    if history != [] {
      hide IsOf;
      OfIsOf(history[..|history| - 1], kind, key);
    }
  }

  /** A read of any key returns what a database of one's own would return, if and only if the key is
      not there or does not have the form of another service's. */
  lemma ReadIsOwnIff(history: seq<Write>, kind: Kind, key: string, now: nat)
    requires WellFormed(history)
    ensures Get(Keyspace(history), key, now) == Get(Keyspace(Of(history, kind)), key, now) <==>
            Get(Keyspace(history), key, now) == None || !Foreign(kind, key)
  {
    if other: Kind :| other != kind && IsOf(other, key) {
      if IsOf(kind, key) { KindsAreDisjoint(kind, other, key); }
      OfIsOf(history, kind, key);
      NoneUnder(Of(history, kind), key, now);
    } else {
      hide IsOf, Get, Keyspace;
      forall i | 0 <= i < |history| && history[i].key == key ensures history[i].kind == kind {
        assert IsOf(history[i].kind, key);
      }
      OnlyOf(history, kind, key, now);
    }
  }

  ghost predicate AlwaysOwn(kind: Kind, key: string) {
    forall history, now: nat :: WellFormed(history) ==>
      Get(Keyspace(history), key, now) == Get(Keyspace(Of(history, kind)), key, now)
  }

  /** Reading this key is safe in every state and at any time if and only if it does not have the
      form of another service's keys. */
  lemma AlwaysOwnIff(kind: Kind, key: string)
    ensures AlwaysOwn(kind, key) <==> !Foreign(kind, key)
  {
    if other: Kind :| other != kind && IsOf(other, key) {
      var history := [Write(other, 0, key, Some(""))];
      assert history[..0] == [];
      assert Get(Keyspace(history), key, 0) == Some("");
      ReadIsOwnIff(history, kind, key, 0);
    } else {
      hide IsOf, Get, Keyspace;
      forall history, now: nat | WellFormed(history)
        ensures Get(Keyspace(history), key, now) == Get(Keyspace(Of(history, kind)), key, now)
      {
        ReadIsOwnIff(history, kind, key, now);
      }
    }
  }
}
