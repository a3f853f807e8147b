/** The user document of the actions service: bookmarks are added and removed by merging updates,
    while a failed update and the Notion callback overwrite the whole document. */
module Bookmarks {
  import opened Wrappers

  // An element of the stored array; other services may have put something else than a string.
  datatype Value = Str(id: string) | Other

  // The "bookmarks" field of a document.
  datatype Field = Missing | NotAnArray | Arr(values: seq<Value>)

  datatype Doc = Doc(bookmarks: Field, premium: Option<bool>, notion: Option<string>)

  // ---------- Firestore's operators ----------

  function ArrayUnion(f: Field, id: string): Field {
    match f
    case Arr(values) => if Str(id) in values then f else Arr(values + [Str(id)])
    case _ => Arr([Str(id)])
  }

  function Without(values: seq<Value>, id: string): seq<Value> {
    if values == [] then []
    else
      var last := values[|values| - 1];
      Without(values[..|values| - 1], id) + if last == Str(id) then [] else [last]
  }

  function ArrayRemove(f: Field, id: string): Field {
    match f
    case Arr(values) => Arr(Without(values, id))
    case _ => Arr([])
  }

  // The document lists this bookmark.
  predicate Has(doc: Doc, id: string) {
    doc.bookmarks.Arr? && Str(id) in doc.bookmarks.values
  }

  lemma {:induction false} WithoutIt(values: seq<Value>, id: string)
    ensures Str(id) !in Without(values, id)
  {
    if values != [] {
      WithoutIt(values[..|values| - 1], id);
    }
  }

  // ---------- The handlers as transitions of one document ----------

  // Each call to the store succeeds or not; an update also fails when there is no document.
  datatype Op =
    | Add(id: string, updateOk: bool, setOk: bool)
    | Remove(id: string, updateOk: bool)
    | Notion(credentials: string, setOk: bool)

  function Apply(doc: Option<Doc>, op: Op): Option<Doc> {
    match op
    case Add(id, updateOk, setOk) =>
      if updateOk && doc.Some? then Some(doc.value.(bookmarks := ArrayUnion(doc.value.bookmarks, id)))
      else if setOk then Some(Doc(Arr([Str(id)]), None, None))
      else doc
    case Remove(id, updateOk) =>
      if updateOk && doc.Some? then Some(doc.value.(bookmarks := ArrayRemove(doc.value.bookmarks, id)))
      else doc
    case Notion(credentials, setOk) =>
      if setOk then Some(Doc(Missing, None, Some(credentials))) else doc
  }

  function Run(doc: Option<Doc>, ops: seq<Op>): Option<Doc> {
    if ops == [] then doc else Apply(Run(doc, ops[..|ops| - 1]), ops[|ops| - 1])
  }

  datatype Listing = UserNotFound | InvalidFormat | Bookmarks(ids: seq<string>)

  function Strings(values: seq<Value>): seq<string> {
    if values == [] then []
    else
      var last := values[|values| - 1];
      Strings(values[..|values| - 1]) + if last.Str? then [last.id] else []
  }

  function List(doc: Option<Doc>): Listing {
    if doc.None? then UserNotFound
    else
      match doc.value.bookmarks
      case Missing => Bookmarks([])
      case NotAnArray => InvalidFormat
      case Arr(values) => Bookmarks(Strings(values))
  }

  // ---------- The handlers ----------

  /** The users collection. */
  class Users {
    var docs: map<string, Doc>

    constructor ()
      ensures docs == map[]
    {
      docs := map[];
    }

    function Get(user: string): Option<Doc>
      reads this
    {
      if user in docs then Some(docs[user]) else None
    }

    // The document of one user goes from old to new and no other changes.
    twostate predicate Became(user: string, doc: Option<Doc>)
      reads this
    {
      Get(user) == doc && forall other :: other != user ==> Get(other) == old(Get(other))
    }

    method AddBookmark(user: string, id: string, updateOk: bool, setOk: bool) returns (status: Status)
      modifies this
      ensures Became(user, Apply(old(Get(user)), Add(id, updateOk, setOk)))
      ensures updateOk && old(Get(user)).Some? ==>
        && Get(user).Some? && Has(Get(user).value, id)
        && Get(user).value.premium == old(Get(user)).value.premium
        && Get(user).value.notion == old(Get(user)).value.notion
      ensures status == if (updateOk && old(Get(user)).Some?) || setOk then StatusOK else StatusInternalServerError
    {
      if updateOk && user in docs {
        docs := docs[user := docs[user].(bookmarks := ArrayUnion(docs[user].bookmarks, id))];
      } else {
        if !setOk { return StatusInternalServerError; }
        docs := docs[user := Doc(Arr([Str(id)]), None, None)];
      }
      status := StatusOK;
    }

    method RemoveBookmark(user: string, id: string, updateOk: bool) returns (status: Status)
      modifies this
      ensures Became(user, Apply(old(Get(user)), Remove(id, updateOk)))
      ensures updateOk && old(Get(user)).Some? ==>
        && Get(user).Some? && !Has(Get(user).value, id)
        && Get(user).value.premium == old(Get(user)).value.premium
        && Get(user).value.notion == old(Get(user)).value.notion
      ensures status == if updateOk && old(Get(user)).Some? then StatusOK else StatusInternalServerError
    {
      if !updateOk || user !in docs { return StatusInternalServerError; }
      if docs[user].bookmarks.Arr? { WithoutIt(docs[user].bookmarks.values, id); }
      docs := docs[user := docs[user].(bookmarks := ArrayRemove(docs[user].bookmarks, id))];
      status := StatusOK;
    }

    method ListBookmarks(user: string, getOk: bool) returns (status: Status, ids: seq<string>)
      ensures status == (if !getOk then StatusNotFound else
        match List(Get(user))
        case UserNotFound => StatusNotFound
        case InvalidFormat => StatusInternalServerError
        case _ => StatusOK)
      ensures status == StatusOK ==> List(Get(user)) == Bookmarks(ids)
    {
      ids := [];
      if !getOk || user !in docs { return StatusNotFound, []; }
      var data := docs[user].bookmarks;
      if data.Missing? { return StatusOK, []; }
      if data.NotAnArray? { return StatusInternalServerError, []; }
      for i := 0 to |data.values|
        invariant ids == Strings(data.values[..i])
      {
        assert data.values[..i + 1][..i] == data.values[..i];
        if data.values[i].Str? { ids := ids + [data.values[i].id]; }
      }
      assert data.values[..|data.values|] == data.values;
      status := StatusOK;
    }

    method StoreNotion(user: string, credentials: string, setOk: bool)
      modifies this
      ensures Became(user, Apply(old(Get(user)), Notion(credentials, setOk)))
    {
      if setOk {
        docs := docs[user := Doc(Missing, None, Some(credentials))];
      }
    }
  }

  // ---------- What the history says ----------

  // The effect of an operation on the set of bookmarks, given whether there is a document.
  datatype Event = Added(id: string) | Removed(id: string) | Overwritten(ids: seq<string>) | Nothing

  function EventOf(hasDoc: bool, op: Op): Event {
    match op
    case Add(id, updateOk, setOk) =>
      if updateOk && hasDoc then Added(id) else if setOk then Overwritten([id]) else Nothing
    case Remove(id, updateOk) => if updateOk && hasDoc then Removed(id) else Nothing
    case Notion(_, setOk) => if setOk then Overwritten([]) else Nothing
  }

  function History(doc: Option<Doc>, ops: seq<Op>): (h: seq<Event>)
    ensures |h| == |ops|
  {
    if ops == [] then []
    else
      var before := ops[..|ops| - 1];
      History(doc, before) + [EventOf(Run(doc, before).Some?, ops[|ops| - 1])]
  }

  predicate Makes(e: Event, id: string) {
    e == Added(id) || (e.Overwritten? && id in e.ids)
  }

  predicate Clears(e: Event, id: string) {
    e == Removed(id) || e.Overwritten?
  }

  /** Event i is the one that last made the bookmark present: it adds it, nothing clears it later,
      and nothing before it has kept it present up to it. */
  ghost predicate PresentSince(h: seq<Event>, id: string, i: int) {
    && 0 <= i < |h| && Makes(h[i], id)
    && (forall j :: i < j < |h| ==> !Clears(h[j], id))
    && (forall j :: 0 <= j < i && Makes(h[j], id) ==> ClearedIn(h, id, j, i))
  }

  ghost predicate ClearedIn(h: seq<Event>, id: string, j: int, i: int)
    requires 0 <= j < i < |h|
  {
    exists k :: j < k <= i && Clears(h[k], id)
  }

  ghost predicate Untouched(h: seq<Event>, id: string) {
    forall j :: 0 <= j < |h| ==> !Clears(h[j], id)
  }

  // Of the bookmarks at the start, in their order and with their copies, those that no event clears.
  ghost function Kept(start: seq<string>, h: seq<Event>): seq<string> {
    if start == [] then []
    else
      var last := start[|start| - 1];
      Kept(start[..|start| - 1], h) + if Untouched(h, last) then [last] else []
  }

  /** `ids` are the bookmarks that are present, each since its event in `born`, oldest first, without
      those kept from the start. */
  ghost predicate IsOrderedSet(start: seq<string>, h: seq<Event>, ids: seq<string>, born: seq<nat>) {
    && |ids| == |born|
    && (forall a :: 0 <= a < |ids| ==> PresentSince(h, ids[a], born[a]) && ids[a] !in Kept(start, h))
    && (forall a, b :: 0 <= a < b < |ids| ==> born[a] < born[b])
    && (forall id, i :: PresentSince(h, id, i) ==> id in ids || id in Kept(start, h))
  }

  // A last maker of a bookmark that nothing clears means that it is present.
  lemma {:induction false} PresentWhenKept(h: seq<Event>, id: string, j: nat) returns (i: nat)
    requires j < |h| && Makes(h[j], id) && forall k :: j < k < |h| ==> !Clears(h[k], id)
    ensures i <= j && PresentSince(h, id, i)
    decreases j
  {
    if j' :| 0 <= j' < j && Makes(h[j'], id) && !ClearedIn(h, id, j', j) {
      i := PresentWhenKept(h, id, j');
    } else {
      i := j;
    }
  }

  lemma PresentAfter(h: seq<Event>, e: Event, id: string, i: nat)
    ensures i < |h| ==> (PresentSince(h + [e], id, i) <==> PresentSince(h, id, i) && !Clears(e, id))
    ensures PresentSince(h + [e], id, |h|) <==>
      Makes(e, id) && (Clears(e, id) || forall k :: !PresentSince(h, id, k))
  {
    var h' := h + [e];
    if i < |h| {
      forall j | 0 <= j < i ensures ClearedIn(h', id, j, i) <==> ClearedIn(h, id, j, i) {
        assert forall k :: j < k <= i ==> h'[k] == h[k];
      }
      assert h'[|h|] == e;
      assert forall j :: 0 <= j < |h| ==> h'[j] == h[j];
    }
    NewestPresent(h, e, id);
  }

  lemma NewestPresent(h: seq<Event>, e: Event, id: string)
    ensures PresentSince(h + [e], id, |h|) <==>
      Makes(e, id) && (Clears(e, id) || forall k :: !PresentSince(h, id, k))
  {
    var h', n := h + [e], |h|;
    assert h'[n] == e;
    if Makes(e, id) && Clears(e, id) {
      forall j | 0 <= j < n ensures ClearedIn(h', id, j, n) { assert Clears(h'[n], id); }
    } else if Makes(e, id) {
      if k :| PresentSince(h, id, k) {
        assert Makes(h'[k], id) && !ClearedIn(h', id, k, n);
      } else {
        forall j | 0 <= j < n && Makes(h'[j], id) ensures ClearedIn(h', id, j, n) {
          if forall k :: j < k < n ==> !Clears(h[k], id) {
            var i := PresentWhenKept(h, id, j);
            assert false;
          }
          var k :| j < k < n && Clears(h[k], id);
          assert Clears(h'[k], id);
        }
      }
    }
  }

  lemma PresentOnce(h: seq<Event>, id: string, i: int, j: int)
    requires PresentSince(h, id, i) && PresentSince(h, id, j)
    ensures i == j
  {
  }

  lemma OrderedSetIsDistinct(start: seq<string>, h: seq<Event>, ids: seq<string>, born: seq<nat>, a: nat, b: nat)
    requires IsOrderedSet(start, h, ids, born) && a < b < |ids|
    ensures ids[a] != ids[b]
  {
    if ids[a] == ids[b] { PresentOnce(h, ids[a], born[a], born[b]); }
  }

  lemma {:induction false} KeptIff(start: seq<string>, h: seq<Event>, id: string)
    ensures id in Kept(start, h) <==> id in start && Untouched(h, id)
  {
    if start != [] {
      hide Untouched;
      var init, last := start[..|start| - 1], start[|start| - 1];
      assert start == init + [last];
      KeptIff(init, h, id);
    }
  }

  lemma UntouchedAfter(h: seq<Event>, e: Event, id: string)
    ensures Untouched(h + [e], id) <==> Untouched(h, id) && !Clears(e, id)
  {
    var h' := h + [e];
    assert h'[|h|] == e;
    assert forall j :: 0 <= j < |h| ==> h'[j] == h[j];
  }

  function Drop(ids: seq<string>, id: string): seq<string> {
    if ids == [] then []
    else
      var last := ids[|ids| - 1];
      Drop(ids[..|ids| - 1], id) + if last == id then [] else [last]
  }

  lemma {:induction false} DropAppend(a: seq<string>, b: seq<string>, id: string)
    ensures Drop(a + b, id) == Drop(a, id) + Drop(b, id)
  {
    if b == [] {
      assert a + b == a;
    } else {
      DropAppend(a, b[..|b| - 1], id);
      assert (a + b)[..|a + b| - 1] == a + b[..|b| - 1];
    }
  }

  // What one more event leaves of the bookmarks kept from the start.
  function KeptBy(kept: seq<string>, e: Event): seq<string> {
    match e
    case Removed(id) => Drop(kept, id)
    case Overwritten(_) => []
    case _ => kept
  }

  lemma {:induction false} KeptNext(start: seq<string>, h: seq<Event>, e: Event)
    ensures Kept(start, h + [e]) == KeptBy(Kept(start, h), e)
  {
    if start != [] {
      var init, last := start[..|start| - 1], start[|start| - 1];
      KeptNext(init, h, e);
      UntouchedAfter(h, e, last);
      hide Untouched;
      if e.Removed? {
        DropAppend(Kept(init, h), if Untouched(h, last) then [last] else [], e.id);
        assert Drop([last], e.id) == if last == e.id then [] else [last];
      }
    }
  }

  lemma {:induction false} KeptOfNothing(start: seq<string>)
    ensures Kept(start, []) == start
  {
    if start != [] {
      KeptOfNothing(start[..|start| - 1]);
      assert start == start[..|start| - 1] + [start[|start| - 1]];
    }
  }

  // The set after one more event, whatever it is.
  lemma NextOrderedSet(start: seq<string>, h: seq<Event>, e: Event, ids: seq<string>, born: seq<nat>,
                       ids': seq<string>, born': seq<nat>)
    requires IsOrderedSet(start, h, ids, born) && |ids'| == |born'|
    requires forall a, b :: 0 <= a < b < |ids'| ==> born'[a] < born'[b]
    requires forall a :: 0 <= a < |ids'| ==>
      if born'[a] == |h|
      then Makes(e, ids'[a]) && (Clears(e, ids'[a]) || (ids'[a] !in ids && ids'[a] !in Kept(start, h)))
      else ids'[a] in ids && PresentSince(h, ids'[a], born'[a]) && !Clears(e, ids'[a])
    requires forall id :: (id in ids && !Clears(e, id)) || Makes(e, id) ==> id in ids' || id in Kept(start, h + [e])
    ensures IsOrderedSet(start, h + [e], ids', born')
  {
    hide PresentSince, Makes, Clears, Kept, Untouched;
    forall a | 0 <= a < |ids'|
      ensures PresentSince(h + [e], ids'[a], born'[a]) && ids'[a] !in Kept(start, h + [e])
    {
      PresentAfter(h, e, ids'[a], born'[a]);
      StillKept(start, h, e, ids'[a]);
      if born'[a] != |h| { Bounds(h, ids'[a], born'[a]); }
    }
    forall id, i | PresentSince(h + [e], id, i) ensures id in ids' || id in Kept(start, h + [e]) {
      Bounds(h + [e], id, i);
      PresentAfter(h, e, id, i);
      StillKept(start, h, e, id);
    }
  }

  lemma StillKept(start: seq<string>, h: seq<Event>, e: Event, id: string)
    ensures id in Kept(start, h + [e]) <==> id in Kept(start, h) && !Clears(e, id)
  {
    KeptIff(start, h, id);
    KeptIff(start, h + [e], id);
    UntouchedAfter(h, e, id);
  }

  lemma Bounds(h: seq<Event>, id: string, i: int)
    requires PresentSince(h, id, i)
    ensures 0 <= i < |h|
  {
  }

  // ---------- The document ----------

  // The strings of the array, in order; none when there is no array.
  function StringsOf(doc: Option<Doc>): seq<string> {
    if doc.Some? && doc.value.bookmarks.Arr? then Strings(doc.value.bookmarks.values) else []
  }

  lemma {:induction false} StringIn(values: seq<Value>, id: string)
    ensures Str(id) in values <==> id in Strings(values)
  {
    if values != [] {
      StringIn(values[..|values| - 1], id);
      assert values == values[..|values| - 1] + [values[|values| - 1]];
    }
  }

  lemma {:induction false} StringsWithout(values: seq<Value>, id: string)
    ensures Strings(Without(values, id)) == Drop(Strings(values), id)
  {
    if values != [] {
      var init, last := values[..|values| - 1], values[|values| - 1];
      StringsWithout(init, id);
      if last == Str(id) {
        assert Without(values, id) == Without(init, id);
        DropLast(Strings(init), id, id);
      } else {
        assert Without(values, id) == Without(init, id) + [last];
        StringsAppend(Without(init, id), last);
        if last.Str? {
          assert last == Str(last.id);
          DropLast(Strings(init), last.id, id);
        } else {
          assert Strings(values) == Strings(init);
        }
      }
    }
  }

  lemma DropLast(ids: seq<string>, last: string, id: string)
    ensures Drop(ids + [last], id) == Drop(ids, id) + if last == id then [] else [last]
  {
    assert (ids + [last])[..|ids|] == ids;
  }

  lemma StringsAppend(values: seq<Value>, v: Value)
    ensures Strings(values + [v]) == Strings(values) + if v.Str? then [v.id] else []
  {
    assert (values + [v])[..|values|] == values;
  }

  // What one operation does to the strings of the array.
  function After(strings: seq<string>, e: Event): seq<string> {
    match e
    case Added(id) => if id in strings then strings else strings + [id]
    case Removed(id) => Drop(strings, id)
    case Overwritten(ids) => ids
    case Nothing => strings
  }

  lemma StepStrings(doc: Option<Doc>, op: Op)
    ensures StringsOf(Apply(doc, op)) == After(StringsOf(doc), EventOf(doc.Some?, op))
  {
    match EventOf(doc.Some?, op)
    case Nothing =>
    case Added(id) =>
      if doc.value.bookmarks.Arr? {
        StringIn(doc.value.bookmarks.values, id);
        StringsAppend(doc.value.bookmarks.values, Str(id));
      } else {
        StringsAppend([], Str(id));
      }
    case Removed(id) =>
      if doc.value.bookmarks.Arr? { StringsWithout(doc.value.bookmarks.values, id); }
    case Overwritten(only) =>
      if op.Add? { StringsAppend([], Str(op.id)); }
  }

  // ---------- One event ----------

  function Cut<T>(s: seq<T>, a: nat): (r: seq<T>)
    requires a < |s|
    ensures |r| == |s| - 1
    ensures forall b :: 0 <= b < |r| ==> r[b] == s[if b < a then b else b + 1]
  {
    s[..a] + s[a + 1..]
  }

  lemma {:induction false} DropNone(ids: seq<string>, id: string)
    requires forall b :: 0 <= b < |ids| ==> ids[b] != id
    ensures Drop(ids, id) == ids
  {
    if ids != [] {
      DropNone(ids[..|ids| - 1], id);
      assert ids == ids[..|ids| - 1] + [ids[|ids| - 1]];
    }
  }

  lemma {:induction false} DropOne(ids: seq<string>, id: string, a: nat)
    requires a < |ids| && ids[a] == id && forall b :: 0 <= b < |ids| && b != a ==> ids[b] != id
    ensures Drop(ids, id) == Cut(ids, a)
  {
    var n := |ids| - 1;
    if a == n {
      DropNone(ids[..n], id);
    } else {
      DropOne(ids[..n], id, a);
      assert Cut(ids, a) == Cut(ids[..n], a) + [ids[n]];
    }
  }

  // Adding puts a bookmark that is not there at the end.
  lemma AddedRefines(start: seq<string>, h: seq<Event>, id: string, ids: seq<string>, born: seq<nat>)
    requires IsOrderedSet(start, h, ids, born)
    ensures id in Kept(start, h) + ids ==> IsOrderedSet(start, h + [Added(id)], ids, born)
    ensures id !in Kept(start, h) + ids ==> IsOrderedSet(start, h + [Added(id)], ids + [id], born + [|h|])
  {
    KeptNext(start, h, Added(id));
    hide PresentSince, Kept;
    forall a | 0 <= a < |ids| ensures born[a] < |h| { Bounds(h, ids[a], born[a]); }
    if id in Kept(start, h) + ids {
      NextOrderedSet(start, h, Added(id), ids, born, ids, born);
    } else {
      NextOrderedSet(start, h, Added(id), ids, born, ids + [id], born + [|h|]);
    }
  }

  lemma RemovedAt(start: seq<string>, h: seq<Event>, id: string, ids: seq<string>, born: seq<nat>, a: nat)
    requires IsOrderedSet(start, h, ids, born) && a < |ids| && ids[a] == id
    ensures forall b :: 0 <= b < |ids| && b != a ==> ids[b] != id
    ensures IsOrderedSet(start, h + [Removed(id)], Cut(ids, a), Cut(born, a))
  {
    hide PresentSince, Cut, Kept;
    forall b | 0 <= b < |ids| && b != a ensures ids[b] != id {
      if b < a {
        OrderedSetIsDistinct(start, h, ids, born, b, a);
      } else {
        OrderedSetIsDistinct(start, h, ids, born, a, b);
      }
    }
    forall b | 0 <= b < |ids| ensures born[b] < |h| { Bounds(h, ids[b], born[b]); }
    forall other | other in ids && other != id ensures other in Cut(ids, a) {
      var b :| 0 <= b < |ids| && ids[b] == other;
      assert Cut(ids, a)[if b < a then b else b - 1] == other;
    }
    NextOrderedSet(start, h, Removed(id), ids, born, Cut(ids, a), Cut(born, a));
  }

  lemma RemovedRefines(start: seq<string>, h: seq<Event>, id: string, ids: seq<string>, born: seq<nat>)
    returns (ids': seq<string>, born': seq<nat>)
    requires IsOrderedSet(start, h, ids, born)
    ensures Drop(ids, id) == ids' && IsOrderedSet(start, h + [Removed(id)], ids', born')
  {
    hide PresentSince, Kept;
    if a :| 0 <= a < |ids| && ids[a] == id {
      RemovedAt(start, h, id, ids, born, a);
      DropOne(ids, id, a);
      ids', born' := Cut(ids, a), Cut(born, a);
    } else {
      DropNone(ids, id);
      forall b | 0 <= b < |ids| ensures born[b] < |h| { Bounds(h, ids[b], born[b]); }
      ids', born' := ids, born;
      NextOrderedSet(start, h, Removed(id), ids, born, ids, born);
    }
  }

  lemma OverwrittenRefines(start: seq<string>, h: seq<Event>, only: seq<string>, ids: seq<string>, born: seq<nat>)
    requires IsOrderedSet(start, h, ids, born) && |only| <= 1
    ensures IsOrderedSet(start, h + [Overwritten(only)], only, if only == [] then [] else [|h|])
  {
    hide PresentSince, Kept;
    NextOrderedSet(start, h, Overwritten(only), ids, born, only, if only == [] then [] else [|h|]);
  }

  lemma NothingRefines(start: seq<string>, h: seq<Event>, ids: seq<string>, born: seq<nat>)
    requires IsOrderedSet(start, h, ids, born)
    ensures IsOrderedSet(start, h + [Nothing], ids, born)
  {
    hide PresentSince, Kept;
    forall a | 0 <= a < |ids| ensures born[a] < |h| { Bounds(h, ids[a], born[a]); }
    NextOrderedSet(start, h, Nothing, ids, born, ids, born);
  }

  lemma EventRefines(start: seq<string>, h: seq<Event>, e: Event, ids: seq<string>, born: seq<nat>)
    returns (ids': seq<string>, born': seq<nat>)
    requires IsOrderedSet(start, h, ids, born) && (e.Overwritten? ==> |e.ids| <= 1)
    ensures IsOrderedSet(start, h + [e], ids', born')
    ensures Kept(start, h + [e]) + ids' == After(Kept(start, h) + ids, e)
  {
    KeptNext(start, h, e);
    hide IsOrderedSet, Kept;
    match e
    case Nothing =>
      NothingRefines(start, h, ids, born);
      ids', born' := ids, born;
    case Added(id) =>
      AddedRefines(start, h, id, ids, born);
      var there := id in Kept(start, h) + ids;
      ids', born' := if there then ids else ids + [id], if there then born else born + [|h|];
    case Removed(id) =>
      ids', born' := RemovedRefines(start, h, id, ids, born);
      DropAppend(Kept(start, h), ids, id);
    case Overwritten(only) =>
      OverwrittenRefines(start, h, only, ids, born);
      ids', born' := only, if only == [] then [] else [|h|];
  }

  // The field is no array as long as it was none at the start and nothing has happened to it.
  ghost predicate StillNoArray(doc: Option<Doc>, h: seq<Event>) {
    doc.Some? && doc.value.bookmarks.NotAnArray? && forall i :: 0 <= i < |h| ==> h[i].Nothing?
  }

  lemma {:induction false} NoArrayIff(doc: Option<Doc>, ops: seq<Op>)
    ensures Run(doc, ops).Some? && Run(doc, ops).value.bookmarks.NotAnArray? <==> StillNoArray(doc, History(doc, ops))
  {
    if ops != [] {
      var n := |ops| - 1;
      NoArrayIff(doc, ops[..n]);
      var h, h' := History(doc, ops[..n]), History(doc, ops);
      assert h' == h + [EventOf(Run(doc, ops[..n]).Some?, ops[n])];
      assert forall i :: 0 <= i < n ==> h'[i] == h[i];
      assert StillNoArray(doc, h') <==> StillNoArray(doc, h) && h'[n].Nothing?;
    }
  }

  /** Over whole runs with any failures, overwrites and Notion callbacks, and from any document, a
      listing returns the bookmarks of the start that nothing has cleared, as they were, and then
      exactly the others that are present, without duplicates, ordered by the event that last made
      each present. Elements that are not strings are never listed. */
  lemma ListingIsOrderedSet(doc: Option<Doc>, ops: seq<Op>)
    returns (ids: seq<string>, born: seq<nat>)
    ensures IsOrderedSet(StringsOf(doc), History(doc, ops), ids, born)
    ensures StringsOf(Run(doc, ops)) == Kept(StringsOf(doc), History(doc, ops)) + ids
    ensures List(Run(doc, ops)) ==
      if Run(doc, ops).None? then UserNotFound
      else if StillNoArray(doc, History(doc, ops)) then InvalidFormat
      else Bookmarks(Kept(StringsOf(doc), History(doc, ops)) + ids)
    ensures forall a, b :: 0 <= a < b < |ids| ==> ids[a] != ids[b]
  {
    ids, born := RunRefines(doc, ops);
    NoArrayIff(doc, ops);
    hide *;
    ListOfStrings(Run(doc, ops));
    forall a, b | 0 <= a < b < |ids| ensures ids[a] != ids[b] {
      OrderedSetIsDistinct(StringsOf(doc), History(doc, ops), ids, born, a, b);
    }
  }

  lemma ListOfStrings(doc: Option<Doc>)
    ensures List(doc) ==
      if doc.None? then UserNotFound
      else if doc.value.bookmarks.NotAnArray? then InvalidFormat
      else Bookmarks(StringsOf(doc))
  {
  }

  lemma {:induction false} RunRefines(doc: Option<Doc>, ops: seq<Op>) returns (ids: seq<string>, born: seq<nat>)
    ensures IsOrderedSet(StringsOf(doc), History(doc, ops), ids, born)
    ensures StringsOf(Run(doc, ops)) == Kept(StringsOf(doc), History(doc, ops)) + ids
  {
    hide IsOrderedSet, Kept, StringsOf, Apply, EventOf;
    var start := StringsOf(doc);
    if ops == [] {
      ids, born := NoEvent(start);
    } else {
      var n := |ops| - 1;
      var now, h := Run(doc, ops[..n]), History(doc, ops[..n]);
      ids, born := RunRefines(doc, ops[..n]);
      StepStrings(now, ops[n]);
      OneOverwritten(now.Some?, ops[n]);
      ids, born := EventRefines(start, h, EventOf(now.Some?, ops[n]), ids, born);
    }
  }

  lemma NoEvent(start: seq<string>) returns (ids: seq<string>, born: seq<nat>)
    ensures ids == [] && IsOrderedSet(start, [], ids, born) && Kept(start, []) == start
  {
    ids, born := [], [];
    KeptOfNothing(start);
  }

  lemma OneOverwritten(hasDoc: bool, op: Op)
    ensures EventOf(hasDoc, op).Overwritten? ==> |EventOf(hasDoc, op).ids| <= 1
  {
  }

  /** What is listed depends only on the events since the last whole-document overwrite: a bookmark
      is present since that event or a later one. */
  lemma OnlySinceOverwrite(h: seq<Event>, id: string, i: int, o: nat)
    requires PresentSince(h, id, i) && o < |h| && h[o].Overwritten?
    ensures o <= i
  {
  }

  /** With a document in place and no failure or callback, the events are the adds and removes themselves. */
  lemma {:induction false} FaultFreeHistory(doc: Option<Doc>, ops: seq<Op>, i: nat)
    requires doc.Some? && i < |ops|
    requires forall j :: 0 <= j < |ops| ==> !ops[j].Notion? && ops[j].updateOk
    ensures Run(doc, ops).Some?
    ensures History(doc, ops)[i] == if ops[i].Add? then Added(ops[i].id) else Removed(ops[i].id)
  {
    var n := |ops| - 1;
    if n > 0 {
      FaultFreeHistory(doc, ops[..n], if i < n then i else 0);
    }
  }

  ghost predicate NeverOverwritten(h: seq<Event>) {
    forall i :: 0 <= i < |h| ==> !h[i].Overwritten?
  }

  /** The premium status of a user survives a run if and only if no fallback of an add and no Notion
      callback wrote the whole document; otherwise it is gone, and validation sees no premium. */
  lemma {:induction false} PremiumKeptIff(doc: Option<Doc>, ops: seq<Op>)
    requires doc.Some? && doc.value.premium.Some?
    ensures Run(doc, ops).Some?
    ensures Run(doc, ops).value.premium == if NeverOverwritten(History(doc, ops)) then doc.value.premium else None
  {
    if ops != [] {
      var before := ops[..|ops| - 1];
      PremiumKeptIff(doc, before);
      assert History(doc, ops)[..|before|] == History(doc, before);
      assert NeverOverwritten(History(doc, ops)) <==>
        NeverOverwritten(History(doc, before)) && !History(doc, ops)[|before|].Overwritten?;
    }
  }

  function CredentialsOf(doc: Option<Doc>): Option<string> {
    if doc.Some? then doc.value.notion else None
  }

  ghost predicate LastOverwrite(h: seq<Event>, i: int) {
    0 <= i < |h| && h[i].Overwritten? && forall j :: i < j < |h| ==> !h[j].Overwritten?
  }

  lemma StepCredentials(doc: Option<Doc>, op: Op)
    ensures CredentialsOf(Apply(doc, op)) ==
      if !EventOf(doc.Some?, op).Overwritten? then CredentialsOf(doc)
      else if op.Notion? then Some(op.credentials) else None
  {
  }

  /** The Notion credentials at the end of a run are those of the start if nothing wrote the whole
      document, those of the last callback if that was the last to do so, and gone if the last was
      the fallback of an add. Merging updates keep them. */
  lemma {:induction false} CredentialsAfter(doc: Option<Doc>, ops: seq<Op>)
    ensures NeverOverwritten(History(doc, ops)) ==> CredentialsOf(Run(doc, ops)) == CredentialsOf(doc)
    ensures forall i :: LastOverwrite(History(doc, ops), i) ==>
      CredentialsOf(Run(doc, ops)) == if ops[i].Notion? then Some(ops[i].credentials) else None
  {
    if ops != [] {
      var n := |ops| - 1;
      CredentialsAfter(doc, ops[..n]);
      StepCredentials(Run(doc, ops[..n]), ops[n]);
      var h, before := History(doc, ops), History(doc, ops[..n]);
      assert h == before + [EventOf(Run(doc, ops[..n]).Some?, ops[n])];
      assert Run(doc, ops) == Apply(Run(doc, ops[..n]), ops[n]);
      hide CredentialsOf, EventOf, Apply, Run, History;
      assert forall i :: 0 <= i < n ==> h[i] == before[i];
      assert NeverOverwritten(h) <==> NeverOverwritten(before) && !h[n].Overwritten?;
      forall i | LastOverwrite(h, i)
        ensures CredentialsOf(Run(doc, ops)) == if ops[i].Notion? then Some(ops[i].credentials) else None
      {
        assert h[n] == EventOf(Run(doc, ops[..n]).Some?, ops[n]);
        if i < n {
          assert !h[n].Overwritten?;
          assert LastOverwrite(before, i) && ops[..n][i] == ops[i];
        }
      }
    }
  }
}
