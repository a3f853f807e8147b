/** FindHighlightIndexes: the scan for the places where each highlight occurs in a text. A string
    is its bytes, as in Go. The code adds len(result) to a hit where its comment means the offset
    at which the scan resumed; both loops are here. */
module Highlights {

  type Span = (int, int)

  predicate OccursAt(s: string, h: string, i: int) {
    0 <= i && i + |h| <= |s| && s[i..i + |h|] == h
  }

  // strings.Index: the first occurrence, or -1.
  function Index(s: string, h: string): (r: int)
    ensures -1 <= r
    ensures r == -1 ==> forall i :: !OccursAt(s, h, i)
    ensures r != -1 ==> OccursAt(s, h, r) && forall i :: 0 <= i < r ==> !OccursAt(s, h, i)
  {
    IndexFrom(s, h, 0)
  }

  function IndexFrom(s: string, h: string, from: nat): (r: int)
    requires from <= |s|
    ensures r == -1 || from <= r
    ensures r == -1 ==> forall i :: from <= i ==> !OccursAt(s, h, i)
    ensures r != -1 ==> OccursAt(s, h, r) && forall i :: from <= i < r ==> !OccursAt(s, h, i)
    decreases |s| - from
  {
    if OccursAt(s, h, from) then from
    else if from == |s| then -1
    else IndexFrom(s, h, from + 1)
  }

  // ---------- The loop as written ----------

  // One highlight, from `start` on, with the spans found so far.
  function WrittenOne(content: string, h: string, start: nat, result: seq<Span>): seq<Span>
    decreases if start >= |content| then 0 else if |result| > |content| then 1 else |content| - |result| + 2
  {
    if start >= |content| then result
    else
      var found := Index(content[start..], h);
      if found == -1 then result
      else
        var begin := found + |result|;
        WrittenOne(content, h, begin + |h|, result + [(begin, begin + |h|)])
  }

  function WrittenAll(content: string, highlights: seq<string>, result: seq<Span>): seq<Span> {
    if highlights == [] then result
    else WrittenAll(content, highlights[1..], WrittenOne(content, highlights[0], 0, result))
  }

  /** The code. It terminates on every content and highlights, empty ones included: a hit leaves
      `start` at len(result)-1+len(highlight) or later, so while `start` is in the content there are
      fewer spans left to add with each. No slice is out of range. */
  method FindHighlightIndexes(content: string, highlights: seq<string>) returns (result: seq<Span>)
    ensures result == WrittenAll(content, highlights, [])
  {
    result := [];
    for k := 0 to |highlights|
      invariant WrittenAll(content, highlights[k..], result) == WrittenAll(content, highlights, [])
    {
      var highlight := highlights[k];
      var start := 0;
      ghost var before := result;
      while start < |content|
        invariant 0 <= start
        invariant WrittenOne(content, highlight, start, result) == WrittenOne(content, highlight, 0, before)
        decreases if start >= |content| then 0 else if |result| > |content| then 1 else |content| - |result| + 2
      {
        start := Index(content[start..], highlight);
        if start == -1 { break; }
        start := start + |result|;
        var end := start + |highlight|;
        result := result + [(start, end)];
        start := end;
      }
    }
  }

  ghost predicate WidthsFrom(h: string, spans: seq<Span>, from: nat) {
    forall i :: from <= i < |spans| ==> 0 <= spans[i].0 && spans[i].1 == spans[i].0 + |h|
  }

  lemma {:induction false} WrittenOneShape(content: string, h: string, start: nat, result: seq<Span>)
    ensures var r := WrittenOne(content, h, start, result);
      && result <= r && WidthsFrom(h, r, |result|)
      && |r| <= if start >= |content| then |result|
                else if |result| + 1 > |content| then |result| + 1 else |content| + 1
    decreases if start >= |content| then 0 else if |result| > |content| then 1 else |content| - |result| + 2
  {
    hide Index, OccursAt;
    if start < |content| {
      var found := Index(content[start..], h);
      if found != -1 {
        var begin := found + |result|;
        WrittenOneShape(content, h, begin + |h|, result + [(begin, begin + |h|)]);
      }
    }
  }

  // Each span is as wide as the highlight it was found for.
  ghost predicate WidthOfSome(highlights: seq<string>, span: Span) {
    exists k :: 0 <= k < |highlights| && 0 <= span.0 && span.1 == span.0 + |highlights[k]|
  }

  /** Every reported span is as wide as one of the highlights, and there are at most
      len(content) + len(highlights) of them. */
  lemma {:induction false} WrittenShape(content: string, highlights: seq<string>, result: seq<Span>, i: nat)
    ensures var r := WrittenAll(content, highlights, result);
      && result <= r
      && (|result| <= i < |r| ==> WidthOfSome(highlights, r[i]))
      && |r| <= (if |result| > |content| then |result| else |content|) + |highlights|
  {
    if highlights != [] {
      var h := highlights[0];
      var mid := WrittenOne(content, h, 0, result);
      WrittenOneShape(content, h, 0, result);
      WrittenShape(content, highlights[1..], mid, i);
      var r := WrittenAll(content, highlights, result);
      if |result| <= i < |mid| {
        assert r[i] == mid[i];
        assert 0 <= r[i].0 && r[i].1 == r[i].0 + |highlights[0]|;
      } else if |mid| <= i < |r| {
        var k :| 0 <= k < |highlights[1..]| && 0 <= r[i].0 && r[i].1 == r[i].0 + |highlights[1..][k]|;
        assert highlights[1..][k] == highlights[k + 1];
      }
    }
  }

  // ---------- Whether the spans lie in the content ----------

  ghost predicate InsideFrom(content: string, spans: seq<Span>, from: nat) {
    forall i :: from <= i < |spans| ==> spans[i].1 <= |content|
  }

  /** For each highlight that occurs, the content goes on after its first occurrence for as many bytes
      as there were spans before. */
  predicate Fits(content: string, highlights: seq<string>, result: seq<Span>) {
    highlights == [] ||
    var h := highlights[0];
    && FirstFits(content, h, 0, result)
    && Fits(content, highlights[1..], WrittenOne(content, h, 0, result))
  }

  predicate FirstFits(content: string, h: string, start: nat, result: seq<Span>) {
    start < |content| ==> Index(content[start..], h) + |h| <= |content| - |result| || Index(content[start..], h) == -1
  }

  // After a hit that fits, the next one does.
  lemma NextFits(content: string, h: string, start: nat, result: seq<Span>)
    requires start >= |result| + |h| && start <= |content|
    ensures forall span: Span :: FirstFits(content, h, start, result + [span])
  {
    if start < |content| {
      var found := Index(content[start..], h);
      if found != -1 && h == "" {
        assert OccursAt(content[start..], h, 0);
      }
    }
  }

  lemma {:induction false} OneInsideIff(content: string, h: string, start: nat, result: seq<Span>)
    ensures InsideFrom(content, WrittenOne(content, h, start, result), |result|) <==>
            FirstFits(content, h, start, result)
    decreases if start >= |content| then 0 else if |result| > |content| then 1 else |content| - |result| + 2
  {
    hide Index, OccursAt;
    if start < |content| {
      var found := Index(content[start..], h);
      if found != -1 {
        var begin := found + |result|;
        var span := (begin, begin + |h|);
        WrittenOneShape(content, h, begin + |h|, result + [span]);
        var w := WrittenOne(content, h, start, result);
        assert w[|result|] == (result + [span])[|result|] == span;
        OneInsideIff(content, h, begin + |h|, result + [span]);
        if begin + |h| <= |content| { NextFits(content, h, begin + |h|, result); }
      }
    }
  }

  lemma {:induction false} AllInsideIff(content: string, highlights: seq<string>, result: seq<Span>)
    ensures InsideFrom(content, WrittenAll(content, highlights, result), |result|) <==>
            Fits(content, highlights, result)
  {
    if highlights != [] {
      hide FirstFits;
      var mid, w := WrittenOne(content, highlights[0], 0, result), WrittenAll(content, highlights, result);
      OneInsideIff(content, highlights[0], 0, result);
      AllInsideIff(content, highlights[1..], mid);
      WrittenOneShape(content, highlights[0], 0, result);
      WrittenShape(content, highlights[1..], mid, 0);
      assert forall i :: 0 <= i < |mid| ==> w[i] == mid[i];
    }
  }

  /** Every reported span lies in the content if and only if there is room for the first hit of each
      highlight; with a single highlight there always is. */
  lemma WrittenInsideIff(content: string, highlights: seq<string>)
    ensures InsideFrom(content, WrittenAll(content, highlights, []), 0) <==> Fits(content, highlights, [])
    ensures |highlights| <= 1 ==> InsideFrom(content, WrittenAll(content, highlights, []), 0)
  {
    AllInsideIff(content, highlights, []);
    if |highlights| == 1 { assert content[0..] == content; }
  }

  /** Two highlights of one byte: the second span lies past the end. */
  lemma Outside()
    ensures WrittenAll("ab", ["a", "b"], []) == [(0, 1), (2, 3)]
  {
    var content := "ab";
    assert OccursAt(content[0..], "a", 0);
    assert "b"[0] != "a"[0] && content[1..] == "b" && content[..1] == "a";
    assert !OccursAt(content[1..], "a", 0) && !OccursAt(content[0..], "b", 0) && OccursAt(content[0..], "b", 1);
    assert Index(content[1..], "a") == -1;
    assert WrittenOne(content, "a", 1, [(0, 1)]) == [(0, 1)];
    assert WrittenOne(content, "a", 0, []) == [(0, 1)];
    assert WrittenOne(content, "b", 3, [(0, 1), (2, 3)]) == [(0, 1), (2, 3)];
    assert WrittenOne(content, "b", 0, [(0, 1)]) == [(0, 1), (2, 3)];
    assert ["a", "b"][1..] == ["b"] && ["b"][1..] == [];
    assert WrittenAll(content, ["a", "b"], []) == WrittenAll(content, ["b"], [(0, 1)]);
  }

  // ---------- The loop as meant ----------

  // One highlight, each hit offset by the cursor at which the scan resumed.
  function Meant(content: string, h: string, cursor: nat): seq<Span>
    requires h != ""
    decreases |content| - cursor
  {
    if cursor >= |content| then []
    else
      var found := Index(content[cursor..], h);
      if found == -1 then []
      else
        var begin := found + cursor;
        [(begin, begin + |h|)] + Meant(content, h, begin + |h|)
  }

  function MeantAll(content: string, highlights: seq<string>): seq<Span>
    requires "" !in highlights
  {
    if highlights == [] then []
    else Meant(content, highlights[0], 0) + MeantAll(content, highlights[1..])
  }

  /** Greedy leftmost non-overlapping occurrences from `from` on: each span is an occurrence, no two
      overlap, and every occurrence begins inside a reported one. */
  ghost predicate Greedy(content: string, h: string, from: nat, spans: seq<Span>) {
    Sound(content, h, from, spans) && Ordered(spans) && Complete(content, h, from, spans)
  }

  ghost predicate Sound(content: string, h: string, from: nat, spans: seq<Span>) {
    forall i :: 0 <= i < |spans| ==>
      from <= spans[i].0 && OccursAt(content, h, spans[i].0) && spans[i].1 == spans[i].0 + |h|
  }

  ghost predicate Ordered(spans: seq<Span>) {
    forall i, j :: 0 <= i < j < |spans| ==> spans[i].1 <= spans[j].0
  }

  ghost predicate Complete(content: string, h: string, from: nat, spans: seq<Span>) {
    forall q :: from <= q && OccursAt(content, h, q) ==> Covered(spans, q)
  }

  ghost predicate Covered(spans: seq<Span>, q: int) {
    exists i :: 0 <= i < |spans| && spans[i].0 <= q < spans[i].1
  }

  lemma OccursInTail(s: string, h: string, cursor: nat, i: int)
    requires cursor <= |s| && 0 <= i
    ensures OccursAt(s[cursor..], h, i) <==> OccursAt(s, h, cursor + i)
  {
    if i + |h| <= |s| - cursor {
      assert s[cursor..][i..i + |h|] == s[cursor + i..cursor + i + |h|];
    }
  }

  // The first occurrence at or after the cursor, where the scan looks for one.
  lemma NextOccurrence(content: string, h: string, cursor: nat, q: int)
    requires cursor < |content|
    ensures var found := Index(content[cursor..], h);
      && (found == -1 ==> cursor <= q ==> !OccursAt(content, h, q))
      && (found != -1 ==> OccursAt(content, h, found + cursor))
      && (found != -1 ==> cursor <= q < found + cursor ==> !OccursAt(content, h, q))
  {
    var found := Index(content[cursor..], h);
    if cursor <= q { OccursInTail(content, h, cursor, q - cursor); }
    if found != -1 { OccursInTail(content, h, cursor, found); }
  }

  lemma CoveredByTail(first: Span, rest: seq<Span>, q: int)
    ensures Covered([first] + rest, q) <==> first.0 <= q < first.1 || Covered(rest, q)
  {
    var spans := [first] + rest;
    if Covered(spans, q) {
      var i :| 0 <= i < |spans| && spans[i].0 <= q < spans[i].1;
      assert i > 0 ==> spans[i] == rest[i - 1];
    }
    if Covered(rest, q) {
      var i :| 0 <= i < |rest| && rest[i].0 <= q < rest[i].1;
      assert spans[i + 1] == rest[i];
    }
    assert spans[0] == first;
  }

  lemma {:induction false} MeantIsSound(content: string, h: string, cursor: nat)
    requires h != ""
    ensures Sound(content, h, cursor, Meant(content, h, cursor)) && Ordered(Meant(content, h, cursor))
    decreases |content| - cursor
  {
    hide Index, OccursAt;
    if cursor < |content| {
      NextOccurrence(content, h, cursor, cursor);
      var found := Index(content[cursor..], h);
      if found != -1 {
        MeantIsSound(content, h, found + cursor + |h|);
      }
    }
  }

  // An occurrence from the cursor on makes the scan report the next one.
  lemma MeantStep(content: string, h: string, cursor: nat, q: int) returns (begin: nat)
    requires h != "" && cursor <= q && OccursAt(content, h, q)
    ensures cursor < |content| && cursor <= begin <= q
    ensures Meant(content, h, cursor) == [(begin, begin + |h|)] + Meant(content, h, begin + |h|)
  {
    hide Index, OccursAt, Meant;
    NextFound(content, h, cursor, q);
    begin := Index(content[cursor..], h) + cursor;
    MeantUnfolds(content, h, cursor);
  }

  lemma NextFound(content: string, h: string, cursor: nat, q: int)
    requires h != "" && cursor <= q && OccursAt(content, h, q)
    ensures cursor < |content| && 0 <= Index(content[cursor..], h) <= q - cursor
  {
    assert q + |h| <= |content|;
    hide OccursAt;
    NextOccurrence(content, h, cursor, q);
  }

  lemma MeantUnfolds(content: string, h: string, cursor: nat)
    requires h != "" && cursor < |content| && Index(content[cursor..], h) >= 0
    ensures var begin := Index(content[cursor..], h) + cursor;
      Meant(content, h, cursor) == [(begin, begin + |h|)] + Meant(content, h, begin + |h|)
  {
    hide Index, OccursAt;
  }

  lemma {:induction false} MeantIsComplete(content: string, h: string, cursor: nat, q: int)
    requires h != "" && cursor <= q && OccursAt(content, h, q)
    ensures Covered(Meant(content, h, cursor), q)
    decreases |content| - cursor
  {
    hide Index, OccursAt, Meant, Covered;
    var begin := MeantStep(content, h, cursor, q);
    CoveredByTail((begin, begin + |h|), Meant(content, h, begin + |h|), q);
    if q >= begin + |h| {
      MeantIsComplete(content, h, begin + |h|, q);
    }
  }

  lemma MeantIsGreedy(content: string, h: string, cursor: nat)
    requires h != ""
    ensures Greedy(content, h, cursor, Meant(content, h, cursor))
  {
    hide Index, OccursAt, Meant, Sound, Ordered, Covered;
    MeantIsSound(content, h, cursor);
    forall q | cursor <= q && OccursAt(content, h, q) ensures Covered(Meant(content, h, cursor), q) {
      MeantIsComplete(content, h, cursor, q);
    }
  }

  // The first greedy span is the first occurrence.
  lemma GreedyHead(content: string, h: string, from: nat, spans: seq<Span>, q: int)
    requires h != "" && Greedy(content, h, from, spans) && from <= q && OccursAt(content, h, q)
    ensures spans != [] && spans[0].0 <= q
    ensures OccursAt(content, h, spans[0].0) && from <= spans[0].0 && spans[0].1 == spans[0].0 + |h|
  {
    hide OccursAt, Complete;
    assert Covered(spans, q) by { CompleteAt(content, h, from, spans, q); }
    var i :| 0 <= i < |spans| && spans[i].0 <= q < spans[i].1;
  }

  lemma CompleteAt(content: string, h: string, from: nat, spans: seq<Span>, q: int)
    requires Complete(content, h, from, spans) && from <= q && OccursAt(content, h, q)
    ensures Covered(spans, q)
  {
  }

  lemma TailComplete(content: string, h: string, from: nat, spans: seq<Span>)
    requires spans != [] && from <= spans[0].1 && Complete(content, h, from, spans)
    ensures Complete(content, h, spans[0].1, spans[1..])
  {
    hide OccursAt, Covered;
    forall q | spans[0].1 <= q && OccursAt(content, h, q) ensures Covered(spans[1..], q) {
      assert spans == [spans[0]] + spans[1..];
      CoveredByTail(spans[0], spans[1..], q);
    }
  }

  lemma GreedyTail(content: string, h: string, from: nat, spans: seq<Span>)
    requires spans != [] && Greedy(content, h, from, spans)
    ensures Greedy(content, h, spans[0].1, spans[1..])
  {
    hide OccursAt, Complete;
    TailComplete(content, h, from, spans);
    assert forall i :: 0 <= i < |spans[1..]| ==> spans[1..][i] == spans[i + 1];
  }

  lemma {:induction false} GreedyUnique(content: string, h: string, from: nat, a: seq<Span>, b: seq<Span>)
    requires h != "" && Greedy(content, h, from, a) && Greedy(content, h, from, b)
    ensures a == b
    decreases |a|
  {
    hide OccursAt, Covered, Ordered, Complete;
    if a != [] {
      GreedyHead(content, h, from, b, a[0].0);
      GreedyHead(content, h, from, a, b[0].0);
      GreedyTail(content, h, from, a);
      GreedyTail(content, h, from, b);
      GreedyUnique(content, h, a[0].1, a[1..], b[1..]);
      assert a == [a[0]] + a[1..] && b == [b[0]] + b[1..];
    } else if b != [] {
      GreedyHead(content, h, from, a, b[0].0);
    }
  }

  /** The repaired scan reports the greedy occurrences of each highlight, and nothing else is greedy. */
  lemma MeantIffGreedy(content: string, h: string, from: nat, spans: seq<Span>)
    requires h != ""
    ensures Greedy(content, h, from, spans) <==> spans == Meant(content, h, from)
  {
    MeantIsGreedy(content, h, from);
    hide Greedy, Meant;
    if Greedy(content, h, from, spans) {
      GreedyUnique(content, h, from, spans, Meant(content, h, from));
    }
  }

  // ---------- When the code does what is meant ----------

  // The hits but the last end at bytes n+1, n+2, ...: there the code's offset, the number of
  // spans so far, is the cursor.
  predicate InStep(hits: seq<Span>, n: nat) {
    forall j :: 0 <= j < |hits| - 1 ==> hits[j].1 == n + 1 + j
  }

  // No occurrence begins after the end of the first one.
  predicate HitsOnce(content: string, h: string) {
    var first := Index(content, h);
    first != -1 && first + |h| <= |content| && Index(content[first + |h|..], h) == -1
  }

  // From `from` on, the content is a run of c, followed by c at most once.
  ghost predicate RunThenOnce(content: string, c: char, from: nat) {
    exists p :: from <= p <= |content| && IsRun(content, c, from, p) && AtMostOnce(content, c, p)
  }

  predicate IsRun(content: string, c: char, from: nat, to: int) {
    to <= |content| && forall i :: from <= i < to ==> content[i] == c
  }

  predicate AtMostOnce(content: string, c: char, from: int) {
    forall i, j :: 0 <= from <= i < j < |content| ==> !(content[i] == c && content[j] == c)
  }

  /** At most one highlight occurs in the content, and either it does not occur again after its first
      occurrence, or it is one byte and all its occurrences but the last are the start of the content. */
  ghost predicate Aligned(content: string, highlights: seq<string>) {
    forall k :: 0 <= k < |highlights| && Index(content, highlights[k]) != -1 ==>
      && (forall m :: 0 <= m < k ==> Index(content, highlights[m]) == -1)
      && OneAligned(content, highlights[k])
  }

  ghost predicate OneAligned(content: string, h: string) {
    HitsOnce(content, h) || (|h| == 1 && RunThenOnce(content, h[0], 0))
  }

  // Where a one-byte highlight is found from the cursor on.
  lemma FirstByte(content: string, c: char, cursor: nat) returns (begin: int)
    requires cursor < |content|
    ensures begin == (if Index(content[cursor..], [c]) == -1 then -1 else Index(content[cursor..], [c]) + cursor)
    ensures begin == -1 ==> forall i :: cursor <= i < |content| ==> content[i] != c
    ensures begin != -1 ==>
      cursor <= begin < |content| && content[begin] == c && forall i :: cursor <= i < begin ==> content[i] != c
  {
    var tail := content[cursor..];
    var found := Index(tail, [c]);
    begin := if found == -1 then -1 else found + cursor;
    forall i | 0 <= i < |tail| ensures OccursAt(tail, [c], i) <==> content[cursor + i] == c {
      assert tail[i..i + 1] == [tail[i]];
    }
    forall i | cursor <= i < |content| && (begin == -1 || i < begin) ensures content[i] != c {
      assert !OccursAt(tail, [c], i - cursor);
    }
  }

  lemma RunExtends(content: string, c: char, from: nat)
    requires from < |content| && content[from] == c
    ensures RunThenOnce(content, c, from) <==> RunThenOnce(content, c, from + 1)
  {
    if p :| from <= p <= |content| && IsRun(content, c, from, p) && AtMostOnce(content, c, p) {
      var p' := if p == from then from + 1 else p;
      assert IsRun(content, c, from + 1, p') && AtMostOnce(content, c, p');
    }
    if p :| from + 1 <= p <= |content| && IsRun(content, c, from + 1, p) && AtMostOnce(content, c, p) {
      assert IsRun(content, c, from, p);
    }
  }

  lemma NoRun(content: string, c: char, from: nat)
    requires from <= |content| && (from < |content| ==> content[from] != c)
    ensures RunThenOnce(content, c, from) <==> AtMostOnce(content, c, from)
  {
    assert IsRun(content, c, from, from);
  }

  lemma {:induction false} BytesInStep(content: string, c: char, cursor: nat)
    requires cursor <= |content|
    ensures InStep(Meant(content, [c], cursor), cursor) <==> RunThenOnce(content, c, cursor)
    decreases |content| - cursor
  {
    hide Index, InStep, RunThenOnce;
    if cursor == |content| {
      NoRun(content, c, cursor);
      EmptyInStep(cursor);
    } else {
      var begin := FirstByte(content, c, cursor);
      if begin == -1 {
        NoRun(content, c, cursor);
        EmptyInStep(cursor);
      } else {
        InStepCons((begin, begin + 1), Meant(content, [c], begin + 1), cursor);
        if begin == cursor {
          RunExtends(content, c, cursor);
          BytesInStep(content, c, cursor + 1);
          EmptyInStep(cursor + 1);
        } else {
          NoRun(content, c, cursor);
          MeantEmptyFrom(content, [c], begin + 1);
          if begin + 1 < |content| { var next := FirstByte(content, c, begin + 1); }
        }
      }
    }
  }

  lemma EmptyInStep(n: nat)
    ensures InStep([], n)
  {
  }

  lemma MeantEmptyFrom(content: string, h: string, cursor: nat)
    requires h != "" && cursor <= |content|
    ensures Meant(content, h, cursor) == [] <==> Index(content[cursor..], h) == -1
  {
    if cursor == |content| {
      assert content[cursor..] == "";
      assert !OccursAt("", h, 0);
    }
  }

  lemma FirstEnds(content: string, h: string)
    requires Index(content, h) != -1
    ensures 0 <= Index(content, h) && Index(content, h) + |h| <= |content|
  {
    assert OccursAt(content, h, Index(content, h));
    hide Index;
  }

  lemma MeantUnfoldsAtStart(content: string, h: string)
    requires h != "" && content != "" && Index(content, h) >= 0
    ensures var begin := Index(content, h);
      Meant(content, h, 0) == [(begin, begin + |h|)] + Meant(content, h, begin + |h|)
  {
    hide *;
    assert content[0..] == content;
    MeantUnfolds(content, h, 0);
  }

  lemma HitsOnceIff(content: string, h: string, end: nat)
    requires h != "" && Index(content, h) != -1 && end == Index(content, h) + |h| && end <= |content|
    ensures Meant(content, h, end) == [] <==> HitsOnce(content, h)
  {
    hide *;
    MeantEmptyFrom(content, h, end);
    HitsOnceAt(content, h, end);
  }

  lemma HitsOnceAt(content: string, h: string, end: nat)
    requires Index(content, h) != -1 && end == Index(content, h) + |h| && end <= |content|
    ensures HitsOnce(content, h) <==> Index(content[end..], h) == -1
  {
    hide Index, OccursAt;
  }

  // The scan as meant starts with the first occurrence and stops there if it is the only hit.
  lemma MeantAtStart(content: string, h: string)
    requires h != "" && Index(content, h) != -1
    ensures var end := Index(content, h) + |h|;
      && end <= |content|
      && Meant(content, h, 0) == [(end - |h|, end)] + Meant(content, h, end)
      && (Meant(content, h, end) == [] <==> HitsOnce(content, h))
  {
    hide *;
    FirstEnds(content, h);
    MeantUnfoldsAtStart(content, h);
    HitsOnceIff(content, h, Index(content, h) + |h|);
  }

  lemma InStepIff(content: string, h: string)
    requires h != "" && Index(content, h) != -1
    ensures InStep(Meant(content, h, 0), 0) <==> OneAligned(content, h)
  {
    hide Index, InStep, RunThenOnce, HitsOnce, Meant;
    MeantAtStart(content, h);
    var end := Index(content, h) + |h|;
    InStepCons((end - |h|, end), Meant(content, h, end), 0);
    if |h| == 1 {
      assert h == [h[0]];
      BytesInStep(content, h[0], 0);
    }
  }

  lemma InStepCons(first: Span, rest: seq<Span>, n: nat)
    ensures InStep([first] + rest, n) <==> rest == [] || (first.1 == n + 1 && InStep(rest, n + 1))
  {
    var hits := [first] + rest;
    if InStep(hits, n) && rest != [] {
      assert hits[0].1 == n + 1;
      forall j | 0 <= j < |rest| - 1 ensures rest[j].1 == n + 2 + j {
        assert hits[j + 1].1 == n + 2 + j;
      }
    }
  }

  // Where the two loops part, they report different spans.
  lemma {:induction false} OneIffInStep(content: string, h: string, cursor: nat, r: seq<Span>)
    requires h != ""
    ensures var hits, w := Meant(content, h, cursor), WrittenOne(content, h, cursor, r);
      && r <= w
      && if hits == [] || (cursor == |r| && InStep(hits, |r|)) then w == r + hits
         else exists i :: |r| <= i < |w| && i < |r + hits| && w[i] != (r + hits)[i]
    decreases |content| - cursor
  {
    hide Index, OccursAt, InStep, WidthsFrom;
    var hits, w := Meant(content, h, cursor), WrittenOne(content, h, cursor, r);
    WrittenOneShape(content, h, cursor, r);
    if hits != [] {
      var begin := Index(content[cursor..], h) + |r|;
      var r' := r + [(begin, begin + |h|)];
      WrittenOneShape(content, h, begin + |h|, r');
      assert w == WrittenOne(content, h, begin + |h|, r');
      assert w[|r|] == r'[|r|] && (r + hits)[|r|] == hits[0];
      if cursor == |r| {
        OneIffInStep(content, h, begin + |h|, r');
        var rest := Meant(content, h, begin + |h|);
        assert hits == [hits[0]] + rest && r + hits == r' + rest;
        InStepCons(hits[0], rest, |r|);
      }
    }
  }

  // As Aligned, for the remaining highlights after n spans.
  predicate AlignedFrom(content: string, highlights: seq<string>, n: nat)
    requires "" !in highlights
  {
    highlights == [] ||
    var hits := Meant(content, highlights[0], 0);
    && (hits == [] || (n == 0 && InStep(hits, 0)))
    && AlignedFrom(content, highlights[1..], n + |hits|)
  }

  lemma {:induction false} AllIffAligned(content: string, highlights: seq<string>, r: seq<Span>)
    requires "" !in highlights
    ensures r <= WrittenAll(content, highlights, r)
    ensures WrittenAll(content, highlights, r) == r + MeantAll(content, highlights) <==>
            AlignedFrom(content, highlights, |r|)
  {
    hide Index, OccursAt, InStep, Meant, WrittenOne;
    if highlights != [] {
      var h, rest := highlights[0], highlights[1..];
      var hits, mid := Meant(content, h, 0), WrittenOne(content, h, 0, r);
      OneIffInStep(content, h, 0, r);
      AllIffAligned(content, rest, mid);
      var written, meant := WrittenAll(content, highlights, r), MeantAll(content, highlights);
      assert written == WrittenAll(content, rest, mid) && meant == hits + MeantAll(content, rest);
      assert AlignedFrom(content, highlights, |r|) <==>
        (hits == [] || (|r| == 0 && InStep(hits, 0))) && AlignedFrom(content, rest, |r| + |hits|);
      hide WrittenAll, MeantAll, AlignedFrom;
      Regroup(r, hits, MeantAll(content, rest));
      if mid != r + hits {
        var i :| |r| <= i < |mid| && i < |r + hits| && mid[i] != (r + hits)[i];
        Differ(written, mid, r + meant, r + hits, i);
      }
    }
  }

  lemma Regroup<T>(a: seq<T>, b: seq<T>, c: seq<T>)
    ensures a + (b + c) == (a + b) + c
  {
  }

  lemma Differ<T>(x: seq<T>, x0: seq<T>, y: seq<T>, y0: seq<T>, i: nat)
    requires x0 <= x && y0 <= y && i < |x0| && i < |y0| && x0[i] != y0[i]
    ensures x != y
  {
    assert x[i] == x0[i] && y[i] == y0[i];
  }

  lemma {:induction false} AlignedFromZero(content: string, highlights: seq<string>, n: nat)
    requires "" !in highlights
    ensures AlignedFrom(content, highlights, n) <==>
      if n == 0 then Aligned(content, highlights)
      else forall k :: 0 <= k < |highlights| ==> Index(content, highlights[k]) == -1
  {
    hide Index, OccursAt, InStep, OneAligned;
    if highlights != [] {
      var h, rest := highlights[0], highlights[1..];
      var hits := Meant(content, h, 0);
      MeantEmpty(content, h);
      if Index(content, h) != -1 { InStepIff(content, h); }
      AlignedFromZero(content, rest, n + |hits|);
      assert forall k :: 0 <= k < |rest| ==> rest[k] == highlights[k + 1];
      assert forall k :: 1 <= k < |highlights| ==> highlights[k] == rest[k - 1];
    }
  }

  lemma MeantEmpty(content: string, h: string)
    requires h != ""
    ensures Meant(content, h, 0) == [] <==> Index(content, h) == -1
  {
    assert content[0..] == content;
    MeantEmptyFrom(content, h, 0);
  }

  /** For every content and all non-empty highlights, the code reports what is meant if and only if
      Aligned holds. */
  lemma WrittenIsMeantIff(content: string, highlights: seq<string>)
    requires "" !in highlights
    ensures WrittenAll(content, highlights, []) == MeantAll(content, highlights) <==> Aligned(content, highlights)
  {
    AllIffAligned(content, highlights, []);
    AlignedFromZero(content, highlights, 0);
    assert [] + MeantAll(content, highlights) == MeantAll(content, highlights);
  }

  /** The smallest kind of divergence: the second "abc" is reported at 1 instead of 3. */
  lemma Divergence()
    ensures WrittenAll("abcabc", ["abc"], []) == [(0, 3), (1, 4)]
    ensures MeantAll("abcabc", ["abc"]) == [(0, 3), (3, 6)]
  {
    var content := "abcabc";
    assert OccursAt(content[0..], "abc", 0) && OccursAt(content[3..], "abc", 0);
    assert !OccursAt(content[4..], "abc", 0);
    assert Index(content[4..], "abc") == -1;
    assert WrittenOne(content, "abc", 4, [(0, 3), (1, 4)]) == [(0, 3), (1, 4)];
    assert WrittenOne(content, "abc", 3, [(0, 3)]) == [(0, 3), (1, 4)];
    assert WrittenAll(content, ["abc"], []) == WrittenAll(content, [], WrittenOne(content, "abc", 0, []));
    assert Meant(content, "abc", 6) == [];
    assert Meant(content, "abc", 3) == [(3, 6)];
  }
}
