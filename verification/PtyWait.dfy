/**
 `pty-wait` (integration/net/client.py): watches a command's terminal for a
 marker while answering the queries a program sends its terminal at start.
 The terminal's output arrives in chunks of any size and only two bounded
 windows of it are kept: the last 65536 bytes for the marker and the last 8
 bytes for queries.

 The specification sees the whole stream at once: `Answers` lists one answer
 for every index at which a query stands, and the marker is looked for in
 everything shown so far.
 */
module PtyWait {
  import opened Bytes

  /** How much of the terminal's output is kept for the marker. */
  const WINDOW: nat := 65536

  /** How much of it is kept for a query that is not complete yet. */
  const CARRY: nat := 8

  const ESC: byte := 27

  /** The queries a terminal answers, each with its reply. */
  datatype Table = Table(queries: seq<bytes>, replies: seq<bytes>)

  /**
   What makes the scan exact: ESC opens every query and occurs nowhere else in
   one, no query begins another, and none outgrows the carry.
   */
  ghost predicate WellShaped(t: Table) {
    && |t.queries| == |t.replies|
    && (forall k :: 0 <= k < |t.queries| ==> 0 < |t.queries[k]| <= CARRY && t.queries[k][0] == ESC)
    && (forall k, j :: 0 <= k < |t.queries| && 0 < j < |t.queries[k]| ==> t.queries[k][j] != ESC)
    && (forall k, l :: 0 <= k < |t.queries| && 0 <= l < |t.queries| && t.queries[k] <= t.queries[l] ==> k == l)
  }

  // ---- The specification: one answer per occurrence in the whole stream ----

  /** Some query stands at index i of s. */
  ghost predicate QueryAt(t: Table, s: bytes, i: int) {
    exists k :: 0 <= k < |t.queries| && OccursAt(s, i, t.queries[k])
  }

  /** The query that stands at index i of s. */
  ghost function TheQueryAt(t: Table, s: bytes, i: int): (k: nat)
    requires QueryAt(t, s, i)
    ensures k < |t.queries| && OccursAt(s, i, t.queries[k])
  {
    var k :| 0 <= k < |t.queries| && OccursAt(s, i, t.queries[k]);
    k
  }

  /** The queries that start at an index below n of s, in order. */
  ghost function AnswersBelow(t: Table, s: bytes, n: nat): (ks: seq<nat>)
    ensures forall k :: k in ks ==> k < |t.queries|
  {
    if n == 0 then []
    else AnswersBelow(t, s, n - 1) + if QueryAt(t, s, n - 1) then [TheQueryAt(t, s, n - 1)] else []
  }

  /** The queries a terminal owes a reply for the stream s: every one in it, in order. */
  ghost function Answers(t: Table, s: bytes): (ks: seq<nat>)
    ensures forall k :: k in ks ==> k < |t.queries|
  {
    AnswersBelow(t, s, |s|)
  }

  /** What is written for those queries. */
  ghost function Sent(t: Table, ks: seq<nat>): seq<bytes>
    requires WellShaped(t) && forall k :: k in ks ==> k < |t.queries|
  {
    seq(|ks|, i requires 0 <= i < |ks| => assert ks[i] in ks; t.replies[ks[i]])
  }

  // ---- Why occurrences cannot overlap ----

  /** No two queries stand at one index. */
  lemma OneQueryAt(t: Table, s: bytes, i: int, k: nat)
    requires WellShaped(t) && k < |t.queries| && OccursAt(s, i, t.queries[k])
    ensures QueryAt(t, s, i) && TheQueryAt(t, s, i) == k
  {
    var a, b := t.queries[TheQueryAt(t, s, i)], t.queries[k];
    var n := if |a| <= |b| then |a| else |b|;
    assert a[..n] == s[i..i + |a|][..n] == s[i..i + n] == s[i..i + |b|][..n] == b[..n];
    assert a <= b || b <= a;
  }

  lemma OccursByte(s: bytes, at: int, q: bytes, i: int)
    ensures OccursAt(s, at, q) && at <= i < at + |q| ==> s[i] == q[i - at]
  {
    if OccursAt(s, at, q) && at <= i < at + |q| {
      assert s[at..at + |q|][i - at] == s[i];
    }
  }

  /** s ends in a part of q that starts at i: more of the stream may complete it. */
  ghost predicate Unfinished(s: bytes, i: int, q: bytes) {
    0 <= i < |s| < i + |q| && s[i..] == q[..|s| - i]
  }

  lemma UnfinishedByte(s: bytes, i: int, q: bytes, j: int)
    ensures Unfinished(s, i, q) && i <= j < |s| ==> s[j] == q[j - i]
  {
    if Unfinished(s, i, q) && i <= j < |s| {
      assert s[i..][j - i] == s[j];
    }
  }

  /** What follows s can no longer put a query at index i that is not there already. */
  ghost predicate Settled(t: Table, s: bytes, i: int) {
    forall k :: 0 <= k < |t.queries| ==> !Unfinished(s, i, t.queries[k])
  }

  lemma StaysUnfinished(s: bytes, more: bytes, i: nat, q: bytes)
    requires i < |s|
    ensures Unfinished(s + more, i, q) ==> Unfinished(s, i, q)
    ensures OccursAt(s + more, i, q) ==> OccursAt(s, i, q) || Unfinished(s, i, q)
    ensures OccursAt(s, i, q) ==> OccursAt(s + more, i, q)
  {
    var u := s + more;
    if i + |q| <= |s| {
      OccursInPrefix(s, more, i, q);
    } else {
      if Unfinished(u, i, q) {
        assert u[i..][..|s| - i] == s[i..];
      }
      if OccursAt(u, i, q) {
        assert u[i..i + |q|][..|s| - i] == s[i..];
      }
    }
  }

  lemma SettledStays(t: Table, s: bytes, more: bytes, i: nat)
    requires WellShaped(t) && i < |s| && Settled(t, s, i)
    ensures Settled(t, s + more, i)
    ensures QueryAt(t, s + more, i) <==> QueryAt(t, s, i)
    ensures QueryAt(t, s, i) ==> TheQueryAt(t, s + more, i) == TheQueryAt(t, s, i)
  {
    forall k | 0 <= k < |t.queries|
      ensures !Unfinished(s + more, i, t.queries[k])
      ensures OccursAt(s + more, i, t.queries[k]) <==> OccursAt(s, i, t.queries[k])
    {
      StaysUnfinished(s, more, i, t.queries[k]);
    }
    if QueryAt(t, s, i) {
      OneQueryAt(t, s + more, i, TheQueryAt(t, s, i));
    }
  }

  lemma {:induction false} AnswersStay(t: Table, s: bytes, more: bytes, n: nat)
    requires WellShaped(t) && n <= |s| && forall i :: 0 <= i < n ==> Settled(t, s, i)
    ensures AnswersBelow(t, s + more, n) == AnswersBelow(t, s, n)
  {
    if n > 0 {
      AnswersStay(t, s, more, n - 1);
      SettledStays(t, s, more, n - 1);
    }
  }

  /** No query starts at an index from `from` on and below n. */
  ghost predicate NoQuery(t: Table, s: bytes, from: int, n: int) {
    forall i :: from <= i < n ==> !QueryAt(t, s, i)
  }

  lemma {:induction false} NoAnswersBetween(t: Table, s: bytes, from: nat, n: nat)
    requires from <= n && NoQuery(t, s, from, n)
    ensures AnswersBelow(t, s, n) == AnswersBelow(t, s, from)
  {
    if from < n {
      NoAnswersBetween(t, s, from, n - 1);
    }
  }

  /** Up to the end of an occurrence nothing is left unfinished: its ESC rules out what began before it. */
  lemma HitSettles(t: Table, s: bytes, at: nat, k: nat, i: nat)
    requires WellShaped(t) && k < |t.queries| && OccursAt(s, at, t.queries[k])
    requires i < at + |t.queries[k]|
    ensures Settled(t, s, i)
  {
    var q := t.queries[k];
    OccursByte(s, at, q, at);
    OccursByte(s, at, q, i);
    forall l | 0 <= l < |t.queries| ensures !Unfinished(s, i, t.queries[l]) {
      var r := t.queries[l];
      UnfinishedByte(s, i, r, if i < at then at else i);
      if i == at {
        PrefixOfUnfinished(s, i, q, r);
      }
    }
  }

  lemma PrefixOfUnfinished(s: bytes, i: nat, q: bytes, r: bytes)
    requires OccursAt(s, i, q)
    ensures Unfinished(s, i, r) ==> q <= r && |q| < |r|
  {
    if Unfinished(s, i, r) {
      assert r[..|q|] == r[..|s| - i][..|q|] == s[i..][..|q|] == s[i..i + |q|];
    }
  }

  lemma NoQueryInside(t: Table, s: bytes, at: nat, k: nat)
    requires WellShaped(t) && k < |t.queries| && OccursAt(s, at, t.queries[k])
    ensures NoQuery(t, s, at + 1, at + |t.queries[k]|)
  {
    forall i, l | at + 1 <= i < at + |t.queries[k]| && 0 <= l < |t.queries|
      ensures !OccursAt(s, i, t.queries[l])
    {
      OccursByte(s, at, t.queries[k], i);
      OccursByte(s, i, t.queries[l], i);
    }
  }

  /** The first query from `from` on adds exactly its own answer. */
  lemma HitAnswers(t: Table, s: bytes, from: nat, at: nat, k: nat)
    requires WellShaped(t) && from <= at && k < |t.queries| && OccursAt(s, at, t.queries[k])
    requires NoQuery(t, s, from, at)
    ensures AnswersBelow(t, s, at + |t.queries[k]|) == AnswersBelow(t, s, from) + [k]
  {
    NoAnswersBetween(t, s, from, at);
    OneQueryAt(t, s, at, k);
    NoQueryInside(t, s, at, k);
    NoAnswersBetween(t, s, at + 1, at + |t.queries[k]|);
  }

  // ---- The bounded windows ----

  /** min(hits): the first query in pending, whichever it is. */
  method FirstHit(t: Table, pending: bytes) returns (hit: Option<(nat, nat)>)
    ensures hit.Some? ==> hit.value.1 < |t.queries| && OccursAt(pending, hit.value.0, t.queries[hit.value.1])
    ensures hit.Some? ==> NoQuery(t, pending, 0, hit.value.0)
    ensures hit.None? ==> forall i :: !QueryAt(t, pending, i)
  {
    hit := None;
    for k := 0 to |t.queries|
      invariant hit.Some? ==> hit.value.1 < |t.queries| && OccursAt(pending, hit.value.0, t.queries[hit.value.1])
      invariant forall j, i :: 0 <= j < k && (hit.Some? ==> i < hit.value.0) ==> !OccursAt(pending, i, t.queries[j])
    {
      var at := Find(pending, t.queries[k]);
      if at.Some? && (hit.None? || at.value < hit.value.0) {
        hit := Some((at.value, k));
      }
    }
  }

  lemma QuerySeenInSuffix(t: Table, s: bytes, from: nat, i: int)
    requires from <= i && from <= |s|
    ensures QueryAt(t, s, i) <==> QueryAt(t, s[from..], i - from)
  {
    forall k | 0 <= k < |t.queries|
      ensures OccursAt(s, i, t.queries[k]) <==> OccursAt(s[from..], i - from, t.queries[k])
    {
      OccursInSuffix(s, from, i, t.queries[k]);
    }
  }

  /** shown is everything read so far; pending is its end from base on, the rest is settled and answered. */
  ghost predicate AnsweredUpTo(t: Table, shown: bytes, base: nat, pending: bytes, written: seq<bytes>)
    requires WellShaped(t)
  {
    && base <= |shown| && pending == shown[base..]
    && written == Sent(t, AnswersBelow(t, shown, base))
    && forall i :: 0 <= i < base ==> Settled(t, shown, i)
  }

  /** What the loop knows between two reads: nothing in pending is a query. */
  ghost predicate CarriesOver(t: Table, shown: bytes, pending: bytes, written: seq<bytes>)
    requires WellShaped(t)
  {
    && |pending| <= |shown|
    && AnsweredUpTo(t, shown, |shown| - |pending|, pending, written)
    && NoQuery(t, shown, |shown| - |pending|, |shown|)
  }

  lemma CarriedAnswers(t: Table, shown: bytes, pending: bytes, written: seq<bytes>)
    requires WellShaped(t) && CarriesOver(t, shown, pending, written)
    ensures written == Sent(t, Answers(t, shown))
  {
    NoAnswersBetween(t, shown, |shown| - |pending|, |shown|);
  }

  lemma ReadMore(t: Table, shown: bytes, data: bytes, held: bytes, written: seq<bytes>)
    requires WellShaped(t) && CarriesOver(t, shown, held, written)
    ensures AnsweredUpTo(t, shown + data, |shown| - |held|, held + data, written)
  {
    var base := |shown| - |held|;
    assert (shown + data)[base..] == held + data;
    AnswersStay(t, shown, data, base);
    forall i | 0 <= i < base ensures Settled(t, shown + data, i) {
      SettledStays(t, shown, data, i);
    }
  }

  lemma TakeHit(t: Table, s: bytes, base: nat, pending: bytes, written: seq<bytes>, at: nat, k: nat)
    requires WellShaped(t) && AnsweredUpTo(t, s, base, pending, written)
    requires k < |t.queries| && OccursAt(pending, at, t.queries[k]) && NoQuery(t, pending, 0, at)
    ensures AnsweredUpTo(t, s, base + at + |t.queries[k]|, pending[at + |t.queries[k]|..], written + [t.replies[k]])
  {
    OccursInSuffix(s, base, base + at, t.queries[k]);
    forall i | base <= i < base + at ensures !QueryAt(t, s, i) {
      QuerySeenInSuffix(t, s, base, i);
    }
    HitAnswers(t, s, base, base + at, k);
    forall i: nat | i < base + at + |t.queries[k]| ensures Settled(t, s, i) {
      HitSettles(t, s, base + at, k, i);
    }
  }

  /** CARRY bytes before the end nothing is unfinished, so the rest of pending can go. */
  lemma CutBack(t: Table, s: bytes, base: nat, pending: bytes, written: seq<bytes>)
    requires WellShaped(t) && AnsweredUpTo(t, s, base, pending, written)
    requires forall i :: !QueryAt(t, pending, i)
    ensures CarriesOver(t, s, Last(pending, CARRY), written)
  {
    forall i | base <= i ensures !QueryAt(t, s, i) {
      QuerySeenInSuffix(t, s, base, i);
    }
    var cut: nat := |s| - |Last(pending, CARRY)|;
    NoAnswersBetween(t, s, base, cut);
  }

  /** The inner loop: answers the queries data completes and cuts pending back to the carry. */
  method AnswerQueries(t: Table, ghost shown: bytes, data: bytes, held: bytes, before: seq<bytes>)
    returns (pending: bytes, written: seq<bytes>)
    requires WellShaped(t) && CarriesOver(t, shown, held, before)
    ensures CarriesOver(t, shown + data, pending, written)
    ensures |pending| <= CARRY
  {
    ghost var s := shown + data;
    ghost var base: nat := |shown| - |held|;
    pending, written := held + data, before;
    ReadMore(t, shown, data, held, before);
    while true
      invariant AnsweredUpTo(t, s, base, pending, written)
      decreases |pending|
    {
      var hit := FirstHit(t, pending);
      if hit.None? {
        CutBack(t, s, base, pending, written);
        pending := Last(pending, CARRY);
        break;
      }
      var (at, k) := hit.value;
      TakeHit(t, s, base, pending, written, at, k);
      written := written + [t.replies[k]];
      pending := pending[at + |t.queries[k]|..];
      base := base + at + |t.queries[k]|;
    }
  }

  // ---- The whole command ----

  /** How the wait ended; Waiting when the reads given ran out first. */
  datatype Outcome = Shown | Ended | TimedOut | Waiting

  /** A read of the terminal: None when nothing came in time, [] at its end. */
  type Read = Option<bytes>

  /** The first n reads each brought something. */
  ghost predicate AllData(input: seq<Read>, n: nat) {
    n <= |input| && forall i :: 0 <= i < n ==> input[i].Some? && input[i].value != []
  }

  /** What the first n reads showed. */
  ghost function ShownBy(input: seq<Read>, n: nat): bytes
    requires AllData(input, n)
  {
    if n == 0 then [] else ShownBy(input, n - 1) + input[n - 1].value
  }

  /** The marker stands in the window kept after n reads. */
  ghost predicate InWindow(input: seq<Read>, n: nat, marker: bytes)
    requires AllData(input, n)
  {
    Contains(Last(ShownBy(input, n), WINDOW), marker)
  }

  method Wait(t: Table, marker: bytes, input: seq<Read>) returns (outcome: Outcome, taken: nat, written: seq<bytes>)
    requires WellShaped(t)
    ensures AllData(input, taken)
    // Exactly the replies the whole stream calls for, however it was cut.
    ensures written == Sent(t, Answers(t, ShownBy(input, taken)))
    // It stops at the first window that holds the marker, and only there.
    ensures outcome.Shown? <==> InWindow(input, taken, marker)
    ensures forall n :: 0 <= n < taken ==> !InWindow(input, n, marker)
    // Otherwise it stops at the first read that brings nothing, with its cause.
    ensures outcome.TimedOut? ==> taken < |input| && input[taken] == None
    ensures outcome.Ended? ==> taken < |input| && input[taken] == Some([])
    ensures outcome.Waiting? ==> taken == |input|
  {
    var seen: bytes := [];
    var pending: bytes := [];
    taken, written := 0, [];
    outcome := Waiting;
    WatchStart(t, marker, input);
    while taken < |input|
      invariant Watching(t, marker, input, taken, seen, pending, written)
      invariant outcome.Waiting?
      decreases |input| - taken, outcome.Waiting?
    {
      var at := Find(seen, marker);
      if at.Some? {
        return Shown, taken, written;
      }
      if input[taken].None? {
        return TimedOut, taken, written;
      }
      var data := input[taken].value;
      if data == [] {
        return Ended, taken, written;
      }
      seen, pending, written := TakeData(t, marker, input, taken, data, seen, pending, written);
      taken := taken + 1;
    }
    var at := Find(seen, marker);
    outcome := if at.Some? then Shown else Waiting;
  }

  /** One turn of the outer loop: both windows moved on, and the queries answered. */
  method TakeData(t: Table, ghost marker: bytes, ghost input: seq<Read>, ghost n: nat,
                  data: bytes, held: bytes, carried: bytes, before: seq<bytes>)
    returns (seen: bytes, pending: bytes, written: seq<bytes>)
    requires WellShaped(t) && Watching(t, marker, input, n, held, carried, before)
    requires n < |input| && input[n] == Some(data) && data != [] && !Contains(held, marker)
    ensures Watching(t, marker, input, n + 1, seen, pending, written)
  {
    seen := Last(held + data, WINDOW);
    pending, written := AnswerQueries(t, ShownBy(input, n), data, carried, before);
    WatchOn(t, marker, input, n, held, pending, written);
  }

  /** The outer loop's invariant after n reads. */
  ghost predicate Watching(t: Table, marker: bytes, input: seq<Read>, n: nat, seen: bytes, pending: bytes,
      written: seq<bytes>)
    requires WellShaped(t)
  {
    && AllData(input, n)
    && seen == Last(ShownBy(input, n), WINDOW)
    && CarriesOver(t, ShownBy(input, n), pending, written)
    && written == Sent(t, Answers(t, ShownBy(input, n)))
    && forall j :: 0 <= j < n ==> !InWindow(input, j, marker)
  }

  lemma WatchStart(t: Table, marker: bytes, input: seq<Read>)
    requires WellShaped(t)
    ensures Watching(t, marker, input, 0, [], [], [])
  {
    var shown := ShownBy(input, 0);
    assert Last(shown, WINDOW) == [];
    assert Answers(t, shown) == [];
    assert CarriesOver(t, shown, [], []);
  }

  lemma WatchOn(t: Table, marker: bytes, input: seq<Read>, n: nat, seen: bytes, pending: bytes, written: seq<bytes>)
    requires WellShaped(t) && AllData(input, n) && AllData(input, n + 1)
    requires seen == Last(ShownBy(input, n), WINDOW) && !Contains(seen, marker)
    requires forall j :: 0 <= j < n ==> !InWindow(input, j, marker)
    requires CarriesOver(t, ShownBy(input, n + 1), pending, written)
    ensures Watching(t, marker, input, n + 1, Last(seen + input[n].value, WINDOW), pending, written)
  {
    WindowSlides(ShownBy(input, n), input[n].value, WINDOW);
    CarriedAnswers(t, ShownBy(input, n + 1), pending, written);
  }

  /** Cutting to the window before or after adding data keeps the same bytes. */
  lemma WindowSlides(s: bytes, data: bytes, n: nat)
    ensures Last(Last(s, n) + data, n) == Last(s + data, n)
  {
    if |s| > n {
      var kept := s[|s| - n..];
      assert kept + data == (s + data)[|s| - n..];
      assert (kept + data)[|data|..] == (s + data)[|s| - n + |data|..];
    }
  }

  // ---- Each query is answered exactly once ----

  /** How many indices below n of s have query k at them. */
  ghost function Occurrences(t: Table, s: bytes, k: nat, n: nat): nat
    requires k < |t.queries|
  {
    if n == 0 then 0 else Occurrences(t, s, k, n - 1) + if OccursAt(s, n - 1, t.queries[k]) then 1 else 0
  }

  /** The answers are one per occurrence of each query: none missed, none repeated. */
  lemma {:induction false} AnsweredOnce(t: Table, s: bytes, k: nat, n: nat)
    requires WellShaped(t) && k < |t.queries|
    ensures multiset(AnswersBelow(t, s, n))[k] == Occurrences(t, s, k, n)
  {
    if n > 0 {
      AnsweredOnce(t, s, k, n - 1);
      if OccursAt(s, n - 1, t.queries[k]) {
        OneQueryAt(t, s, n - 1, k);
      }
    }
  }

  // ---- When the marker window sees every marker ----

  /** Every read is at most that long. */
  ghost predicate ReadsAtMost(input: seq<Read>, n: nat, bound: int)
    requires AllData(input, n)
  {
    forall i :: 0 <= i < n ==> |input[i].value| <= bound
  }

  /** A marker in the window is a marker on the terminal, whatever the reads. */
  lemma WindowSound(input: seq<Read>, n: nat, marker: bytes)
    requires AllData(input, n) && InWindow(input, n, marker)
    ensures Contains(ShownBy(input, n), marker)
  {
    var s := ShownBy(input, n);
    var w := Last(s, WINDOW);
    var i :| OccursAt(w, i, marker);
    OccursInSuffix(s, |s| - |w|, |s| - |w| + i, marker);
  }

  /** With short enough reads the loop has stopped by read n exactly when the marker has been shown by then. */
  lemma {:induction false} WindowExact(input: seq<Read>, n: nat, marker: bytes)
    requires AllData(input, n) && ReadsAtMost(input, n, WINDOW + 1 - |marker|)
    ensures Contains(ShownBy(input, n), marker) <==> exists j :: 0 <= j <= n && InWindow(input, j, marker)
  {
    if marker == [] {
      assert OccursAt(ShownBy(input, n), 0, marker);
      assert OccursAt(Last(ShownBy(input, 0), WINDOW), 0, marker) && InWindow(input, 0, marker);
    } else if n > 0 {
      WindowExact(input, n - 1, marker);
      ContainsGrows(ShownBy(input, n - 1), input[n - 1].value, marker);
      if Contains(ShownBy(input, n), marker) {
        NewIsInWindow(input, n, marker);
      }
      if InWindow(input, n, marker) {
        WindowSound(input, n, marker);
      }
    } else {
      var s := ShownBy(input, 0);
      assert Last(s, WINDOW) == s;
      assert InWindow(input, 0, marker) <==> Contains(s, marker);
    }
  }

  lemma ContainsGrows(s: bytes, more: bytes, x: bytes)
    ensures Contains(s, x) ==> Contains(s + more, x)
  {
    if i :| OccursAt(s, i, x) {
      OccursInPrefix(s, more, i, x);
    }
  }

  /** A marker the last read completed is in the window, if that read was short enough. */
  lemma NewIsInWindow(input: seq<Read>, n: nat, marker: bytes)
    requires marker != [] && n > 0 && AllData(input, n) && ReadsAtMost(input, n, WINDOW + 1 - |marker|)
    requires Contains(ShownBy(input, n), marker)
    ensures Contains(ShownBy(input, n - 1), marker) || InWindow(input, n, marker)
  {
    var s, earlier := ShownBy(input, n), ShownBy(input, n - 1);
    var i :| OccursAt(s, i, marker);
    if i + |marker| <= |earlier| {
      OccursInPrefix(earlier, input[n - 1].value, i, marker);
    } else {
      var w := Last(s, WINDOW);
      OccursInSuffix(s, |s| - |w|, i, marker);
    }
  }

  function Fill(x: byte, n: nat): (f: bytes)
    ensures |f| == n && forall i :: 0 <= i < n ==> f[i] == x
  {
    seq(n, _ => x)
  }

  // ---- When it does not ----

  /** s in reads of at most size bytes. */
  function Pieces(s: bytes, size: nat): seq<Read>
    requires size > 0
    decreases |s|
  {
    if s == [] then []
    else if |s| <= size then [Some(s)]
    else Pieces(s[..|s| - size], size) + [Some(s[|s| - size..])]
  }

  /** Later reads change nothing of what the first n showed. */
  lemma {:induction false} ShownFirst(input: seq<Read>, more: seq<Read>, n: nat)
    requires n <= |input| && AllData(input, n)
    ensures AllData(input + more, n) && ShownBy(input + more, n) == ShownBy(input, n)
  {
    if n > 0 {
      ShownFirst(input, more, n - 1);
    }
  }

  lemma ShownNext(input: seq<Read>, data: bytes)
    requires AllData(input, |input|) && data != []
    ensures var all := input + [Some(data)];
      AllData(all, |all|) && ShownBy(all, |all|) == ShownBy(input, |input|) + data
  {
    ShownFirst(input, [Some(data)], |input|);
  }

  lemma {:induction false} PiecesShow(s: bytes, size: nat)
    requires size > 0
    ensures var ps := Pieces(s, size);
      AllData(ps, |ps|) && ReadsAtMost(ps, |ps|, size) && ShownBy(ps, |ps|) == s
    decreases |s|
  {
    if s != [] && |s| <= size {
      ShownNext([], s);
      assert [] + [Some(s)] == [Some(s)];
    } else if s != [] {
      var init, last := s[..|s| - size], s[|s| - size..];
      PiecesShow(init, size);
      ShownNext(Pieces(init, size), last);
    }
  }

  /** What has been shown only grows. */
  lemma {:induction false} ShownGrows(input: seq<Read>, n: nat, m: nat)
    requires n <= m && AllData(input, m)
    ensures AllData(input, n) && |ShownBy(input, n)| <= |ShownBy(input, m)|
    decreases m
  {
    if n < m {
      ShownGrows(input, n, m - 1);
    }
  }

  /** A byte other than x. */
  function Other(x: byte): byte {
    if x == 0 then 1 else 0
  }

  /** The marker, and then enough bytes that cannot end one. */
  function Pushed(marker: bytes, size: nat): bytes
    requires marker != [] && size > 0
  {
    [marker[|marker| - 1]] + Fill(Other(marker[|marker| - 1]), size - 1)
  }

  /** Once the marker's first byte has left the window, no marker is in it. */
  lemma PushedOut(marker: bytes, size: nat)
    requires marker != [] && size > 0 && |marker| - 1 + size > WINDOW
    ensures var s := marker[..|marker| - 1] + Pushed(marker, size);
      Contains(s, marker) && !Contains(Last(s, WINDOW), marker)
  {
    var s := marker[..|marker| - 1] + Pushed(marker, size);
    assert s[0..|marker|] == marker;
    assert OccursAt(s, 0, marker);
    var w := Last(s, WINDOW);
    forall i ensures !OccursAt(w, i, marker) {
      OccursByte(w, i, marker, i + |marker| - 1);
    }
  }

  /**
   Beyond that bound it can miss: for every marker and every larger read size,
   up to the longest read there is, there are reads that show the marker and
   whose windows never hold it.
   */
  lemma WindowMisses(marker: bytes, size: nat) returns (input: seq<Read>)
    requires WINDOW + 1 - |marker| < size <= WINDOW && size > 0
    ensures AllData(input, |input|) && ReadsAtMost(input, |input|, size)
    ensures Contains(ShownBy(input, |input|), marker)
    ensures forall n :: 0 <= n <= |input| ==> AllData(input, n) && !InWindow(input, n, marker)
  {
    var head, tail := marker[..|marker| - 1], Pushed(marker, size);
    var before := Pieces(head, size);
    input := before + [Some(tail)];
    PiecesShow(head, size);
    ShownNext(before, tail);
    PushedOut(marker, size);
    forall n | 0 <= n < |input| ensures AllData(input, n) && !InWindow(input, n, marker) {
      ShownFirst(before, [Some(tail)], n);
      ShownGrows(before, n, |before|);
      TooShort(Last(ShownBy(input, n), WINDOW), marker);
    }
  }

  lemma TooShort(s: bytes, x: bytes)
    requires |s| < |x|
    ensures !Contains(s, x)
  {
  }

  // ---- The table of the command ----

  /** ESC and the text after it. */
  function Sequence(text: string): (b: bytes)
    requires forall i :: 0 <= i < |text| ==> text[i] as int < 128
    ensures |b| == 1 + |text| && b[0] == ESC && forall i :: 0 <= i < |text| ==> b[i + 1] as int == text[i] as int
  {
    [ESC] + seq(|text|, i requires 0 <= i < |text| => text[i] as int as byte)
  }

  /**
   Background colour ("]11;?" after ESC), foreground colour ("]10;?"), cursor report ("[6n"), device
   attributes ("[c").
   */
  const TERMINAL := Table(
    [[27, 93, 49, 49, 59, 63], [27, 93, 49, 48, 59, 63], [27, 91, 54, 110], [27, 91, 99]],
    [Sequence("]11;rgb:0000/0000/0000") + Sequence("\\"), Sequence("]10;rgb:ffff/ffff/ffff") + Sequence("\\"),
     Sequence("[1;1R"), Sequence("[?62;22c")])

  lemma TerminalIsWellShaped()
    ensures WellShaped(TERMINAL)
  {
    assert TERMINAL.queries[0][3] != TERMINAL.queries[1][3];
    assert TERMINAL.queries[0][1] != TERMINAL.queries[2][1] && TERMINAL.queries[0][1] != TERMINAL.queries[3][1];
    assert TERMINAL.queries[2][2] != TERMINAL.queries[3][2];
  }
}
