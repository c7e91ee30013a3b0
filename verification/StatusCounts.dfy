/**
 Counting instances by status (fleetgrpc/domain_methods.go). A status is its
 number on the wire; any number but the two named ones counts as other.
 */
module StatusCounts {
  type Status = int

  const RUNNING: Status := 3
  const STOPPED: Status := 4

  datatype Bucket = Running | Stopped | Other

  function BucketOf(s: Status): Bucket {
    if s == RUNNING then Running else if s == STOPPED then Stopped else Other
  }

  /** The statuses of a list that fall in a bucket. */
  function Filtered(b: Bucket, list: seq<Status>): (r: seq<Status>)
    ensures forall s :: s in r ==> BucketOf(s) == b
  {
    if list == [] then []
    else Filtered(b, list[..|list| - 1]) + if BucketOf(list[|list| - 1]) == b then [list[|list| - 1]] else []
  }

  /** A bucket's count, by what the bucket means. */
  function Count(b: Bucket, list: seq<Status>): nat {
    |Filtered(b, list)|
  }

  class Counter {
    var running: nat
    var stopped: nat
    var other: nat

    /** What a bucket stands at. */
    function At(b: Bucket): nat
      reads this
    {
      match b case Running => running case Stopped => stopped case Other => other
    }

    /** The counter counts exactly this list. */
    ghost predicate Counts(list: seq<Status>)
      reads this
    {
      forall b :: At(b) == Count(b, list)
    }

    constructor ()
      ensures Counts([])
    {
      running, stopped, other := 0, 0, 0;
    }

    method Add(s: Status)
      modifies this
      ensures At(BucketOf(s)) == old(At(BucketOf(s))) + 1 && forall b :: b != BucketOf(s) ==> At(b) == old(At(b))
      ensures forall list: seq<Status> :: old(Counts(list)) ==> Counts(list + [s])
    {
      if s == RUNNING {
        running := running + 1;
      } else if s == STOPPED {
        stopped := stopped + 1;
      } else {
        other := other + 1;
      }
      forall list: seq<Status> | old(Counts(list)) ensures Counts(list + [s]) {
        forall b ensures At(b) == Count(b, list + [s]) {
          assert (list + [s])[..|list|] == list;
          assert old(At(b)) == Count(b, list);
        }
      }
    }

    method Merge(o: Counter)
      modifies this
      ensures forall b :: At(b) == old(At(b)) + old(o.At(b))
      ensures forall mine, theirs :: old(Counts(mine)) && old(o.Counts(theirs)) ==> Counts(mine + theirs)
    {
      running, stopped, other := running + o.running, stopped + o.stopped, other + o.other;
      forall mine, theirs | old(Counts(mine)) && old(o.Counts(theirs)) ensures Counts(mine + theirs) {
        forall b ensures At(b) == Count(b, mine + theirs) {
          CountConcat(b, mine, theirs);
          assert old(At(b)) == Count(b, mine) && old(o.At(b)) == Count(b, theirs);
        }
      }
    }

    method Total() returns (n: nat)
      ensures n == At(Running) + At(Stopped) + At(Other)
      ensures forall list :: Counts(list) ==> n == |list|
    {
      n := running + stopped + other;
      forall list | Counts(list) ensures n == |list| {
        BucketsCover(list);
        assert At(Running) == Count(Running, list) && At(Stopped) == Count(Stopped, list)
          && At(Other) == Count(Other, list);
      }
    }
  }

  method CountInstanceStatuses(list: seq<Status>) returns (c: Counter)
    ensures fresh(c) && c.Counts(list)
  {
    c := new Counter();
    for i := 0 to |list|
      invariant fresh(c) && c.Counts(list[..i])
    {
      assert list[..i + 1] == list[..i] + [list[i]];
      c.Add(list[i]);
    }
    assert list[..|list|] == list;
  }

  function Flattened(fleets: seq<seq<Status>>): seq<Status> {
    if fleets == [] then [] else Flattened(fleets[..|fleets| - 1]) + fleets[|fleets| - 1]
  }

  /** A summary of many fleets is the count of all their instances. */
  method CountFleets(fleets: seq<seq<Status>>) returns (total: Counter)
    ensures fresh(total) && total.Counts(Flattened(fleets))
  {
    total := new Counter();
    for i := 0 to |fleets|
      invariant fresh(total) && total.Counts(Flattened(fleets[..i]))
    {
      assert fleets[..i + 1][..i] == fleets[..i];
      var c := CountInstanceStatuses(fleets[i]);
      total.Merge(c);
    }
    assert fleets[..|fleets|] == fleets;
  }

  // ---- Counting is a homomorphism ----

  lemma {:induction false} CountConcat(b: Bucket, x: seq<Status>, y: seq<Status>)
    ensures Count(b, x + y) == Count(b, x) + Count(b, y)
  {
    if y == [] {
      assert x + y == x;
    } else {
      assert (x + y)[..|x + y| - 1] == x + y[..|y| - 1];
      CountConcat(b, x, y[..|y| - 1]);
    }
  }

  lemma {:induction false} BucketsCover(list: seq<Status>)
    ensures Count(Running, list) + Count(Stopped, list) + Count(Other, list) == |list|
  {
    if list != [] {
      BucketsCover(list[..|list| - 1]);
    }
  }

  lemma {:induction false} FilteredOccurrences(b: Bucket, list: seq<Status>, s: Status)
    ensures multiset(Filtered(b, list))[s] == if BucketOf(s) == b then multiset(list)[s] else 0
  {
    if list != [] {
      var init, last := list[..|list| - 1], list[|list| - 1];
      FilteredOccurrences(b, init, s);
      assert list == init + [last];
    }
  }

  /** The order of the instances does not matter. */
  lemma OrderIrrelevant(b: Bucket, x: seq<Status>, y: seq<Status>)
    requires multiset(x) == multiset(y)
    ensures Count(b, x) == Count(b, y)
  {
    var these, those := multiset(Filtered(b, x)), multiset(Filtered(b, y));
    forall s ensures these[s] == those[s] {
      FilteredOccurrences(b, x, s);
      FilteredOccurrences(b, y, s);
    }
    assert these == those;
    assert |these| == Count(b, x) && |those| == Count(b, y);
  }
}
