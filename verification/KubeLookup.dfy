/**
 Finding a Kubernetes connection by what a user typed
 (fleetgrpc/kube_methods.go), and the daemon's uniqueness check behind it
 (internal/server/kube_validate.go).

 A connection is its position in the list, as the source returns the list's own
 entry. fold and lower are Unicode's simple case folding (what
 strings.EqualFold compares) and lower-casing (what strings.ToLower maps), one
 character at a time; nothing is supposed of them but what a lemma requires.
 */
module KubeLookup {
  import opened Bytes

  /** place: the cleaned kubeconfig paths and the namespace, which the lookup never reads. */
  datatype Cluster = Cluster(id: string, name: string, context: string, place: string)

  datatype Answer =
    | Found(at: nat)
    | NothingNamed
    | Unknown(ref: string)
    | SharedContext(ref: string, names: seq<string>)
    | NothingConnected
    | NameOne(names: seq<string>)

  /** What a connection is called in messages. */
  function Shown(c: Cluster): string {
    if c.name == "" then c.id else c.name
  }

  predicate EqualFold(fold: char -> char, s: string, t: string) {
    |s| == |t| && forall i :: 0 <= i < |s| ==> fold(s[i]) == fold(t[i])
  }

  // ---- The three tiers ----

  datatype Tier = ById | ByName | ByContext

  predicate Matches(fold: char -> char, t: Tier, c: Cluster, ref: string) {
    match t
    case ById => c.id == ref
    case ByName => c.name != "" && EqualFold(fold, c.name, ref)
    case ByContext => c.context == ref
  }

  /** Where a tier matches, in list order. */
  function Positions(fold: char -> char, t: Tier, cs: seq<Cluster>, ref: string): seq<nat> {
    if cs == [] then []
    else
      var last := |cs| - 1;
      Positions(fold, t, cs[..last], ref) + if Matches(fold, t, cs[last], ref) then [last] else []
  }

  /** Whether a connection uses a context; with none given, every connection counts. */
  predicate Uses(c: Cluster, context: Option<string>) {
    context == None || context == Some(c.context)
  }

  /** What the connections using a context are called, in list order. */
  function NamesOf(cs: seq<Cluster>, context: Option<string>): seq<string> {
    if cs == [] then [] else NamesOf(cs[..|cs| - 1], context) + Name(cs[|cs| - 1], context)
  }

  function Name(c: Cluster, context: Option<string>): seq<string> {
    if Uses(c, context) then [Shown(c)] else []
  }

  function Lookup(fold: char -> char, cs: seq<Cluster>, ref: string): Answer {
    var ids := Positions(fold, ById, cs, ref);
    var names := Positions(fold, ByName, cs, ref);
    var users := Positions(fold, ByContext, cs, ref);
    if ref == "" then NothingNamed
    else if ids != [] then Found(ids[0])
    else if names != [] then Found(names[0])
    else if users == [] then Unknown(ref)
    else if |users| == 1 then Found(users[0])
    else SharedContext(ref, NamesOf(cs, Some(ref)))
  }

  function LookupOrOnly(fold: char -> char, cs: seq<Cluster>, ref: string): Answer {
    if ref != "" then Lookup(fold, cs, ref)
    else if cs == [] then NothingConnected
    else if |cs| == 1 then Found(0)
    else NameOne(NamesOf(cs, None))
  }

  lemma {:induction false} PositionsAre(fold: char -> char, t: Tier, cs: seq<Cluster>, ref: string)
    ensures var at := Positions(fold, t, cs, ref);
      && (forall k :: 0 <= k < |at| ==> at[k] < |cs| && Matches(fold, t, cs[at[k]], ref))
      && (forall i :: 0 <= i < |cs| && Matches(fold, t, cs[i], ref) ==> i in at)
      && (forall k, l :: 0 <= k < l < |at| ==> at[k] < at[l])
  {
    if cs != [] {
      var last := |cs| - 1;
      var before, at := Positions(fold, t, cs[..last], ref), Positions(fold, t, cs, ref);
      PositionsAre(fold, t, cs[..last], ref);
      if Matches(fold, t, cs[last], ref) {
        assert at == before + [last];
        assert at[|at| - 1] == last;
      } else {
        assert at == before;
      }
    }
  }

  lemma {:induction false} UsersCounted(fold: char -> char, cs: seq<Cluster>, ref: string)
    ensures |NamesOf(cs, Some(ref))| == |Positions(fold, ByContext, cs, ref)|
    ensures forall k :: 0 <= k < |NamesOf(cs, Some(ref))| ==>
      Positions(fold, ByContext, cs, ref)[k] < |cs|
        && NamesOf(cs, Some(ref))[k] == Shown(cs[Positions(fold, ByContext, cs, ref)[k]])
  {
    if cs != [] {
      UsersCounted(fold, cs[..|cs| - 1], ref);
    }
  }

  lemma {:induction false} NamesAre(cs: seq<Cluster>, context: Option<string>, name: string)
    ensures name in NamesOf(cs, context) <==> exists i :: 0 <= i < |cs| && Uses(cs[i], context) && Shown(cs[i]) == name
  {
    if cs != [] {
      var last := |cs| - 1;
      NamesAre(cs[..last], context, name);
      assert forall i :: 0 <= i < last ==> cs[..last][i] == cs[i];
      if Uses(cs[last], context) && Shown(cs[last]) == name {
        assert name in Name(cs[last], context);
      }
    }
  }

  predicate NoneMatch(fold: char -> char, t: Tier, cs: seq<Cluster>, ref: string) {
    forall i :: 0 <= i < |cs| ==> !Matches(fold, t, cs[i], ref)
  }

  predicate FirstMatch(fold: char -> char, t: Tier, cs: seq<Cluster>, ref: string, i: nat) {
    i < |cs| && Matches(fold, t, cs[i], ref) && forall j :: 0 <= j < i ==> !Matches(fold, t, cs[j], ref)
  }

  predicate OnlyMatch(fold: char -> char, t: Tier, cs: seq<Cluster>, ref: string, i: nat) {
    i < |cs| && forall j :: 0 <= j < |cs| ==> (Matches(fold, t, cs[j], ref) <==> j == i)
  }

  lemma PositionsMean(fold: char -> char, t: Tier, cs: seq<Cluster>, ref: string)
    ensures var at := Positions(fold, t, cs, ref);
      && (at == [] <==> NoneMatch(fold, t, cs, ref))
      && (forall i: nat :: at != [] && at[0] == i <==> FirstMatch(fold, t, cs, ref, i))
      && (forall i: nat :: at == [i] <==> OnlyMatch(fold, t, cs, ref, i))
  {
    var at := Positions(fold, t, cs, ref);
    PositionsAre(fold, t, cs, ref);
    if at != [] {
      assert FirstMatch(fold, t, cs, ref, at[0]) by {
        forall j | 0 <= j < at[0] < |cs| ensures !Matches(fold, t, cs[j], ref) {
          assert Matches(fold, t, cs[j], ref) ==> j in at;
        }
      }
    }
    if |at| > 1 {
      assert at[0] < at[1] && Matches(fold, t, cs[at[1]], ref);
    }
    forall i: nat | OnlyMatch(fold, t, cs, ref, i) ensures at == [i] {
      assert i in at && at[0] == i;
    }
  }

  /** The three tiers, stated outright: an id, else a display name, else the one connection using a context. */
  lemma LookupMeaning(fold: char -> char, cs: seq<Cluster>, ref: string)
    requires ref != ""
    ensures var r := Lookup(fold, cs, ref);
      && (forall i: nat :: r == Found(i) <==>
            || FirstMatch(fold, ById, cs, ref, i)
            || (NoneMatch(fold, ById, cs, ref) && FirstMatch(fold, ByName, cs, ref, i))
            || (NoneMatch(fold, ById, cs, ref) && NoneMatch(fold, ByName, cs, ref)
                  && OnlyMatch(fold, ByContext, cs, ref, i)))
      && (r == Unknown(ref) <==>
            NoneMatch(fold, ById, cs, ref) && NoneMatch(fold, ByName, cs, ref) && NoneMatch(fold, ByContext, cs, ref))
  {
    PositionsMean(fold, ById, cs, ref);
    PositionsMean(fold, ByName, cs, ref);
    PositionsMean(fold, ByContext, cs, ref);
  }

  // ---- The loops ----

  method FindKubeCluster(fold: char -> char, cs: seq<Cluster>, ref: string) returns (r: Answer)
    ensures r == Lookup(fold, cs, ref)
  {
    if ref == "" {
      return NothingNamed;
    }
    PositionsMean(fold, ById, cs, ref);
    PositionsMean(fold, ByName, cs, ref);
    for i := 0 to |cs|
      invariant forall j :: 0 <= j < i ==> cs[j].id != ref
    {
      if cs[i].id == ref {
        assert FirstMatch(fold, ById, cs, ref, i);
        return Found(i);
      }
    }
    assert NoneMatch(fold, ById, cs, ref);
    for i := 0 to |cs|
      invariant forall j :: 0 <= j < i ==> !Matches(fold, ByName, cs[j], ref)
    {
      var name := cs[i].name;
      if name != "" && EqualFold(fold, name, ref) {
        assert FirstMatch(fold, ByName, cs, ref, i);
        return Found(i);
      }
    }
    assert NoneMatch(fold, ByName, cs, ref);
    var byContext, names := ContextUsers(fold, cs, ref);
    if byContext == [] {
      return Unknown(ref);
    }
    r := if |byContext| == 1 then Found(byContext[0]) else SharedContext(ref, names);
  }

  /** The last tier: who uses the context, and what they are called. */
  method ContextUsers(ghost fold: char -> char, cs: seq<Cluster>, ref: string)
      returns (byContext: seq<nat>, names: seq<string>)
    ensures byContext == Positions(fold, ByContext, cs, ref) && names == NamesOf(cs, Some(ref))
  {
    byContext := [];
    for i := 0 to |cs|
      invariant byContext == Positions(fold, ByContext, cs[..i], ref)
    {
      assert cs[..i + 1][..i] == cs[..i];
      if cs[i].context == ref {
        byContext := byContext + [i];
      }
    }
    assert cs[..|cs|] == cs;
    UsersCounted(fold, cs, ref);
    names := [];
    for k := 0 to |byContext|
      invariant names == NamesOf(cs, Some(ref))[..k]
    {
      names := names + [Shown(cs[byContext[k]])];
    }
  }

  method FindOrOnlyKubeCluster(fold: char -> char, cs: seq<Cluster>, ref: string) returns (r: Answer)
    ensures r == LookupOrOnly(fold, cs, ref)
  {
    if ref != "" {
      r := FindKubeCluster(fold, cs, ref);
      return;
    }
    if |cs| <= 1 {
      return if cs == [] then NothingConnected else Found(0);
    }
    var names := [];
    for i := 0 to |cs|
      invariant names == NamesOf(cs[..i], None)
    {
      assert cs[..i + 1][..i] == cs[..i];
      names := names + [Shown(cs[i])];
    }
    assert cs[..|cs|] == cs;
    r := NameOne(names);
  }

  // ---- A new connection never redirects a reference ----

  function Insert(cs: seq<Cluster>, k: nat, c: Cluster): seq<Cluster>
    requires k <= |cs|
  {
    cs[..k] + [c] + cs[k..]
  }

  /** Where position i goes when something is inserted at k, and where position j != k came from. */
  function Moved(i: nat, k: nat): nat { if i < k then i else i + 1 }

  function Origin(j: nat, k: nat): nat
    requires j != k
  {
    if j < k then j else j - 1
  }

  lemma InsertNone(fold: char -> char, t: Tier, cs: seq<Cluster>, k: nat, c: Cluster, ref: string)
    requires k <= |cs|
    ensures NoneMatch(fold, t, Insert(cs, k, c), ref) <==> NoneMatch(fold, t, cs, ref) && !Matches(fold, t, c, ref)
  {
    var more := Insert(cs, k, c);
    if NoneMatch(fold, t, more, ref) {
      assert more[k] == c;
      forall i | 0 <= i < |cs| ensures !Matches(fold, t, cs[i], ref) {
        assert cs[i] == more[Moved(i, k)];
      }
    }
  }

  lemma InsertFirst(fold: char -> char, t: Tier, cs: seq<Cluster>, k: nat, c: Cluster, ref: string, j: nat)
    requires k <= |cs| && j != k && FirstMatch(fold, t, Insert(cs, k, c), ref, j)
    ensures FirstMatch(fold, t, cs, ref, Origin(j, k))
  {
    var more := Insert(cs, k, c);
    assert more[j] == cs[Origin(j, k)];
    forall i | 0 <= i < Origin(j, k) ensures !Matches(fold, t, cs[i], ref) {
      assert cs[i] == more[Moved(i, k)];
    }
  }

  lemma InsertOnly(fold: char -> char, t: Tier, cs: seq<Cluster>, k: nat, c: Cluster, ref: string, j: nat)
    requires k <= |cs| && j != k && OnlyMatch(fold, t, Insert(cs, k, c), ref, j)
    ensures OnlyMatch(fold, t, cs, ref, Origin(j, k))
  {
    var more := Insert(cs, k, c);
    forall i | 0 <= i < |cs| ensures Matches(fold, t, cs[i], ref) <==> i == Origin(j, k) {
      assert cs[i] == more[Moved(i, k)];
    }
  }

  /**
   Wherever a connection is inserted, a reference then names it, or what it
   named before, or nothing; and a reference that named something is never
   unknown afterwards. Read backwards: removing a connection a reference did
   not name leaves what it names.
   */
  lemma InsertNeverRedirects(fold: char -> char, cs: seq<Cluster>, k: nat, c: Cluster, ref: string)
    requires k <= |cs|
    ensures var r, after := Lookup(fold, cs, ref), Lookup(fold, Insert(cs, k, c), ref);
      && (after.Found? && after.at != k ==> r == Found(Origin(after.at, k)))
      && (r.Found? ==> after.Found? || after.SharedContext?)
  {
    if ref != "" {
      var more := Insert(cs, k, c);
      LookupMeaning(fold, cs, ref);
      LookupMeaning(fold, more, ref);
      InsertNone(fold, ById, cs, k, c, ref);
      InsertNone(fold, ByName, cs, k, c, ref);
      InsertNone(fold, ByContext, cs, k, c, ref);
      var after := Lookup(fold, more, ref);
      if after.Found? && after.at != k {
        InsertKeeps(fold, cs, k, c, ref, after.at);
      }
    }
  }

  lemma InsertKeeps(fold: char -> char, cs: seq<Cluster>, k: nat, c: Cluster, ref: string, j: nat)
    requires ref != "" && k <= |cs| && j != k && Lookup(fold, Insert(cs, k, c), ref) == Found(j)
    ensures Lookup(fold, cs, ref) == Found(Origin(j, k))
  {
    var more := Insert(cs, k, c);
    LookupMeaning(fold, more, ref);
    LookupMeaning(fold, cs, ref);
    InsertNone(fold, ById, cs, k, c, ref);
    InsertNone(fold, ByName, cs, k, c, ref);
    if FirstMatch(fold, ById, more, ref, j) {
      InsertFirst(fold, ById, cs, k, c, ref, j);
    } else if FirstMatch(fold, ByName, more, ref, j) {
      InsertFirst(fold, ByName, cs, k, c, ref, j);
    } else {
      InsertOnly(fold, ByContext, cs, k, c, ref, j);
    }
  }

  // ---- The order of the list ----

  predicate Rearranged(cs: seq<Cluster>, ds: seq<Cluster>) {
    multiset(cs) == multiset(ds)
  }

  /** The same connection, or the same error naming the same connections. */
  predicate SameAnswer(cs: seq<Cluster>, r: Answer, ds: seq<Cluster>, q: Answer) {
    match r
    case Found(i) => q.Found? && i < |cs| && q.at < |ds| && ds[q.at] == cs[i]
    case SharedContext(ref, names) => q.SharedContext? && q.ref == ref && multiset(q.names) == multiset(names)
    case NameOne(names) => q.NameOne? && multiset(q.names) == multiset(names)
    case _ => q == r
  }

  ghost predicate UniqueIds(cs: seq<Cluster>) {
    forall i, j :: 0 <= i < j < |cs| ==> cs[i].id != cs[j].id
  }

  ghost predicate AtMostOne(fold: char -> char, t: Tier, cs: seq<Cluster>, ref: string) {
    forall i, j :: 0 <= i < j < |cs| ==> !Matches(fold, t, cs[i], ref) || !Matches(fold, t, cs[j], ref)
  }

  /** No two display names are the same up to folding. */
  ghost predicate UniqueNames(fold: char -> char, cs: seq<Cluster>) {
    forall i, j :: 0 <= i < j < |cs| && cs[i].name != "" ==> !EqualFold(fold, cs[i].name, cs[j].name)
  }

  lemma {:induction false} InsertCounts(fold: char -> char, t: Tier, cs: seq<Cluster>, k: nat, c: Cluster, ref: string)
    requires k <= |cs|
    ensures |Positions(fold, t, Insert(cs, k, c), ref)|
         == |Positions(fold, t, cs, ref)| + if Matches(fold, t, c, ref) then 1 else 0
  {
    if k < |cs| {
      InsertCounts(fold, t, cs[..|cs| - 1], k, c, ref);
      InsertSnoc(cs, k, c);
    } else {
      assert Insert(cs, k, c) == cs + [c];
    }
  }

  lemma Associates<T>(a: seq<T>, b: seq<T>, c: seq<T>)
    ensures (a + b) + c == a + (b + c)
  {
  }

  lemma NamesSnoc(cs: seq<Cluster>, c: Cluster, context: Option<string>)
    ensures NamesOf(cs + [c], context) == NamesOf(cs, context) + Name(c, context)
  {
    assert (cs + [c])[..|cs|] == cs;
  }

  lemma {:induction false} NamesConcat(a: seq<Cluster>, b: seq<Cluster>, context: Option<string>)
    ensures NamesOf(a + b, context) == NamesOf(a, context) + NamesOf(b, context)
  {
    if b == [] {
      assert a + b == a;
    } else {
      var init, c := b[..|b| - 1], b[|b| - 1];
      NamesConcat(a, init, context);
      NamesSnoc(a + init, c, context);
      NamesSnoc(init, c, context);
      Associates(a, init, [c]);
      Associates(NamesOf(a, context), NamesOf(init, context), Name(c, context));
      assert b == init + [c];
    }
  }

  lemma InsertSnoc(cs: seq<Cluster>, k: nat, c: Cluster)
    requires k < |cs|
    ensures Insert(cs, k, c) == Insert(cs[..|cs| - 1], k, c) + [cs[|cs| - 1]]
  {
    assert cs[k..] == cs[..|cs| - 1][k..] + [cs[|cs| - 1]];
  }

  lemma InsertNames(cs: seq<Cluster>, k: nat, c: Cluster, context: Option<string>)
    requires k <= |cs|
    ensures multiset(NamesOf(Insert(cs, k, c), context)) == multiset(NamesOf(cs, context)) + multiset(Name(c, context))
  {
    var a, b := cs[..k], cs[k..];
    assert cs == a + b;
    NamesConcat(a, b, context);
    NamesConcat(a + [c], b, context);
    NamesConcat(a, [c], context);
    assert NamesOf([c], context) == Name(c, context);
  }

  /** Where the last of cs stands in a rearrangement, which without it rearranges the others. */
  lemma TakeOut(cs: seq<Cluster>, ds: seq<Cluster>) returns (k: nat)
    requires Rearranged(cs, ds) && cs != []
    ensures k < |ds| && ds[k] == cs[|cs| - 1]
    ensures Rearranged(cs[..|cs| - 1], ds[..k] + ds[k + 1..]) && ds == Insert(ds[..k] + ds[k + 1..], k, ds[k])
  {
    var init, c := cs[..|cs| - 1], cs[|cs| - 1];
    assert cs == init + [c];
    assert c in multiset(ds);
    k :| 0 <= k < |ds| && ds[k] == c;
    assert ds == ds[..k] + [c] + ds[k + 1..];
    assert multiset(cs) == multiset(init) + multiset{c};
    assert multiset(ds) == multiset(ds[..k] + ds[k + 1..]) + multiset{c};
    assert multiset(init) == multiset(cs) - multiset{c};
  }

  lemma Emptied(cs: seq<Cluster>, ds: seq<Cluster>)
    requires Rearranged(cs, ds) && cs == []
    ensures ds == []
  {
    assert |multiset(ds)| == 0;
  }

  lemma {:induction false} RearrangingKeeps(fold: char -> char, t: Tier, cs: seq<Cluster>, ds: seq<Cluster>,
      ref: string)
    requires Rearranged(cs, ds)
    ensures |Positions(fold, t, cs, ref)| == |Positions(fold, t, ds, ref)|
  {
    if cs == [] {
      Emptied(cs, ds);
    } else {
      var k := TakeOut(cs, ds);
      var rest := ds[..k] + ds[k + 1..];
      RearrangingKeeps(fold, t, cs[..|cs| - 1], rest, ref);
      InsertCounts(fold, t, rest, k, ds[k], ref);
    }
  }

  lemma {:induction false} RearrangingRenames(cs: seq<Cluster>, ds: seq<Cluster>, context: Option<string>)
    requires Rearranged(cs, ds)
    ensures multiset(NamesOf(cs, context)) == multiset(NamesOf(ds, context))
  {
    if cs == [] {
      Emptied(cs, ds);
    } else {
      var k := TakeOut(cs, ds);
      var rest := ds[..k] + ds[k + 1..];
      RearrangingRenames(cs[..|cs| - 1], rest, context);
      InsertNames(rest, k, ds[k], context);
    }
  }

  lemma AtMostOneIs(fold: char -> char, t: Tier, cs: seq<Cluster>, ref: string)
    ensures AtMostOne(fold, t, cs, ref) <==> |Positions(fold, t, cs, ref)| <= 1
  {
    var at := Positions(fold, t, cs, ref);
    PositionsAre(fold, t, cs, ref);
    if |at| >= 2 {
      assert at[0] < at[1];
    }
    if i, j :| 0 <= i < j < |cs| && Matches(fold, t, cs[i], ref) && Matches(fold, t, cs[j], ref) {
      assert i in at && j in at;
    }
  }

  /** A tier that matches one connection matches that one under every order. */
  lemma OnlyOneFound(fold: char -> char, t: Tier, cs: seq<Cluster>, ds: seq<Cluster>, ref: string)
    requires Rearranged(cs, ds) && |Positions(fold, t, cs, ref)| == 1
    ensures var i, j := Positions(fold, t, cs, ref)[0], Positions(fold, t, ds, ref);
      |j| == 1 && i < |cs| && j[0] < |ds| && cs[i] == ds[j[0]]
  {
    RearrangingKeeps(fold, t, cs, ds, ref);
    PositionsAre(fold, t, cs, ref);
    PositionsAre(fold, t, ds, ref);
    var i, j := Positions(fold, t, cs, ref)[0], Positions(fold, t, ds, ref)[0];
    assert cs[i] in multiset(ds);
    var k :| 0 <= k < |ds| && ds[k] == cs[i];
    assert k in Positions(fold, t, ds, ref);
  }

  /** With at most one match in the first two tiers the order of the list does not matter. */
  lemma OrderIrrelevant(fold: char -> char, cs: seq<Cluster>, ds: seq<Cluster>, ref: string)
    requires Rearranged(cs, ds) && UniqueIds(cs)
    requires ref == "" || !NoneMatch(fold, ById, cs, ref) || AtMostOne(fold, ByName, cs, ref)
    ensures SameAnswer(cs, Lookup(fold, cs, ref), ds, Lookup(fold, ds, ref))
  {
    AtMostOneIs(fold, ById, cs, ref);
    AtMostOneIs(fold, ByName, cs, ref);
    PositionsMean(fold, ById, cs, ref);
    RearrangingKeeps(fold, ById, cs, ds, ref);
    RearrangingKeeps(fold, ByName, cs, ds, ref);
    RearrangingKeeps(fold, ByContext, cs, ds, ref);
    RearrangingRenames(cs, ds, Some(ref));
    if |Positions(fold, ById, cs, ref)| == 1 {
      OnlyOneFound(fold, ById, cs, ds, ref);
    } else if |Positions(fold, ByName, cs, ref)| == 1 {
      OnlyOneFound(fold, ByName, cs, ds, ref);
    } else if |Positions(fold, ByContext, cs, ref)| == 1 {
      OnlyOneFound(fold, ByContext, cs, ds, ref);
    }
  }

  /** With two display names matching, putting the later one first changes the answer. */
  lemma OrderMatters(fold: char -> char, cs: seq<Cluster>, ref: string, i: nat, j: nat) returns (ds: seq<Cluster>)
    requires UniqueIds(cs) && ref != "" && NoneMatch(fold, ById, cs, ref)
    requires i < j < |cs| && Matches(fold, ByName, cs[i], ref) && Matches(fold, ByName, cs[j], ref)
    ensures Rearranged(cs, ds) && !SameAnswer(cs, Lookup(fold, cs, ref), ds, Lookup(fold, ds, ref))
  {
    var c, rest := cs[j], cs[..j] + cs[j + 1..];
    ds := Insert(rest, 0, c);
    assert cs == cs[..j] + [c] + cs[j + 1..] && cs == Insert(rest, j, c);
    MovedToFront(fold, rest, j, c, ref);
    FoundFirst(fold, cs, ref, i);
  }

  lemma MovedToFront(fold: char -> char, rest: seq<Cluster>, j: nat, c: Cluster, ref: string)
    requires ref != "" && j <= |rest| && NoneMatch(fold, ById, Insert(rest, j, c), ref) && Matches(fold, ByName, c, ref)
    ensures Rearranged(Insert(rest, j, c), Insert(rest, 0, c))
    ensures Insert(rest, 0, c)[0] == c && Lookup(fold, Insert(rest, 0, c), ref) == Found(0)
  {
    var ds := Insert(rest, 0, c);
    assert rest == rest[..j] + rest[j..];
    assert ds[0] == c;
    InsertNone(fold, ById, rest, j, c, ref);
    InsertNone(fold, ById, rest, 0, c, ref);
    assert FirstMatch(fold, ByName, ds, ref, 0);
    LookupMeaning(fold, ds, ref);
  }

  /** With no id matching, the answer is no later than any matching display name. */
  lemma FoundFirst(fold: char -> char, cs: seq<Cluster>, ref: string, i: nat)
    requires ref != "" && NoneMatch(fold, ById, cs, ref) && i < |cs| && Matches(fold, ByName, cs[i], ref)
    ensures var r := Lookup(fold, cs, ref); r.Found? && r.at <= i
  {
    PositionsMean(fold, ById, cs, ref);
    PositionsMean(fold, ByName, cs, ref);
    var first := Positions(fold, ByName, cs, ref)[0];
    assert FirstMatch(fold, ByName, cs, ref, first);
  }

  /**
   Exactly when the answer is the same under every order: the reference is an id, or at most one
   display name folds to it.
   */
  lemma OrderMattersIff(fold: char -> char, cs: seq<Cluster>, ref: string)
    requires UniqueIds(cs)
    ensures (forall ds :: Rearranged(cs, ds) ==> SameAnswer(cs, Lookup(fold, cs, ref), ds, Lookup(fold, ds, ref)))
       <==> (ref == "" || !NoneMatch(fold, ById, cs, ref) || AtMostOne(fold, ByName, cs, ref))
  {
    if ref == "" || !NoneMatch(fold, ById, cs, ref) || AtMostOne(fold, ByName, cs, ref) {
      forall ds | Rearranged(cs, ds) ensures SameAnswer(cs, Lookup(fold, cs, ref), ds, Lookup(fold, ds, ref)) {
        OrderIrrelevant(fold, cs, ds, ref);
      }
    } else {
      var i: nat, j: nat :| i < j < |cs| && Matches(fold, ByName, cs[i], ref) && Matches(fold, ByName, cs[j], ref);
      var ds := OrderMatters(fold, cs, ref, i, j);
    }
  }

  /**
   The promise as documented: with ids and folded display names unique, every reference means the
   same under every order.
   */
  lemma UniqueNamesSuffice(fold: char -> char, cs: seq<Cluster>, ds: seq<Cluster>, ref: string)
    requires UniqueIds(cs) && UniqueNames(fold, cs) && Rearranged(cs, ds)
    ensures SameAnswer(cs, LookupOrOnly(fold, cs, ref), ds, LookupOrOnly(fold, ds, ref))
  {
    if ref != "" {
      OrderIrrelevant(fold, cs, ds, ref);
    } else {
      assert |multiset(cs)| == |cs| && |multiset(ds)| == |ds|;
      RearrangingRenames(cs, ds, None);
      if |cs| == 1 {
        assert cs[0] in multiset(ds);
      }
    }
  }

  // ---- What a message lists resolves ----

  /**
   A connection is found by what messages call it exactly when no other
   connection's id is its display name.
   */
  lemma ShownResolvesIff(fold: char -> char, cs: seq<Cluster>, i: nat)
    requires i < |cs| && UniqueIds(cs) && UniqueNames(fold, cs) && cs[i].id != ""
    ensures Lookup(fold, cs, Shown(cs[i])) == Found(i) <==>
      cs[i].name == "" || forall j :: 0 <= j < |cs| && j != i ==> cs[j].id != cs[i].name
  {
    var ref := Shown(cs[i]);
    LookupMeaning(fold, cs, ref);
    if cs[i].name == "" || cs[i].id == cs[i].name {
      assert FirstMatch(fold, ById, cs, ref, i);
    } else if NoneMatch(fold, ById, cs, ref) {
      assert FirstMatch(fold, ByName, cs, ref, i);
    } else {
      PositionsMean(fold, ById, cs, ref);
      var j := Positions(fold, ById, cs, ref)[0];
      assert FirstMatch(fold, ById, cs, ref, j);
    }
  }

  /**
   Every name either ambiguity error lists is what some connection is found by, if no display name
   is another's id.
   */
  lemma ListedNamesResolve(fold: char -> char, cs: seq<Cluster>, ref: string, name: string)
    requires UniqueIds(cs) && UniqueNames(fold, cs) && forall i :: 0 <= i < |cs| ==> cs[i].id != ""
    requires forall i, j :: 0 <= i < |cs| && 0 <= j < |cs| && i != j ==> cs[j].id != cs[i].name
    ensures match LookupOrOnly(fold, cs, ref)
      case SharedContext(_, names) => name in names ==> Resolves(fold, cs, Some(ref), name)
      case NameOne(names) => name in names ==> Resolves(fold, cs, None, name)
      case _ => true
  {
    NamedResolves(fold, cs, Some(ref), name);
    NamedResolves(fold, cs, None, name);
  }

  /** name is what a connection using the context is called, and finds that connection. */
  ghost predicate Resolves(fold: char -> char, cs: seq<Cluster>, context: Option<string>, name: string) {
    exists i: nat :: i < |cs| && Uses(cs[i], context) && Shown(cs[i]) == name && Lookup(fold, cs, name) == Found(i)
  }

  lemma NamedResolves(fold: char -> char, cs: seq<Cluster>, context: Option<string>, name: string)
    requires UniqueIds(cs) && UniqueNames(fold, cs) && forall i :: 0 <= i < |cs| ==> cs[i].id != ""
    requires forall i, j :: 0 <= i < |cs| && 0 <= j < |cs| && i != j ==> cs[j].id != cs[i].name
    ensures name in NamesOf(cs, context) ==> Resolves(fold, cs, context, name)
  {
    NamesAre(cs, context, name);
    if name in NamesOf(cs, context) {
      var i :| 0 <= i < |cs| && Uses(cs[i], context) && Shown(cs[i]) == name;
      ShownResolvesIff(fold, cs, i);
    }
  }

  // ---- The daemon's own uniqueness check ----

  datatype Verdict = Accepted | NameTaken | PlaceTaken

  function Lowered(lower: char -> char, s: string): (r: string)
    ensures |r| == |s| && forall i :: 0 <= i < |s| ==> r[i] == lower(s[i])
  {
    seq(|s|, i requires 0 <= i < |s| => lower(s[i]))
  }

  /** Another connection is called this, or reaches the same place through the same context. */
  predicate Clashes(lower: char -> char, c: Cluster, other: Cluster) {
    && other.id != c.id
    && ((c.name != "" && Lowered(lower, Shown(other)) == Lowered(lower, Shown(c)))
          || (other.context == c.context && other.place == c.place))
  }

  method CheckUnique(lower: char -> char, c: Cluster, all: seq<Cluster>) returns (v: Verdict)
    ensures v == Accepted <==> forall i :: 0 <= i < |all| ==> !Clashes(lower, c, all[i])
    ensures v == NameTaken ==>
      c.name != "" && exists i :: 0 <= i < |all| && Lowered(lower, Shown(all[i])) == Lowered(lower, c.name)
  {
    var name := Lowered(lower, Shown(c));
    for i := 0 to |all|
      invariant forall j :: 0 <= j < i ==> !Clashes(lower, c, all[j])
    {
      if all[i].id == c.id { continue; }
      if c.name != "" && Lowered(lower, Shown(all[i])) == name {
        return NameTaken;
      }
      if all[i].context == c.context && all[i].place == c.place {
        return PlaceTaken;
      }
    }
    v := Accepted;
  }

  /** What the check keeps: no two display names are the same in lower case, and no two connections reach one place. */
  ghost predicate LowerUnique(lower: char -> char, cs: seq<Cluster>) {
    forall i, j :: 0 <= i < |cs| && 0 <= j < |cs| && i != j ==>
      && (cs[i].name != "" && cs[j].name != "" ==> Lowered(lower, cs[i].name) != Lowered(lower, cs[j].name))
      && !(cs[i].context == cs[j].context && cs[i].place == cs[j].place)
  }

  /** Records accepted by the check, new or replacing the record with their id, keep the list so. */
  lemma AcceptedStaysUnique(lower: char -> char, cs: seq<Cluster>, k: nat, c: Cluster)
    requires UniqueIds(cs) && LowerUnique(lower, cs) && k <= |cs|
    requires forall i :: 0 <= i < |cs| ==> !Clashes(lower, c, cs[i])
    requires forall i :: 0 <= i < |cs| ==> (cs[i].id == c.id <==> i == k)
    ensures var after := if k < |cs| then cs[k := c] else cs + [c];
      UniqueIds(after) && LowerUnique(lower, after)
  {
    var after := if k < |cs| then cs[k := c] else cs + [c];
    assert forall i :: 0 <= i < |after| && i != k ==> after[i] == cs[i];
  }

  /**
   Lower-casing is not folding: every list the check admits has its display
   names unique to the lookup exactly when characters that fold together also
   lower-case together.
   */
  lemma CheckSufficesIff(fold: char -> char, lower: char -> char)
    ensures (forall cs :: UniqueIds(cs) && LowerUnique(lower, cs) ==> UniqueNames(fold, cs))
       <==> (forall a, b :: fold(a) == fold(b) ==> lower(a) == lower(b))
  {
    if forall a, b :: fold(a) == fold(b) ==> lower(a) == lower(b) {
      forall cs | UniqueIds(cs) && LowerUnique(lower, cs) ensures UniqueNames(fold, cs) {
        FoldedLowers(fold, lower, cs);
      }
    } else {
      var a, b :| fold(a) == fold(b) && lower(a) != lower(b);
      SlippedThrough(fold, lower, a, b, "id1", "id2", "");
    }
  }

  lemma FoldedLowers(fold: char -> char, lower: char -> char, cs: seq<Cluster>)
    requires LowerUnique(lower, cs) && forall a, b :: fold(a) == fold(b) ==> lower(a) == lower(b)
    ensures UniqueNames(fold, cs)
  {
    forall i, j | 0 <= i < j < |cs| && cs[i].name != "" ensures !EqualFold(fold, cs[i].name, cs[j].name) {
      assert EqualFold(fold, cs[i].name, cs[j].name) ==> Lowered(lower, cs[i].name) == Lowered(lower, cs[j].name);
    }
  }

  /**
   Two connections named by characters that fold together but lower-case apart,
   such as "s" and the long s: the check accepts the second beside the first,
   and which one the name finds is then a matter of the list's order.
   */
  lemma SlippedThrough(fold: char -> char, lower: char -> char, a: char, b: char, id: string, other: string,
      context: string)
    requires fold(a) == fold(b) && lower(a) != lower(b)
    requires id != other && id != [a] && other != [a]
    ensures var c, d := Cluster(id, [a], context, "x"), Cluster(other, [b], context, "y");
      && !Clashes(lower, d, c) && UniqueIds([c, d]) && LowerUnique(lower, [c, d]) && !UniqueNames(fold, [c, d])
      && Lookup(fold, [c, d], [a]) == Found(0) && Lookup(fold, [d, c], [a]) == Found(0)
  {
    var c, d := Cluster(id, [a], context, "x"), Cluster(other, [b], context, "y");
    assert Lowered(lower, [a])[0] != Lowered(lower, [b])[0];
    assert EqualFold(fold, [c, d][0].name, [c, d][1].name);
    LookupMeaning(fold, [c, d], [a]);
    LookupMeaning(fold, [d, c], [a]);
    assert FirstMatch(fold, ByName, [c, d], [a], 0) && FirstMatch(fold, ByName, [d, c], [a], 0);
  }

  /**
   A connection may be named like another one's id: the check accepts the two
   in either order, the error about their shared context lists that name, and
   the name finds the other one.
   */
  lemma ListedNameMisleads(
    fold: char -> char, lower: char -> char, id: string, other: string, name: string, context: string)
    requires id != other && other != "" && name != "" && context != ""
    requires Lowered(lower, name) != Lowered(lower, other) && !EqualFold(fold, other, name)
    requires context != id && context != other && !EqualFold(fold, other, context) && !EqualFold(fold, name, context)
    ensures var c, d := Cluster(id, other, context, "x"), Cluster(other, name, context, "y");
      && !Clashes(lower, c, d) && !Clashes(lower, d, c)
      && UniqueIds([c, d]) && LowerUnique(lower, [c, d]) && UniqueNames(fold, [c, d])
      && Lookup(fold, [c, d], context) == SharedContext(context, [other, name])
      && Lookup(fold, [c, d], other) == Found(1)
  {
    var c, d := Cluster(id, other, context, "x"), Cluster(other, name, context, "y");
    SharedByTwo(fold, c, d, context);
    LookupMeaning(fold, [c, d], other);
    assert FirstMatch(fold, ById, [c, d], other, 1);
  }

  lemma SharedByTwo(fold: char -> char, c: Cluster, d: Cluster, ref: string)
    requires ref != "" && c.context == ref && d.context == ref
    requires NoneMatch(fold, ById, [c, d], ref) && NoneMatch(fold, ByName, [c, d], ref)
    ensures Lookup(fold, [c, d], ref) == SharedContext(ref, [Shown(c), Shown(d)])
  {
    PositionsMean(fold, ById, [c, d], ref);
    PositionsMean(fold, ByName, [c, d], ref);
    var both := [c, d];
    assert both[..1] == [c] && [c][..0] == [];
    assert Positions(fold, ByContext, [c], ref) == [] + [0];
    assert Positions(fold, ByContext, both, ref) == Positions(fold, ByContext, both[..1], ref) + [1];
    assert NamesOf([c], Some(ref)) == [] + Name(c, Some(ref));
    assert NamesOf(both, Some(ref)) == NamesOf(both[..1], Some(ref)) + Name(d, Some(ref));
  }
}
