/**
 Concurrent changes to the Kubernetes connections (internal/server/kube.go,
 internal/server/kube_health.go): an update reads a record, checks the caller's
 revision and its mask, works out the new record without a lock, and saves it
 if the record's revision has not moved. Other updates, additions, removals and
 the daemon's own notes come in between.

 A record holds the client's fields, the daemon's notes and the revision. What
 this code asks of the cluster and of the instances using it (validation, a
 re-point's checks) is an answer each step is given.
 */
module KubeUpdate {
  import opened Bytes
  import opened FieldMask
  import K = KubeLookup

  datatype Notes = Notes(server: string, uid: string, verified: int, credential: string)

  datatype Record = Record(fields: Fields, notes: Notes, created: int, updated: int, revision: nat)

  type Registry = map<string, Record>

  datatype Code = NotFound | Aborted | InvalidArgument | FailedPrecondition | AlreadyExists

  datatype Result<+T> = Ok(value: T) | Refused(code: Code)

  /**
   The fields a connection has, filepath.Clean over its list of paths, lower-casing, and the slug an
   id starts with.
   */
  datatype Daemon = Daemon(kinds: map<string, Kind>, clean: Value -> Value, lower: char -> char, slug: string -> string)

  datatype Request = Request(id: string, source: Fields, mask: seq<Path>, expected: nat)

  /** An update between its read and its save. */
  datatype Call = Call(request: Request, current: Record, next: Fields)

  const DAEMON_OWNED := {"id", "server", "cluster_uid", "created_at", "updated_at", "verified_at", "revision"}

  const VERIFIED_EVERY := 300

  const ID_ALPHABET := "abcdefghijklmnopqrstuvwxyz234567"

  // ---- One update ----

  function Cleaned(d: Daemon, fields: Fields): Fields {
    if "kubeconfig_paths" in fields then fields["kubeconfig_paths" := d.clean(fields["kubeconfig_paths"])] else fields
  }

  predicate ValidMask(d: Daemon, mask: seq<Path>) {
    && mask != []
    && (forall i :: 0 <= i < |mask| ==> mask[i] != [] && mask[i][0] !in DAEMON_OWNED)
    && (forall i :: 0 <= i < |mask| ==> ValidPath(d.kinds, mask[i]))
  }

  function ApplyMask(d: Daemon, current: Fields, request: Request): Result<Fields> {
    if !ValidMask(d, request.mask) then Refused(InvalidArgument)
    else Ok(Cleaned(d, Copied(current, request.source, request.mask)))
  }

  /**
   What decides the cluster and namespace a record reaches; the notes about one that changed are
   dropped if nothing uses it.
   */
  function Target(fields: Fields): (Option<Value>, Option<Value>, Option<Value>) {
    (At(fields, ["context"]), At(fields, ["kubeconfig_paths"]), At(fields, ["namespace"]))
  }

  function Kept(notes: Notes, before: Fields, after: Fields, unused: bool): Notes {
    if Target(before) != Target(after) && unused then notes.(server := "", uid := "") else notes
  }

  // ---- Uniqueness among the records ----

  function TextAt(fields: Fields, q: Path): string
    requires q != []
  {
    match At(fields, q)
    case Some(Scalar(text)) => text
    case _ => ""
  }

  function NameOf(fields: Fields): string {
    TextAt(fields, ["display_name"])
  }

  /** A new record's id: the slug of its context, a dash and six random characters of the alphabet. */
  predicate Minted(d: Daemon, context: string, id: string) {
    var base := d.slug(context);
    && |id| == |base| + 7 && id[..|base|] == base && id[|base|] == '-'
    && forall i :: |base| < i < |id| ==> id[i] in ID_ALPHABET
  }

  /** What a record is called. */
  function Called(id: string, fields: Fields): string {
    if NameOf(fields) == "" then id else NameOf(fields)
  }

  /** The cleaned kubeconfig paths, the context and the namespace. */
  function Place(d: Daemon, fields: Fields): (Option<Value>, Option<Value>, Option<Value>) {
    Target(Cleaned(d, fields))
  }

  predicate Clashes(d: Daemon, fields: Fields, other: string, theirs: Fields) {
    || (NameOf(fields) != "" && K.Lowered(d.lower, Called(other, theirs)) == K.Lowered(d.lower, NameOf(fields)))
    || Place(d, theirs) == Place(d, fields)
  }

  /** Another record than id is called that, or is that place already. */
  predicate Clash(d: Daemon, reg: Registry, id: string, fields: Fields) {
    exists other :: other in reg && other != id && Clashes(d, fields, other, reg[other].fields)
  }

  /** The read: the record as it is now, the caller's revision and the mask checked against it. */
  function Begin(d: Daemon, reg: Registry, request: Request): Result<Call> {
    if request.id !in reg then Refused(NotFound)
    else
      var current := reg[request.id];
      if request.expected != 0 && request.expected != current.revision then Refused(Aborted)
      else match ApplyMask(d, current.fields, request)
        case Refused(code) => Refused(code)
        case Ok(next) => Ok(Call(request, current, next))
  }

  /** The save, under the registry's lock. */
  function Commit(d: Daemon, reg: Registry, call: Call, unused: bool, now: int): Result<Registry> {
    var id := call.request.id;
    if id !in reg then Refused(NotFound)
    else if reg[id].revision != call.current.revision then Refused(Aborted)
    else if Clash(d, reg, id, call.next) then Refused(AlreadyExists)
    else Ok(reg[id := Record(call.next, Kept(reg[id].notes, call.current.fields, call.next, unused),
                             call.current.created, now, call.current.revision + 1)])
  }

  /** The update as one step: what a caller would see if nothing could come in between. */
  function Update(d: Daemon, reg: Registry, request: Request, unused: bool, now: int): Result<Registry> {
    match Begin(d, reg, request)
    case Refused(code) => Refused(code)
    case Ok(call) => Commit(d, reg, call, unused, now)
  }

  // ---- The daemon's own notes ----

  /** Which connection a probe asked: nothing is noted about a record re-pointed meanwhile. */
  function Key(fields: Fields): (Option<Value>, Option<Value>, Option<Value>, Option<Value>, Option<Value>) {
    (At(fields, ["context"]), At(fields, ["kubeconfig_paths"]), At(fields, ["namespace"]),
     At(fields, ["extra_path"]), At(fields, ["plugin_env"]))
  }

  datatype Probe = Probe(fields: Fields, server: string, uid: string, replace: bool, verified: Option<int>)

  function Noted(notes: Notes, probe: Probe): Notes {
    Notes(
      if probe.server != "" then probe.server else notes.server,
      if probe.uid != "" && (notes.uid == "" || probe.replace) then probe.uid else notes.uid,
      if probe.verified.Some? && probe.verified.value - notes.verified >= VERIFIED_EVERY then probe.verified.value
          else notes.verified,
      notes.credential)
  }

  function Bookkeep(reg: Registry, id: string, probe: Probe): Registry {
    if id !in reg || Key(reg[id].fields) != Key(probe.fields) then reg
    else reg[id := reg[id].(notes := Noted(reg[id].notes, probe))]
  }

  function Credit(reg: Registry, id: string, credential: string, rotate: bool): Registry {
    if id !in reg || !(rotate || reg[id].notes.credential == "") then reg
    else reg[id := reg[id].(notes := reg[id].notes.(credential := credential))]
  }

  // ---- Runs ----

  datatype State = State(reg: Registry, calls: map<nat, Call>)

  datatype Event =
    | Adds(id: string, fields: Fields, now: int)
    | Removes(id: string)
    | Begins(number: nat, request: Request)
    | Gives(number: nat)
    | Commits(number: nat, unused: bool, now: int)
    | Probes(id: string, probe: Probe)
    | Credits(id: string, credential: string, rotate: bool)

  /**
   A new id is minted from the context, and one no record has; a call's number is used for one
   update at a time. Gives: an update refused by its checks.
   */
  function Step(d: Daemon, s: State, e: Event): State {
    match e
    case Adds(id, fields, now) =>
      if id in s.reg || !Minted(d, TextAt(fields, ["context"]), id) || Clash(d, s.reg, id, Cleaned(d, fields)) then s
      else s.(reg := s.reg[id := Record(Cleaned(d, fields), Notes("", "", 0, ""), now, now, 1)])
    case Removes(id) => s.(reg := s.reg - {id})
    case Begins(number, request) =>
      var call := Begin(d, s.reg, request);
      if number in s.calls || call.Refused? then s else s.(calls := s.calls[number := call.value])
    case Gives(number) => s.(calls := s.calls - {number})
    case Commits(number, unused, now) =>
      if number !in s.calls then s
      else
        var saved := Commit(d, s.reg, s.calls[number], unused, now);
        State(if saved.Ok? then saved.value else s.reg, s.calls - {number})
    case Probes(id, probe) => s.(reg := Bookkeep(s.reg, id, probe))
    case Credits(id, credential, rotate) => s.(reg := Credit(s.reg, id, credential, rotate))
  }

  function After(d: Daemon, s: State, events: seq<Event>): State {
    if events == [] then s else Step(d, After(d, s, events[..|events| - 1]), events[|events| - 1])
  }

  const EMPTY := State(map[], map[])

  ghost predicate Stays(events: seq<Event>, id: string) {
    forall i :: 0 <= i < |events| ==> events[i] != Removes(id)
  }

  // ---- The revision stands for the record ----

  /** new is old with at most its notes changed, or a client has changed it since. */
  predicate Follows(before: Record, after: Record) {
    after == before.(notes := after.notes) || before.revision < after.revision
  }

  /** One step: a record changes but in its notes exactly when its revision moves, and then by one. */
  lemma StepFollows(d: Daemon, s: State, e: Event, id: string)
    requires id in s.reg && e != Removes(id)
    ensures id in Step(d, s, e).reg
    ensures var before, after := s.reg[id], Step(d, s, e).reg[id];
      after == before.(notes := after.notes) || after.revision == before.revision + 1
  {
  }

  /** The daemon's notes move no revision and change nothing a client sets. */
  lemma NotesLeaveTheRest(d: Daemon, s: State, e: Event, id: string)
    requires e.Probes? || e.Credits?
    ensures id in Step(d, s, e).reg <==> id in s.reg
    ensures id in s.reg ==> Step(d, s, e).reg[id] == s.reg[id].(notes := Step(d, s, e).reg[id].notes)
  {
  }

  /** Whether a record clashes is a matter of the other records' fields. */
  lemma SameClash(d: Daemon, a: Registry, b: Registry, id: string, fields: Fields)
    requires forall other :: other != id ==>
      (other in a <==> other in b) && (other in a ==> a[other].fields == b[other].fields)
    ensures Clash(d, a, id, fields) <==> Clash(d, b, id, fields)
  {
    if other :| other in a && other != id && Clashes(d, fields, other, a[other].fields) {
      assert other in b && Clashes(d, fields, other, b[other].fields);
    }
    if other :| other in b && other != id && Clashes(d, fields, other, b[other].fields) {
      assert other in a && Clashes(d, fields, other, a[other].fields);
    }
  }

  /** ... and refuse no update that would have been saved, nor the other way round. */
  lemma NotesNeverAbort(d: Daemon, s: State, e: Event, call: Call, unused: bool, now: int)
    requires e.Probes? || e.Credits?
    ensures var before, after := Commit(d, s.reg, call, unused, now), Commit(d, Step(d, s, e).reg, call, unused, now);
      && (before.Ok? <==> after.Ok?) && (before.Refused? ==> after == before)
      && (before.Ok? ==>
            var was, saved := before.value[call.request.id], after.value[call.request.id];
            saved == was.(notes := saved.notes))
  {
    forall id
      ensures id in Step(d, s, e).reg <==> id in s.reg
      ensures id in s.reg ==> Step(d, s, e).reg[id].fields == s.reg[id].fields
    {
      NotesLeaveTheRest(d, s, e, id);
    }
    NotesLeaveTheRest(d, s, e, call.request.id);
    SameClash(d, s.reg, Step(d, s, e).reg, call.request.id, call.next);
  }

  lemma {:induction false} RunFollows(d: Daemon, s: State, events: seq<Event>, id: string)
    requires id in s.reg && Stays(events, id)
    ensures id in After(d, s, events).reg && Follows(s.reg[id], After(d, s, events).reg[id])
  {
    if events != [] {
      var init, e := events[..|events| - 1], events[|events| - 1];
      RunFollows(d, s, init, id);
      StepFollows(d, After(d, s, init), e, id);
    }
  }

  // ---- The update is atomic ----

  /**
   Whatever comes between its read and its save, short of the record being
   removed, an update does what it would have done in one step at its save, or
   is refused because a client changed the record.
   */
  lemma UpdateIsAtomic(d: Daemon, s: State, request: Request, events: seq<Event>, unused: bool, now: int)
    requires Begin(d, s.reg, request).Ok? && Stays(events, request.id)
    ensures var reg, call := After(d, s, events).reg, Begin(d, s.reg, request).value;
      && request.id in reg
      && Commit(d, reg, call, unused, now)
         == if reg[request.id].revision == call.current.revision then Update(d, reg, request, unused, now)
             else Refused(Aborted)
  {
    RunFollows(d, s, events, request.id);
  }

  lemma {:induction false} AfterConcat(d: Daemon, s: State, a: seq<Event>, b: seq<Event>)
    ensures After(d, s, a + b) == After(d, After(d, s, a), b)
  {
    if b == [] {
      assert a + b == a;
    } else {
      assert (a + b)[..|a + b| - 1] == a + b[..|b| - 1];
      AfterConcat(d, s, a, b[..|b| - 1]);
    }
  }

  ghost predicate Open(events: seq<Event>, number: nat) {
    forall i :: 0 <= i < |events| ==> !(events[i].Commits? && events[i].number == number) && events[i] != Gives(number)
  }

  lemma {:induction false} CallStays(d: Daemon, s: State, events: seq<Event>, number: nat)
    requires number in s.calls && Open(events, number)
    ensures var calls := After(d, s, events).calls; number in calls && calls[number] == s.calls[number]
  {
    if events != [] {
      CallStays(d, s, events[..|events| - 1], number);
    }
  }

  /**
   So in every run of interleaved calls: the step that saves one leaves the registry one atomic
   update would have left.
   */
  lemma SavesAsOneStep(d: Daemon, s: State, number: nat, request: Request, events: seq<Event>, unused: bool, now: int)
    requires number !in s.calls && Begin(d, s.reg, request).Ok? && Open(events, number) && Stays(events, request.id)
    ensures var begun := Step(d, s, Begins(number, request));
      var n := After(d, begun, events);
      var saved := Step(d, n, Commits(number, unused, now)).reg;
      var update := Update(d, n.reg, request, unused, now);
      && request.id in n.reg
      && saved == if n.reg[request.id].revision == s.reg[request.id].revision && update.Ok? then update.value else n.reg
  {
    var begun := Step(d, s, Begins(number, request));
    assert begun.reg == s.reg;
    CallStays(d, begun, events, number);
    UpdateIsAtomic(d, begun, request, events, unused, now);
  }

  /**
   An editor that read a record and saves with its revision overwrites no
   change it did not see: if the update is saved, every client field it had
   read was still what the record held, and the record it leaves is the mask
   applied to what the editor read.
   */
  lemma EditorSawTheLatest(d: Daemon, s: State, reading: seq<Event>, request: Request, saving: seq<Event>,
      unused: bool, now: int)
    requires request.id in s.reg && request.expected == s.reg[request.id].revision != 0
    requires Stays(reading, request.id) && Stays(saving, request.id)
    ensures var seen, begun := s.reg[request.id], After(d, s, reading);
      Begin(d, begun.reg, request).Ok? ==>
        var reg := After(d, begun, saving).reg;
        var saved := Commit(d, reg, Begin(d, begun.reg, request).value, unused, now);
        saved.Ok? ==>
          && request.id in reg && reg[request.id].fields == seen.fields
          && saved.value[request.id].revision == seen.revision + 1
          && ApplyMask(d, seen.fields, request) == Ok(saved.value[request.id].fields)
  {
    RunFollows(d, s, reading, request.id);
    RunFollows(d, After(d, s, reading), saving, request.id);
  }

  // ---- Fields outside the mask ----

  const PATHS: Path := ["kubeconfig_paths"]

  /** The list of paths is a list, and cleaning it twice is cleaning it once. */
  ghost predicate Real(d: Daemon) {
    && PATHS[0] in d.kinds && d.kinds[PATHS[0]].Plain?
    && forall v :: d.clean(d.clean(v)) == d.clean(v)
  }

  ghost predicate Clean(d: Daemon, fields: Fields) {
    PATHS[0] in fields ==> d.clean(fields[PATHS[0]]) == fields[PATHS[0]]
  }

  /** Every record's list of paths is clean, and so is every update's under way. */
  ghost predicate Tidy(d: Daemon, s: State) {
    && (forall id :: id in s.reg ==> Clean(d, s.reg[id].fields))
    && (forall n :: n in s.calls ==> Clean(d, s.calls[n].next))
  }

  lemma CleanedIsClean(d: Daemon, fields: Fields)
    requires Real(d)
    ensures Clean(d, Cleaned(d, fields))
  {
  }

  lemma StepKeepsTidy(d: Daemon, s: State, e: Event)
    requires Tidy(d, s) && Real(d)
    ensures Tidy(d, Step(d, s, e))
  {
    match e
    case Adds(_, fields, _) => CleanedIsClean(d, fields);
    case Begins(_, request) =>
      var call := Begin(d, s.reg, request);
      if call.Ok? {
        CleanedIsClean(d, Copied(s.reg[request.id].fields, request.source, request.mask));
      }
    case _ =>
  }

  lemma {:induction false} AlwaysTidy(d: Daemon, events: seq<Event>)
    requires Real(d)
    ensures Tidy(d, After(d, EMPTY, events))
  {
    if events != [] {
      AlwaysTidy(d, events[..|events| - 1]);
      StepKeepsTidy(d, After(d, EMPTY, events[..|events| - 1]), events[|events| - 1]);
    }
  }

  lemma CleanedAt(d: Daemon, a: Fields, b: Fields, q: Path)
    requires q != [] && (q[0] == PATHS[0] ==> At(a, PATHS) == At(b, PATHS))
      && (q[0] != PATHS[0] ==> At(a, q) == At(b, q))
    ensures At(Cleaned(d, a), q) == At(Cleaned(d, b), q)
  {
  }

  /** A mask names the list of paths whole or not at all. */
  lemma PathsAreWhole(d: Daemon, mask: seq<Path>)
    requires Real(d) && ValidMask(d, mask)
    ensures Whole(mask, PATHS) && forall q :: q != [] && q[0] == PATHS[0] ==>
      (Covered(mask, q) <==> Covered(mask, PATHS))
  {
    forall i | 0 <= i < |mask| && mask[i][0] == PATHS[0] ensures mask[i] == PATHS {
      assert ValidPath(d.kinds, mask[i]);
    }
    forall q: Path | q != [] && q[0] == PATHS[0] ensures Covered(mask, q) <==> Covered(mask, PATHS) {
      if i :| 0 <= i < |mask| && Covers(mask[i], q) {
        assert mask[i][0] == q[0];
        assert Covers(mask[i], PATHS);
      }
      if i :| 0 <= i < |mask| && Covers(mask[i], PATHS) {
        assert mask[i][0] == PATHS[0];
        assert Covers(mask[i], q);
      }
    }
  }

  /** What a mask leaves in every field, the list of paths cleaned. */
  lemma MaskedAt(d: Daemon, current: Fields, request: Request, q: Path)
    requires Real(d) && Clean(d, current) && ValidMask(d, request.mask) && q != [] && Whole(request.mask, q)
    ensures At(ApplyMask(d, current, request).value, q)
         == if Covered(request.mask, q) then At(Cleaned(d, request.source), q) else At(current, q)
  {
    var next := Copied(current, request.source, request.mask);
    MaskMeaning(current, request.source, request.mask, q);
    PathsAreWhole(d, request.mask);
    MaskMeaning(current, request.source, request.mask, PATHS);
    if Covered(request.mask, q) {
      CleanedAt(d, next, request.source, q);
    } else {
      CleanedAt(d, next, current, q);
      assert Cleaned(d, current) == current;
    }
  }

  lemma MaskedEverywhere(d: Daemon, current: Fields, request: Request)
    ensures Real(d) && Clean(d, current) && ValidMask(d, request.mask) ==>
      forall q :: q != [] && Whole(request.mask, q) ==>
        At(ApplyMask(d, current, request).value, q) == if Covered(request.mask, q)
            then At(Cleaned(d, request.source), q) else At(current, q)
  {
    if Real(d) && Clean(d, current) && ValidMask(d, request.mask) {
      forall q | q != [] && Whole(request.mask, q)
        ensures At(ApplyMask(d, current, request).value, q) == if Covered(request.mask, q)
          then At(Cleaned(d, request.source), q) else At(current, q)
      {
        MaskedAt(d, current, request, q);
      }
    }
  }

  /**
   In every run: a saved update reads, in every field its mask does not touch,
   what the record held just before, and in every field its mask names, what the
   request carries.
   */
  lemma OnlyTheMaskChanges(d: Daemon, before: seq<Event>, request: Request, during: seq<Event>, unused: bool,
      now: int, q: Path)
    requires Real(d) && Stays(during, request.id) && q != [] && Whole(request.mask, q)
    ensures var s := After(d, EMPTY, before);
      Begin(d, s.reg, request).Ok? ==>
        var reg := After(d, s, during).reg;
        var saved := Commit(d, reg, Begin(d, s.reg, request).value, unused, now);
        saved.Ok? ==>
          request.id in reg && At(saved.value[request.id].fields, q) ==
            if Covered(request.mask, q) then At(Cleaned(d, request.source), q) else At(reg[request.id].fields, q)
  {
    var s := After(d, EMPTY, before);
    if Begin(d, s.reg, request).Ok? {
      AlwaysTidy(d, before + during);
      AfterConcat(d, EMPTY, before, during);
      var reg := After(d, s, during).reg;
      RunFollows(d, s, during, request.id);
      MaskedAt(d, reg[request.id].fields, request, q);
    }
  }

  // ---- A removed record's revision protects nothing ----

  /** The same field saved again: an update that moves nothing but the revision. */
  function Resave(id: string, fields: Fields): seq<Event> {
    var request := Request(id, fields, [["display_name"]], 0);
    [Begins(0, request), Commits(0, false, 0)]
  }

  function Resaves(id: string, fields: Fields, n: nat): seq<Event> {
    if n == 0 then [] else Resaves(id, fields, n - 1) + Resave(id, fields)
  }

  /** The other records' fields are as they were. */
  ghost predicate OthersKept(a: Registry, b: Registry, id: string) {
    forall other :: other != id ==> (other in a <==> other in b) && (other in a ==> a[other].fields == b[other].fields)
  }

  lemma OthersKeptOn(a: Registry, b: Registry, c: Registry, id: string)
    requires OthersKept(a, b, id) && OthersKept(b, c, id)
    ensures OthersKept(a, c, id)
  {
  }

  lemma AfterTwo(d: Daemon, s: State, first: Event, second: Event)
    ensures After(d, s, [first, second]) == Step(d, Step(d, s, first), second)
  {
    var both := [first, second];
    assert both[..1] == [first] && [first][..0] == [];
    assert After(d, s, [first]) == Step(d, After(d, s, []), first);
  }

  /** A record that can be saved again as it is. */
  ghost predicate Resavable(d: Daemon, s: State, id: string, fields: Fields) {
    && 0 !in s.calls && id in s.reg && s.reg[id].fields == fields
    && "display_name" in d.kinds && Clean(d, fields) && !Clash(d, s.reg, id, fields)
  }

  lemma ResaveBegins(d: Daemon, s: State, id: string, fields: Fields)
    requires Resavable(d, s, id, fields)
    ensures var request := Request(id, fields, [["display_name"]], 0);
      Begin(d, s.reg, request) == Ok(Call(request, s.reg[id], fields))
  {
    var request := Request(id, fields, [["display_name"]], 0);
    assert ValidPath(d.kinds, request.mask[0]) && ValidMask(d, request.mask);
    assert Copied(fields, fields, request.mask) == CopyPath(fields, fields, ["display_name"]) == fields;
    assert Cleaned(d, fields) == fields;
  }

  lemma Resaved(d: Daemon, s: State, id: string, fields: Fields)
    requires Resavable(d, s, id, fields)
    ensures var n := After(d, s, Resave(id, fields));
      && Resavable(d, n, id, fields) && n.reg[id].revision == s.reg[id].revision + 1 && OthersKept(s.reg, n.reg, id)
  {
    var request := Request(id, fields, [["display_name"]], 0);
    ResaveBegins(d, s, id, fields);
    AfterTwo(d, s, Begins(0, request), Commits(0, false, 0));
    var begun := Step(d, s, Begins(0, request));
    assert begun.reg == s.reg && begun.calls[0] == Call(request, s.reg[id], fields);
    var n := Step(d, begun, Commits(0, false, 0));
    assert OthersKept(s.reg, n.reg, id);
    SameClash(d, s.reg, n.reg, id, fields);
  }

  /** n is what some resaves of a record made of s. */
  ghost predicate ResavedTo(d: Daemon, s: State, n: State, id: string, fields: Fields, times: nat) {
    && Resavable(d, s, id, fields) && Resavable(d, n, id, fields)
    && n.reg[id].revision == s.reg[id].revision + times && OthersKept(s.reg, n.reg, id)
  }

  lemma ResavedOnce(d: Daemon, s: State, r: State, id: string, fields: Fields, times: nat)
    ensures ResavedTo(d, s, r, id, fields, times) ==>
      ResavedTo(d, s, After(d, r, Resave(id, fields)), id, fields, times + 1)
  {
    if ResavedTo(d, s, r, id, fields, times) {
      Resaved(d, r, id, fields);
      OthersKeptOn(s.reg, r.reg, After(d, r, Resave(id, fields)).reg, id);
    }
  }

  lemma {:induction false} ResavedMany(d: Daemon, s: State, id: string, fields: Fields, n: nat)
    requires Resavable(d, s, id, fields)
    ensures ResavedTo(d, s, After(d, s, Resaves(id, fields, n)), id, fields, n)
  {
    if n > 0 {
      ResavedMany(d, s, id, fields, n - 1);
      AfterConcat(d, s, Resaves(id, fields, n - 1), Resave(id, fields));
      ResavedOnce(d, s, After(d, s, Resaves(id, fields, n - 1)), id, fields, n - 1);
    }
  }

  /**
   The protection ends exactly where the record does: whatever revision an
   editor read, a removal can be followed by a connection that is given the
   removed one's id, as one with a context of the same slug can be, and reaches
   that revision with any other fields the uniqueness check admits. The
   editor's save, revision and all, is then not refused as out of date: it
   passes unless what it makes clashes.
   */
  lemma RemovalUnprotects(d: Daemon, s: State, request: Request, other: Fields) returns (events: seq<Event>)
    requires 0 !in s.calls && request.id in s.reg && request.expected == s.reg[request.id].revision != 0
    requires "display_name" in d.kinds && Clean(d, other) && ValidMask(d, request.mask)
    requires Minted(d, TextAt(other, ["context"]), request.id) && !Clash(d, s.reg, request.id, other)
    ensures !Stays(events, request.id)
    ensures var reg := After(d, s, events).reg;
      && request.id in reg && reg[request.id].fields == other
      && Update(d, reg, request, false, 0) != Refused(Aborted)
      && (Update(d, reg, request, false, 0).Ok? <==> !Clash(d, s.reg, request.id, ApplyMask(d, other, request).value))
  {
    var id := request.id;
    var added := Replaced(d, s, id, other);
    var swap := [Removes(id), Adds(id, other, 0)];
    var n := request.expected - 1;
    events := swap + Resaves(id, other, n);
    assert events[0] == Removes(id);
    AfterConcat(d, s, swap, Resaves(id, other, n));
    SameClash(d, s.reg, added.reg, id, other);
    ResavedMany(d, added, id, other, n);
    OthersKeptOn(s.reg, added.reg, After(d, s, events).reg, id);
    SameClash(d, s.reg, After(d, s, events).reg, id, ApplyMask(d, other, request).value);
  }

  lemma Replaced(d: Daemon, s: State, id: string, other: Fields) returns (added: State)
    requires Clean(d, other) && Minted(d, TextAt(other, ["context"]), id) && !Clash(d, s.reg, id, other)
    ensures added == After(d, s, [Removes(id), Adds(id, other, 0)])
    ensures id in added.reg && added.reg[id].fields == other && added.reg[id].revision == 1 && added.calls == s.calls
    ensures OthersKept(s.reg, added.reg, id)
  {
    AfterTwo(d, s, Removes(id), Adds(id, other, 0));
    var removed := Step(d, s, Removes(id));
    assert Cleaned(d, other) == other;
    SameClash(d, s.reg, removed.reg, id, other);
    added := Step(d, removed, Adds(id, other, 0));
  }

  // ---- Names and places stay unique ----

  /** No two display names are the same in lower case, and no two records are one place. */
  ghost predicate Unique(d: Daemon, reg: Registry) {
    forall a, b :: a in reg && b in reg && a != b ==> Apart(d, reg[a].fields, reg[b].fields)
  }

  predicate Apart(d: Daemon, these: Fields, those: Fields) {
    && (NameOf(these) != "" && NameOf(those) != "" ==>
          K.Lowered(d.lower, NameOf(these)) != K.Lowered(d.lower, NameOf(those)))
    && Place(d, these) != Place(d, those)
  }

  /** A record that clashes with none can be put in its place. */
  lemma PutKeepsUnique(d: Daemon, reg: Registry, id: string, r: Record)
    requires Unique(d, reg) && !Clash(d, reg, id, r.fields)
    ensures Unique(d, reg[id := r])
  {
    forall other | other in reg && other != id
      ensures Apart(d, r.fields, reg[other].fields) && Apart(d, reg[other].fields, r.fields)
    {
      assert !Clashes(d, r.fields, other, reg[other].fields);
    }
  }

  lemma StepKeepsUnique(d: Daemon, s: State, e: Event)
    requires Unique(d, s.reg)
    ensures Unique(d, Step(d, s, e).reg)
  {
    match e
    case Adds(id, fields, now) =>
      if !Clash(d, s.reg, id, Cleaned(d, fields)) {
        PutKeepsUnique(d, s.reg, id, Record(Cleaned(d, fields), Notes("", "", 0, ""), now, now, 1));
      }
    case Commits(number, unused, now) =>
      if number in s.calls {
        CommitKeepsUnique(d, s.reg, s.calls[number], unused, now);
      }
    case _ =>
  }

  lemma CommitKeepsUnique(d: Daemon, reg: Registry, call: Call, unused: bool, now: int)
    requires Unique(d, reg)
    ensures var saved := Commit(d, reg, call, unused, now); saved.Ok? ==> Unique(d, saved.value)
  {
    var saved := Commit(d, reg, call, unused, now);
    if saved.Ok? {
      PutKeepsUnique(d, reg, call.request.id, saved.value[call.request.id]);
    }
  }

  /**
   In every run of interleaved additions, updates, removals and notes, however long an update waits
   before it is saved.
   */
  lemma {:induction false} AlwaysUnique(d: Daemon, events: seq<Event>)
    ensures Unique(d, After(d, EMPTY, events).reg)
  {
    if events != [] {
      AlwaysUnique(d, events[..|events| - 1]);
      StepKeepsUnique(d, After(d, EMPTY, events[..|events| - 1]), events[|events| - 1]);
    }
  }

  // ---- The registry as the daemon holds it ----

  method ApplyKubeMask(d: Daemon, current: Fields, request: Request) returns (r: Result<Fields>)
    ensures r == ApplyMask(d, current, request)
  {
    var mask := request.mask;
    if mask == [] {
      return Refused(InvalidArgument);
    }
    for i := 0 to |mask|
      invariant forall j :: 0 <= j < i ==> mask[j] != [] && mask[j][0] !in DAEMON_OWNED
    {
      if mask[i] == [] || mask[i][0] in DAEMON_OWNED {
        return Refused(InvalidArgument);
      }
    }
    for i := 0 to |mask|
      invariant forall j :: 0 <= j < i ==> ValidPath(d.kinds, mask[j])
    {
      if !ValidPath(d.kinds, mask[i]) {
        return Refused(InvalidArgument);
      }
    }
    var next := CopyMask(current, request.source, mask);
    r := Ok(Cleaned(d, next));
  }

  /** Each method is one read or one locked change of the file. */
  class Clusters {
    var reg: Registry

    constructor ()
      ensures reg == map[]
    {
      reg := map[];
    }

    /**
     What is worked out is the mask applied to the record as it was read: every field it does not
     cover reads as before.
     */
    method BeginUpdate(d: Daemon, request: Request) returns (r: Result<Call>)
      ensures r == Begin(d, reg, request)
      ensures r == Refused(NotFound) <==> request.id !in reg
      ensures r == Refused(Aborted) <==>
        request.id in reg && request.expected != 0 && request.expected != reg[request.id].revision
      ensures r.Ok? ==> request.id in reg && r.value.current == reg[request.id] && r.value.request == request
      ensures r.Ok? ==> ValidMask(d, request.mask)
      ensures r.Ok? && Real(d) && Clean(d, reg[request.id].fields) ==>
        forall q :: q != [] && Whole(request.mask, q) ==>
          At(r.value.next, q) == if Covered(request.mask, q) then At(Cleaned(d, request.source), q)
              else At(reg[request.id].fields, q)
    {
      if request.id !in reg {
        return Refused(NotFound);
      }
      var current := reg[request.id];
      if request.expected != 0 && request.expected != current.revision {
        return Refused(Aborted);
      }
      var next := ApplyKubeMask(d, current.fields, request);
      if next.Refused? {
        return Refused(next.code);
      }
      MaskedEverywhere(d, current.fields, request);
      r := Ok(Call(request, current, next.value));
    }

    /**
     A save replaces this record only and moves its revision by one; a refusal changes nothing, and
     says exactly why.
     */
    method CommitUpdate(d: Daemon, call: Call, unused: bool, now: int) returns (refused: Option<Code>)
      modifies this
      ensures match Commit(d, old(reg), call, unused, now)
        case Ok(saved) => refused == None && reg == saved
        case Refused(code) => refused == Some(code)
      ensures refused.Some? ==> reg == old(reg)
      ensures refused == Some(Aborted) <==>
        call.request.id in old(reg) && old(reg)[call.request.id].revision != call.current.revision
      ensures refused == None ==>
        && reg.Keys == old(reg).Keys && call.request.id in reg
        && (forall id :: id in reg && id != call.request.id ==> reg[id] == old(reg)[id])
        && reg[call.request.id].revision == old(reg)[call.request.id].revision + 1
        && reg[call.request.id].fields == call.next
        && reg[call.request.id].notes.credential == old(reg)[call.request.id].notes.credential
        && (Target(call.current.fields) == Target(call.next) ==>
              reg[call.request.id].notes == old(reg)[call.request.id].notes)
      ensures Unique(d, old(reg)) ==> Unique(d, reg)
    {
      var id := call.request.id;
      if id !in reg {
        return Some(NotFound);
      }
      var stored := reg[id];
      if stored.revision != call.current.revision {
        return Some(Aborted);
      }
      var clash := FindClash(d, id, call.next);
      if clash {
        return Some(AlreadyExists);
      }
      if Unique(d, reg) {
        CommitKeepsUnique(d, reg, call, unused, now);
      }
      var notes := stored.notes;
      if Target(call.current.fields) != Target(call.next) && unused {
        notes := notes.(server := "", uid := "");
      }
      reg := reg[id := call.current.(fields := call.next, notes := notes, updated := now,
          revision := call.current.revision + 1)];
      refused := None;
    }

    method FindClash(d: Daemon, id: string, fields: Fields) returns (clash: bool)
      ensures clash == Clash(d, reg, id, fields)
    {
      var others := reg.Keys;
      while others != {}
        invariant others <= reg.Keys
        invariant forall other :: other in reg && other !in others && other != id ==>
          !Clashes(d, fields, other, reg[other].fields)
      {
        var other :| other in others;
        if other != id && Clashes(d, fields, other, reg[other].fields) {
          return true;
        }
        others := others - {other};
      }
      clash := false;
    }

    method PersistBookkeeping(id: string, probe: Probe) returns (changed: bool)
      modifies this
      ensures reg == Bookkeep(old(reg), id, probe)
      ensures !changed ==> reg == old(reg)
    {
      changed := false;
      if id !in reg || Key(reg[id].fields) != Key(probe.fields) {
        return;
      }
      var notes := reg[id].notes;
      if probe.server != "" && notes.server != probe.server {
        notes, changed := notes.(server := probe.server), true;
      }
      if probe.uid != "" && notes.uid != probe.uid && (notes.uid == "" || probe.replace) {
        notes, changed := notes.(uid := probe.uid), true;
      }
      if probe.verified.Some? && probe.verified.value - notes.verified >= VERIFIED_EVERY {
        notes, changed := notes.(verified := probe.verified.value), true;
      }
      assert notes == Noted(reg[id].notes, probe);
      if changed {
        reg := reg[id := reg[id].(notes := notes)];
      } else {
        assert reg[id := reg[id].(notes := notes)] == reg;
      }
    }
  }
}
