/**
 Parallel uploads (integration/net/client.py): the main thread starts one worker
 a connection, joins them all and counts the slots that say something; each
 worker writes its own slot, in any order.
 */
module Upload {
  import opened Bytes

  /** How a worker ends: with a reply and how long it took, with an OSError, or with an error nothing catches. */
  datatype Ending = Answered(reply: string, waited: real) | Failed(error: string) | Raised

  datatype Problem = WrongReply(reply: string, waited: real) | Early(waited: real) | Broken(index: nat, error: string)

  /** What every worker is asked: the reply it wants, and how late that must come. */
  datatype Job = Job(want: string, late: real, endings: seq<Ending>)

  predicate Succeeds(job: Job, i: nat)
    requires i < |job.endings|
  {
    match job.endings[i]
    case Answered(reply, waited) => reply == job.want && waited >= job.late - 0.5
    case _ => false
  }

  /** What a worker leaves in its slot: nothing is a success, and a slot that is not written still holds nothing. */
  function Slot(job: Job, i: nat): Option<Problem>
    requires i < |job.endings|
  {
    match job.endings[i]
    case Answered(reply, waited) =>
      if reply != job.want then Some(WrongReply(reply, waited))
      else if waited < job.late - 0.5 then Some(Early(waited))
      else None
    case Failed(error) => Some(Broken(i, error))
    case Raised => None
  }

  lemma SlotMeans(job: Job, i: nat)
    requires i < |job.endings|
    ensures Slot(job, i) == None <==> Succeeds(job, i) || job.endings[i] == Raised
  {
  }

  // ---- The threads ----

  datatype Phase = Unstarted | Running | Finished

  datatype Main = Starting(next: nat) | Joining(next: nat) | Exited(errors: seq<Problem>)

  datatype State = State(results: seq<Option<Problem>>, phases: seq<Phase>, main: Main)

  datatype Event = MainRuns | WorkerEnds(index: nat)

  function Start(job: Job): State {
    State(seq(|job.endings|, i => None), seq(|job.endings|, i => Unstarted), Starting(0))
  }

  /** Errors, in slot order: what the command fails with. */
  function Errors(results: seq<Option<Problem>>): (errors: seq<Problem>) {
    if results == [] then []
    else
      var last := |results| - 1;
      Errors(results[..last]) + if results[last].Some? then [results[last].value] else []
  }

  /** A thread that cannot run, the main one waiting for a join included, leaves things as they are. */
  function Step(job: Job, s: State, e: Event): State {
    match e
    case MainRuns => (
      match s.main
      case Starting(next) =>
        if next < |s.phases| then s.(phases := s.phases[next := Running], main := Starting(next + 1))
            else s.(main := Joining(0))
      case Joining(next) =>
        if next >= |s.phases| then s.(main := Exited(Errors(s.results)))
        else if s.phases[next] == Finished then s.(main := Joining(next + 1)) else s
      case Exited(_) => s)
    case WorkerEnds(i) =>
      if i < |s.phases| && i < |s.results| && i < |job.endings| && s.phases[i] == Running then
        var results := if job.endings[i] == Raised then s.results else s.results[i := Slot(job, i)];
        s.(results := results, phases := s.phases[i := Finished])
      else s
  }

  function After(job: Job, events: seq<Event>): State {
    if events == [] then Start(job) else Step(job, After(job, events[..|events| - 1]), events[|events| - 1])
  }

  // ---- Every interleaving ----

  function StartedBelow(s: State): nat {
    if s.main.Starting? then s.main.next else |s.phases|
  }

  function JoinedBelow(s: State): nat {
    match s.main case Starting(_) => 0 case Joining(next) => next case Exited(_) => |s.phases|
  }

  ghost predicate Valid(job: Job, s: State) {
    && |s.results| == |s.phases| == |job.endings|
    && StartedBelow(s) <= |s.phases| && JoinedBelow(s) <= |s.phases|
    && (forall i :: 0 <= i < |s.phases| ==> s.results[i] == if s.phases[i] == Finished then Slot(job, i) else None)
    && (forall i :: 0 <= i < |s.phases| ==> (s.phases[i] == Unstarted <==> StartedBelow(s) <= i))
    && (forall i :: 0 <= i < JoinedBelow(s) ==> s.phases[i] == Finished)
    && (s.main.Exited? ==> s.main.errors == Errors(s.results))
  }

  lemma StepKeepsValid(job: Job, s: State, e: Event)
    requires Valid(job, s)
    ensures Valid(job, Step(job, s, e))
  {
  }

  lemma {:induction false} AlwaysValid(job: Job, events: seq<Event>)
    ensures Valid(job, After(job, events))
  {
    if events != [] {
      AlwaysValid(job, events[..|events| - 1]);
      StepKeepsValid(job, After(job, events[..|events| - 1]), events[|events| - 1]);
    }
  }

  /** The errors the workers ended in, in order. */
  function Reported(job: Job, n: nat): (errors: seq<Problem>)
    requires n <= |job.endings|
    ensures errors == [] <==> forall i :: 0 <= i < n ==> Slot(job, i) == None
  {
    if n == 0 then []
    else Reported(job, n - 1) + if Slot(job, n - 1).Some? then [Slot(job, n - 1).value] else []
  }

  lemma {:induction false} ErrorsReported(job: Job, results: seq<Option<Problem>>)
    requires |results| <= |job.endings| && forall i :: 0 <= i < |results| ==> results[i] == Slot(job, i)
    ensures Errors(results) == Reported(job, |results|)
  {
    if results != [] {
      ErrorsReported(job, results[..|results| - 1]);
    }
  }

  /**
   However the threads interleave: when the command ends every slot holds its
   own worker's outcome and the errors are theirs, in order.
   */
  lemma EverySlotIsItsOwn(job: Job, events: seq<Event>)
    requires After(job, events).main.Exited?
    ensures var s := After(job, events);
      && |s.results| == |job.endings| && (forall i :: 0 <= i < |s.results| ==> s.results[i] == Slot(job, i))
      && s.main.errors == Reported(job, |job.endings|)
  {
    AlwaysValid(job, events);
    ErrorsReported(job, After(job, events).results);
  }

  /**
   The command succeeds exactly when every worker succeeded or died of an
   error nothing catches: exactly when every worker succeeded, if none died so.
   */
  lemma SucceedsIff(job: Job, events: seq<Event>)
    requires After(job, events).main.Exited?
    ensures After(job, events).main.errors == [] <==>
      forall i :: 0 <= i < |job.endings| ==> Succeeds(job, i) || job.endings[i] == Raised
  {
    EverySlotIsItsOwn(job, events);
    forall i | 0 <= i < |job.endings| ensures Slot(job, i) == None <==> Succeeds(job, i) || job.endings[i] == Raised {
      SlotMeans(job, i);
    }
  }

  /** A worker that died of an uncaught error passes for one that succeeded. */
  lemma RaisedPasses(want: string) returns (job: Job, events: seq<Event>)
    ensures job.want == want && |job.endings| == 1 && !Succeeds(job, 0)
    ensures After(job, events).main == Exited([])
  {
    job := Job(want, 0.0, [Raised]);
    var m, w := MainRuns, WorkerEnds(0);
    var s0 := Start(job);
    var s1 := Step(job, s0, m);
    var s2 := Step(job, s1, w);
    var s3 := Step(job, s2, m);
    var s4 := Step(job, s3, m);
    var s5 := Step(job, s4, m);
    events := [m, w, m, m, m];
    assert events[..4] == [m, w, m, m] && [m, w, m, m][..3] == [m, w, m] && [m, w, m][..2] == [m, w]
      && [m, w][..1] == [m] && [m][..0] == [];
    assert After(job, [m]) == s1;
    assert After(job, [m, w]) == s2;
    assert After(job, [m, w, m]) == s3;
    assert After(job, [m, w, m, m]) == s4;
    assert s4.results == [None] && Errors(s4.results) == Errors(s4.results[..0]);
    assert s4.main == Joining(1) && s5.main == Exited([]);
    assert After(job, events) == s5;
  }

  /** Until it ends, some thread can always run: the joins wait for nothing that will not come. */
  lemma NeverStuck(job: Job, events: seq<Event>)
    requires !After(job, events).main.Exited?
    ensures exists e :: Step(job, After(job, events), e) != After(job, events)
  {
    AlwaysValid(job, events);
    var s := After(job, events);
    match s.main
    case Joining(next) =>
      if next < |s.phases| && s.phases[next] != Finished {
        assert s.phases[next] == Running;
        assert Step(job, s, WorkerEnds(next)).phases[next] == Finished;
      } else {
        assert Step(job, s, MainRuns).main != s.main;
      }
    case Starting(_) => assert Step(job, s, MainRuns).main != s.main;
    case Exited(_) =>
  }

  // ---- The slots as the threads share them ----

  method UploadOnce(job: Job, results: array<Option<Problem>>, index: nat)
    requires index < |job.endings| == results.Length && results[index] == None
    modifies results
    ensures results[..] == old(results[..])[index := Slot(job, index)]
  {
    match job.endings[index]
    case Answered(reply, waited) =>
      if reply != job.want {
        results[index] := Some(WrongReply(reply, waited));
      } else if waited < job.late - 0.5 {
        results[index] := Some(Early(waited));
      } else {
        results[index] := None;
      }
    case Failed(error) => results[index] := Some(Broken(index, error));
    case Raised =>
  }

  method CollectErrors(results: array<Option<Problem>>) returns (errors: seq<Problem>)
    ensures errors == Errors(results[..])
  {
    errors := [];
    for i := 0 to results.Length
      invariant errors == Errors(results[..i])
    {
      assert results[..i + 1][..i] == results[..i];
      if results[i].Some? {
        errors := errors + [results[i].value];
      }
    }
    assert results[..results.Length] == results[..];
  }
}
