/**
 What becomes of every request frame of a relayed connection, over whole runs
 of `AgentLink`: which frames the provider took and which it left out, because
 its queue was full, the frame too long or the connection gone.
 */
module AgentOrder {
  import opened Bytes
  import opened AgentLink

  /** A frame that reached the provider, and whether it was queued for the serve loop. */
  datatype Fate = Fate(data: bytes, kept: bool)

  /** The frame a step brings to the provider. */
  function Arriving(l: Link, st: Step): bytes
    requires Can(l, st)
  {
    if st.DeliverDown? && l.wire[0].Request? then l.wire[0].data else []
  }

  /** The connection is not in the provider's table: it ended, or the stream did. */
  predicate Gone(l: Link) {
    l.ended || l.provider.phase.Finished?
  }

  /** The guard of the branch that aborts the connection: a frame that is too long or finds the queue full. */
  predicate Overflows(l: Link, st: Step)
    requires Can(l, st)
  {
    && Arriving(l, st) != [] && Live(l.provider) && !l.ended
    && (|Arriving(l, st)| > MAX_FRAME || |l.provider.queue| >= QUEUE)
  }

  predicate Keeps(l: Link, st: Step)
    requires Can(l, st)
  {
    Arriving(l, st) != [] && Live(l.provider) && !l.ended && !Overflows(l, st)
  }

  function FateOf(l: Link, st: Step): seq<Fate>
    requires Can(l, st)
  {
    if Arriving(l, st) == [] then [] else [Fate(Arriving(l, st), Keeps(l, st))]
  }

  /** The fate of every frame a run brings to the provider, in order of arrival. */
  ghost function Fates(l: Link, steps: seq<Step>): seq<Fate>
    requires Runs(l, steps)
    decreases |steps|
  {
    if steps == [] then [] else FateOf(l, steps[0]) + Fates(Next(l, steps[0]), steps[1..])
  }

  /** The bytes of all the frames, and of those the provider took. */
  function Brought(fs: seq<Fate>): bytes {
    if fs == [] then [] else fs[0].data + Brought(fs[1..])
  }

  function Taken(fs: seq<Fate>): bytes {
    if fs == [] then [] else (if fs[0].kept then fs[0].data else []) + Taken(fs[1..])
  }

  predicate AnyKept(fs: seq<Fate>) {
    exists i :: 0 <= i < |fs| && fs[i].kept
  }

  /** No frame is taken after one was left out. */
  predicate Gapless(fs: seq<Fate>) {
    forall i, j :: 0 <= i < j < |fs| && fs[j].kept ==> fs[i].kept
  }

  // ---- Every byte is accounted for ----

  lemma RelayAccounts(l: Link, e: RelayEvent, before: bytes)
    requires CanRelay(l.server, e, l.lost) && before + RequestBytes(l.wire + l.out) == l.server.sent
    ensures before + RequestBytes(l.wire + (l.out + Queued(e))) == Relay(l.server, e, l.lost).sent
  {
    var added := if e.Read? then e.data else [];
    QueuedBytes(l.wire, l.out, e);
    assert Relay(l.server, e, l.lost).sent == l.server.sent + added;
    Regroup(before, RequestBytes(l.wire + l.out), added, []);
  }

  lemma FrameAccounts(m: Down, later: seq<Down>, before: bytes)
    ensures var data := if m.Request? then m.data else [];
      before + RequestBytes([m] + later) == before + data + RequestBytes(later)
  {
    var data := if m.Request? then m.data else [];
    BytesAhead(m, later);
    Regroup(before, data, RequestBytes(later), []);
  }

  lemma SendingKeepsBytes(l: Link, st: Step)
    requires Can(l, st) && (st.Send? || st.Flush?)
    ensures RequestBytes(Next(l, st).wire + Next(l, st).out) == RequestBytes(l.wire + l.out)
  {
    var n := Next(l, st);
    if st.Send? {
      assert n.wire + n.out == l.wire + l.out;
    } else {
      assert n.wire + n.out == (l.wire + l.out) + Closes(l.closes);
      RequestBytesSplit(l.wire + l.out, Closes(l.closes));
      NoRequestBytes(Closes(l.closes));
    }
  }

  lemma StepAccounts(l: Link, st: Step, before: bytes)
    requires Can(l, st) && before + RequestBytes(l.wire + l.out) == l.server.sent
    ensures var n := Next(l, st); before + Arriving(l, st) + RequestBytes(n.wire + n.out) == n.server.sent
  {
    var n := Next(l, st);
    assert before + [] == before;
    match st
    case Relays(e) =>
      RelayAccounts(l, e, before);
    case Send => SendingKeepsBytes(l, st);
    case Flush => SendingKeepsBytes(l, st);
    case DeliverDown =>
      assert l.wire + l.out == [l.wire[0]] + (n.wire + n.out);
      FrameAccounts(l.wire[0], n.wire + n.out, before);
    case _ =>
  }

  lemma StepTakes(l: Link, st: Step)
    requires Can(l, st)
    ensures Next(l, st).provider.got == l.provider.got + Taken(FateOf(l, st))
    ensures Brought(FateOf(l, st)) == Arriving(l, st)
  {
    var fs := FateOf(l, st);
    assert fs != [] ==> fs[1..] == [];
  }

  lemma {:induction false} BroughtSplits(a: seq<Fate>, b: seq<Fate>)
    ensures Brought(a + b) == Brought(a) + Brought(b) && Taken(a + b) == Taken(a) + Taken(b)
  {
    if a == [] {
      assert a + b == b;
    } else {
      assert (a + b)[1..] == a[1..] + b;
      BroughtSplits(a[1..], b);
    }
  }

  lemma {:induction false} RunAccounts(l: Link, steps: seq<Step>, before: bytes)
    requires Runs(l, steps) && before + RequestBytes(l.wire + l.out) == l.server.sent
    ensures var n, fs := After(l, steps), Fates(l, steps);
      && before + Brought(fs) + RequestBytes(n.wire + n.out) == n.server.sent
      && n.provider.got == l.provider.got + Taken(fs)
    decreases |steps|
  {
    if steps != [] {
      var st, n := steps[0], Next(l, steps[0]);
      var first, later := FateOf(l, st), Fates(n, steps[1..]);
      StepAccounts(l, st, before);
      StepTakes(l, st);
      RunAccounts(n, steps[1..], before + Arriving(l, st));
      BroughtSplits(first, later);
      Regroup(before, Brought(first), Brought(later), []);
      Regroup(l.provider.got, Taken(first), Taken(later), []);
    }
  }

  /**
   In every run: the bytes sent are those of the frames that arrived, in order,
   and then those still under way; the bytes received are the same frames with
   some left out whole.
   */
  lemma WholeFramesInOrder(steps: seq<Step>)
    requires Runs(START, steps)
    ensures var l, fs := After(START, steps), Fates(START, steps);
      l.server.sent == Brought(fs) + RequestBytes(l.wire + l.out) && l.provider.got == Taken(fs)
  {
    var fs := Fates(START, steps);
    assert RequestBytes(START.wire + START.out) == [] && START.server.sent == [] && START.provider.got == [];
    RunAccounts(START, steps, []);
    assert [] + Brought(fs) == Brought(fs) && [] + Taken(fs) == Taken(fs);
  }

  // ---- When none is left out before another ----

  /** A frame overflows and a later one is taken all the same. */
  ghost predicate Refills(l: Link, steps: seq<Step>)
    requires Runs(l, steps)
    decreases |steps|
  {
    steps != [] &&
    (var n := Next(l, steps[0]);
     (Overflows(l, steps[0]) && AnyKept(Fates(n, steps[1..]))) || Refills(n, steps[1..]))
  }

  lemma {:induction false} RefillKeeps(l: Link, steps: seq<Step>)
    requires Runs(l, steps)
    ensures Refills(l, steps) ==> AnyKept(Fates(l, steps))
    decreases |steps|
  {
    if steps != [] {
      var n := Next(l, steps[0]);
      var later := Fates(n, steps[1..]);
      RefillKeeps(n, steps[1..]);
      if AnyKept(later) {
        var i :| 0 <= i < |later| && later[i].kept;
        assert Fates(l, steps)[|FateOf(l, steps[0])| + i].kept;
      }
    }
  }

  lemma GoneStays(l: Link, st: Step)
    requires Can(l, st) && Gone(l)
    ensures Gone(Next(l, st)) && !Keeps(l, st)
  {
  }

  lemma {:induction false} GoneKeepsNothing(l: Link, steps: seq<Step>)
    requires Runs(l, steps) && Gone(l)
    ensures !AnyKept(Fates(l, steps))
    decreases |steps|
  {
    if steps != [] {
      GoneStays(l, steps[0]);
      GoneKeepsNothing(Next(l, steps[0]), steps[1..]);
    }
  }

  /** A frame is left out only when it overflows or the connection is gone. */
  lemma LeftOutWhy(l: Link, st: Step)
    requires Inv(l) && Can(l, st) && Arriving(l, st) != []
    ensures Keeps(l, st) || Overflows(l, st) || Gone(l)
  {
    assert l.wire[0] in l.wire + l.out;
  }

  lemma GaplessStep(first: seq<Fate>, later: seq<Fate>)
    requires |first| <= 1
    ensures Gapless(first + later) <==> Gapless(later) && (first != [] && !first[0].kept ==> !AnyKept(later))
  {
    var all := first + later;
    assert forall i :: 0 <= i < |later| ==> all[|first| + i] == later[i];
    if Gapless(all) {
      forall i, j | 0 <= i < j < |later| && later[j].kept ensures later[i].kept {
        assert all[|first| + j].kept ==> all[|first| + i].kept;
      }
      forall j | first != [] && 0 <= j < |later| && later[j].kept ensures first[0].kept {
        assert all[1 + j].kept ==> all[0].kept;
      }
    }
  }

  lemma NoneKeptIsGapless(fs: seq<Fate>)
    requires !AnyKept(fs)
    ensures Gapless(fs)
  {
  }

  /** Exactly when no frame is taken after one was left out: when none is after an overflow. */
  lemma {:induction false} GaplessIff(l: Link, steps: seq<Step>)
    requires Inv(l) && Runs(l, steps)
    ensures Gapless(Fates(l, steps)) <==> !Refills(l, steps)
    decreases |steps|
  {
    if steps != [] {
      var st, n := steps[0], Next(l, steps[0]);
      var first, later := FateOf(l, st), Fates(n, steps[1..]);
      InvKept(l, st);
      GaplessIff(n, steps[1..]);
      RefillKeeps(n, steps[1..]);
      GaplessStep(first, later);
      if Arriving(l, st) != [] && !Keeps(l, st) {
        LeftOutWhy(l, st);
        if Gone(l) {
          GoneStays(l, st);
          GoneKeepsNothing(n, steps[1..]);
        } else if !AnyKept(later) {
          NoneKeptIsGapless(later);
        }
      }
    }
  }

  lemma {:induction false} GaplessIsPrefix(fs: seq<Fate>)
    requires Gapless(fs)
    ensures Taken(fs) <= Brought(fs)
  {
    if fs != [] {
      assert fs == [fs[0]] + fs[1..];
      GaplessStep([fs[0]], fs[1..]);
      if fs[0].kept {
        GaplessIsPrefix(fs[1..]);
      } else {
        NothingTaken(fs[1..]);
      }
    }
  }

  lemma {:induction false} NothingTaken(fs: seq<Fate>)
    requires !AnyKept(fs)
    ensures Taken(fs) == []
  {
    if fs != [] {
      assert !fs[0].kept;
      NothingTaken(fs[1..]);
    }
  }

  /**
   In every run in which no frame is taken after an overflow, however the
   connection and its stream end, the bytes the provider received are a prefix
   of those sent to it.
   */
  lemma RequestsInOrder(steps: seq<Step>)
    requires Runs(START, steps) && !Refills(START, steps)
    ensures var l := After(START, steps); l.provider.got <= l.server.sent
  {
    InvAtStart();
    GaplessIff(START, steps);
    GaplessIsPrefix(Fates(START, steps));
    WholeFramesInOrder(steps);
  }

  /** No step of the run overflows. */
  ghost predicate NeverOverflows(l: Link, steps: seq<Step>)
    requires Runs(l, steps)
    decreases |steps|
  {
    steps == [] || (!Overflows(l, steps[0]) && NeverOverflows(Next(l, steps[0]), steps[1..]))
  }

  /** So in particular when no frame is too long or finds the queue full. */
  lemma {:induction false} NoOverflowNoRefill(l: Link, steps: seq<Step>)
    requires Runs(l, steps) && NeverOverflows(l, steps)
    ensures !Refills(l, steps)
    decreases |steps|
  {
    if steps != [] {
      NoOverflowNoRefill(Next(l, steps[0]), steps[1..]);
    }
  }

  /** A connection that was not aborted never overflowed. */
  lemma {:induction false} UnabortedNeverOverflows(l: Link, steps: seq<Step>)
    requires Runs(l, steps) && !After(l, steps).provider.input.Abort?
    ensures NeverOverflows(l, steps) && !l.provider.input.Abort?
    decreases |steps|
  {
    if steps != [] {
      UnabortedNeverOverflows(Next(l, steps[0]), steps[1..]);
    }
  }
}
