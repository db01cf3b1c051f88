// The manager: it splits the range of words over scanner units, watches them from its
// alarm, and declares the run finished.

// All units together, as a state machine over handler calls and alarms.
module RunModel {
  import opened Words
  import opened Feeder
  import opened UnitModel

  datatype Range = Range(start: Word, final: Word)

  // The ranges follow one another without gap or overlap and make up [first, last].
  ghost predicate Consecutive(ranges: seq<Range>, first: Word, last: Word)
  {
    && |ranges| > 0 && ranges[0].start == first && ranges[|ranges| - 1].final == last
    && (forall i :: 0 <= i < |ranges| ==> ranges[i].start <= ranges[i].final)
    && (forall i :: 0 <= i < |ranges| - 1 ==> ranges[i + 1].start == ranges[i].final + 1)
  }

  datatype System = System(units: seq<Unit>, finished: bool)

  // One atomic step: a handler call in one unit, or an alarm in the manager.
  datatype Event = StartSignal(i: nat) | FaultSignal(i: nat) | HangSignal(i: nat) | AlarmSignal

  predicate AllStopped(units: seq<Unit>)
  {
    forall i :: 0 <= i < |units| ==> units[i].phase == Stopped
  }

  predicate Enabled(s: System, e: Event)
  {
    !s.finished &&
    match e
    case StartSignal(i) => i < |s.units| && s.units[i].phase == Waiting
    case FaultSignal(i) => i < |s.units| && s.units[i].phase == Running
    case HangSignal(i) => i < |s.units| && s.units[i].phase == Running && s.units[i].signalled
    case AlarmSignal => true
  }

  function Step(banned: Word -> bool, s: System, e: Event): (t: System)
    requires Enabled(s, e)
    ensures |t.units| == |s.units|
  {
    match e
    case StartSignal(i) => s.(units := s.units[i := Entry(banned, s.units[i])])
    case FaultSignal(i) => s.(units := s.units[i := Fault(banned, s.units[i])])
    case HangSignal(i) => s.(units := s.units[i := Hang(banned, s.units[i])])
    case AlarmSignal => System(seq(|s.units|, i requires 0 <= i < |s.units| => Alarm(s.units[i])), AllStopped(s.units))
  }

  predicate Possible(banned: Word -> bool, s: System, run: seq<Event>)
    decreases |run|
  {
    run == [] || (Enabled(s, run[0]) && Possible(banned, Step(banned, s, run[0]), run[1..]))
  }

  function After(banned: Word -> bool, s: System, run: seq<Event>): (t: System)
    requires Possible(banned, s, run)
    ensures |t.units| == |s.units|
    decreases |run|
  {
    if run == [] then s else After(banned, Step(banned, s, run[0]), run[1..])
  }

  function Started(ranges: seq<Range>): System
  {
    System(seq(|ranges|, i requires 0 <= i < |ranges| => NewUnit(ranges[i].start, ranges[i].final)), false)
  }

  ghost predicate SystemInv(banned: Word -> bool, ranges: seq<Range>, s: System)
  {
    && |s.units| == |ranges|
    && (forall i :: 0 <= i < |ranges| ==> Inv(banned, ranges[i].start, s.units[i]) && s.units[i].final == ranges[i].final)
    && (s.finished ==> AllStopped(s.units))
  }

  lemma StepKeepsInv(banned: Word -> bool, ranges: seq<Range>, s: System, e: Event)
    requires SystemInv(banned, ranges, s) && Enabled(s, e)
    ensures SystemInv(banned, ranges, Step(banned, s, e))
  {
    match e
    case StartSignal(i) => EntryKeepsInv(banned, ranges[i].start, s.units[i]);
    case FaultSignal(i) => FaultKeepsInv(banned, ranges[i].start, s.units[i]);
    case HangSignal(i) => HangKeepsInv(banned, ranges[i].start, s.units[i]);
    case AlarmSignal =>
  }

  lemma {:induction false} RunKeepsInv(banned: Word -> bool, ranges: seq<Range>, s: System, run: seq<Event>)
    requires SystemInv(banned, ranges, s) && Possible(banned, s, run)
    ensures SystemInv(banned, ranges, After(banned, s, run))
    decreases |run|
  {
    if run != [] {
      StepKeepsInv(banned, ranges, s, run[0]);
      RunKeepsInv(banned, ranges, Step(banned, s, run[0]), run[1..]);
    }
  }

  // Everything analysed, unit by unit.
  function AllAnalysed(units: seq<Unit>): seq<Word>
  {
    if units == [] then [] else AllAnalysed(units[..|units| - 1]) + units[|units| - 1].analysed
  }

  lemma WorkSplit(banned: Word -> bool, first: Word, mid: Word, last: Word)
    requires first <= mid < last
    ensures Work(banned, first, last) == Work(banned, first, mid) + Work(banned, mid + 1, last)
  {
    AdmissibleSplit(banned, first, mid - first + 1, last - mid);
    assert Advance(first, mid - first + 1) == mid + 1;
    assert Distance(first, last) + 1 == (mid - first + 1) + (last - mid);
  }

  lemma {:induction false} RangesOrdered(ranges: seq<Range>, first: Word, last: Word)
    requires Consecutive(ranges, first, last)
    ensures first <= last
    decreases |ranges|
  {
    if |ranges| > 1 {
      RangesOrdered(ranges[..|ranges| - 1], first, ranges[|ranges| - 2].final);
    }
  }

  // The works of consecutive ranges join up to the work of the whole range.
  lemma {:induction false} WorksJoin(banned: Word -> bool, ranges: seq<Range>, first: Word, last: Word, units: seq<Unit>)
    requires Consecutive(ranges, first, last) && |units| == |ranges|
    requires forall i :: 0 <= i < |ranges| ==> units[i].analysed == Work(banned, ranges[i].start, ranges[i].final)
    ensures AllAnalysed(units) == Work(banned, first, last)
    decreases |ranges|
  {
    var k := |ranges| - 1;
    if k == 0 {
      assert AllAnalysed(units[..0]) == [];
    } else {
      var mid := ranges[k - 1].final;
      WorksJoin(banned, ranges[..k], first, mid, units[..k]);
      RangesOrdered(ranges[..k], first, mid);
      WorkSplit(banned, first, mid, last);
    }
  }

  // When the manager declares the run finished, whatever the interleaving was, the units
  // have analysed exactly the words of [first, last] that are not banned, each once and in
  // order, and have written nothing else for execution.
  lemma FinishedRunCoversRange(banned: Word -> bool, ranges: seq<Range>, first: Word, last: Word, run: seq<Event>)
    requires Consecutive(ranges, first, last)
    requires Possible(banned, Started(ranges), run) && After(banned, Started(ranges), run).finished
    ensures var s := After(banned, Started(ranges), run);
      && AllAnalysed(s.units) == Work(banned, first, last)
      && (forall i :: 0 <= i < |s.units| ==> s.units[i].written == s.units[i].analysed)
  {
    RunKeepsInv(banned, ranges, Started(ranges), run);
    WorksJoin(banned, ranges, first, last, After(banned, Started(ranges), run).units);
  }

  // The same, word by word: every admissible word of the range is analysed, nothing else
  // is, and no word is analysed twice.
  lemma EachWordOnce(banned: Word -> bool, ranges: seq<Range>, first: Word, last: Word, run: seq<Event>)
    requires Consecutive(ranges, first, last)
    requires Possible(banned, Started(ranges), run) && After(banned, Started(ranges), run).finished
    ensures var log := AllAnalysed(After(banned, Started(ranges), run).units);
      && (forall w :: w in log <==> first <= w <= last && !banned(w))
      && Increasing(log)
  {
    FinishedRunCoversRange(banned, ranges, first, last, run);
    RangesOrdered(ranges, first, last);
    var n := Distance(first, last) + 1;
    AdmissibleInRange(banned, first, n);
    AdmissibleIncreasing(banned, first, n);
    forall w: Word | first <= w <= last && !banned(w) ensures w in Work(banned, first, last) {
      AdmissibleComplete(banned, first, n, w);
    }
  }

  // At no moment of any run does a unit write or analyse a banned word.
  lemma NeverBanned(banned: Word -> bool, ranges: seq<Range>, run: seq<Event>, i: nat, w: Word)
    requires Possible(banned, Started(ranges), run) && i < |ranges|
    requires w in After(banned, Started(ranges), run).units[i].written || w in After(banned, Started(ranges), run).units[i].analysed
    ensures !banned(w)
  {
    RunKeepsInv(banned, ranges, Started(ranges), run);
    var u := After(banned, Started(ranges), run).units[i];
    NoneBanned(banned, ranges[i].start, Distance(ranges[i].start, u.final) + 1);
    assert u.phase == Running ==> forall v :: v in u.analysed ==> v in u.analysed + Work(banned, u.current, u.final);
  }

  // Conservation, at every moment of every run: the instructions a unit has counted, the hangs it
  // has handled and a banned first word add up to the words it has gone past.
  lemma CountersAddUp(banned: Word -> bool, ranges: seq<Range>, run: seq<Event>, i: nat)
    requires Possible(banned, Started(ranges), run) && i < |ranges|
    ensures var u := After(banned, Started(ranges), run).units[i];
      var start := ranges[i].start;
      var passed := u.executed + u.hangs + (if banned(start) then 1 else 0);
      && (u.phase == Running ==> passed == Distance(start, u.current))
      && (u.phase == Stopped ==>
          passed == Distance(start, ranges[i].final) + (if u.current == ranges[i].final then 1 else 0))
  {
    RunKeepsInv(banned, ranges, Started(ranges), run);
  }

  lemma {:induction false} NoneBanned(banned: Word -> bool, w: Word, n: nat)
    ensures forall v :: v in Admissible(banned, w, n) ==> !banned(v)
    decreases n
  {
    if n > 0 {
      NoneBanned(banned, Advance(w, 1), n - 1);
    }
  }

  // How many fault and hang handler calls a run contains.
  function HandlerCalls(run: seq<Event>): nat
  {
    if run == [] then 0
    else (if run[0].FaultSignal? || run[0].HangSignal? then 1 else 0) + HandlerCalls(run[1..])
  }

  lemma {:induction false} AnalysedGrows(units: seq<Unit>, i: nat, u: Unit)
    requires i < |units|
    ensures |AllAnalysed(units[i := u])| == |AllAnalysed(units)| - |units[i].analysed| + |u.analysed|
    decreases |units|
  {
    var k := |units| - 1;
    if i < k {
      AnalysedGrows(units[..k], i, u);
      assert units[i := u][..k] == units[..k][i := u];
    } else {
      assert units[i := u][..k] == units[..k];
    }
  }

  lemma {:induction false} AnalysedSame(units: seq<Unit>, units': seq<Unit>)
    requires |units| == |units'|
    requires forall i :: 0 <= i < |units| ==> units[i].analysed == units'[i].analysed
    ensures AllAnalysed(units) == AllAnalysed(units')
    decreases |units|
  {
    if units != [] {
      AnalysedSame(units[..|units| - 1], units'[..|units| - 1]);
    }
  }

  // Each handler call analyses one word.
  lemma {:induction false} CallsAreAnalyses(banned: Word -> bool, s: System, run: seq<Event>)
    requires Possible(banned, s, run)
    ensures |AllAnalysed(After(banned, s, run).units)| == |AllAnalysed(s.units)| + HandlerCalls(run)
    decreases |run|
  {
    if run != [] {
      var e := run[0];
      var t := Step(banned, s, e);
      if e.AlarmSignal? {
        AnalysedSame(s.units, t.units);
      } else {
        AnalysedGrows(s.units, e.i, t.units[e.i]);
      }
      CallsAreAnalyses(banned, t, run[1..]);
    }
  }

  lemma UnitBound(banned: Word -> bool, start: Word, u: Unit)
    requires Inv(banned, start, u)
    ensures |u.analysed| <= |Work(banned, start, u.final)|
  {
    if u.phase == Running {
      assert |u.analysed + Work(banned, u.current, u.final)| == |u.analysed| + |Work(banned, u.current, u.final)|;
    }
  }

  lemma {:induction false} AnalysedBound(banned: Word -> bool, ranges: seq<Range>, first: Word, last: Word, units: seq<Unit>)
    requires Consecutive(ranges, first, last) && |units| == |ranges|
    requires forall i :: 0 <= i < |ranges| ==>
      Inv(banned, ranges[i].start, units[i]) && units[i].final == ranges[i].final
    ensures |AllAnalysed(units)| <= |Work(banned, first, last)|
    decreases |ranges|
  {
    var k := |ranges| - 1;
    UnitBound(banned, ranges[k].start, units[k]);
    if k == 0 {
      assert AllAnalysed(units[..0]) == [];
    } else {
      var mid := ranges[k - 1].final;
      AnalysedBound(banned, ranges[..k], first, mid, units[..k]);
      RangesOrdered(ranges[..k], first, mid);
      WorkSplit(banned, first, mid, last);
    }
  }

  // Termination: no run, whatever the interleaving, contains more handler calls than there
  // are admissible words in the range; a finished run contains exactly that many.
  lemma HandlerCallsBounded(banned: Word -> bool, ranges: seq<Range>, first: Word, last: Word, run: seq<Event>)
    requires Consecutive(ranges, first, last) && Possible(banned, Started(ranges), run)
    ensures HandlerCalls(run) <= |Work(banned, first, last)|
    ensures After(banned, Started(ranges), run).finished ==> HandlerCalls(run) == |Work(banned, first, last)|
  {
    var s := After(banned, Started(ranges), run);
    RunKeepsInv(banned, ranges, Started(ranges), run);
    CallsAreAnalyses(banned, Started(ranges), run);
    NothingAnalysed(Started(ranges).units);
    AnalysedBound(banned, ranges, first, last, s.units);
    if s.finished {
      FinishedRunCoversRange(banned, ranges, first, last, run);
    }
  }

  lemma {:induction false} NothingAnalysed(units: seq<Unit>)
    requires forall i :: 0 <= i < |units| ==> units[i].analysed == []
    ensures AllAnalysed(units) == []
    decreases |units|
  {
    if units != [] {
      NothingAnalysed(units[..|units| - 1]);
    }
  }

  function CountWaiting(units: seq<Unit>): nat
  {
    if units == [] then 0
    else CountWaiting(units[..|units| - 1]) + (if units[|units| - 1].phase == Waiting then 1 else 0)
  }

  lemma {:induction false} StartedOne(units: seq<Unit>, i: nat, u: Unit)
    requires i < |units| && units[i].phase == Waiting && u.phase != Waiting
    ensures CountWaiting(units[i := u]) == CountWaiting(units) - 1
    decreases |units|
  {
    var k := |units| - 1;
    if i < k {
      StartedOne(units[..k], i, u);
      assert units[i := u][..k] == units[..k][i := u];
    } else {
      assert units[i := u][..k] == units[..k];
    }
  }

  // Words that hang are never handled as faults and the others never as hangs.
  predicate Respects(banned: Word -> bool, hangs: Word -> bool, s: System, run: seq<Event>)
    requires Possible(banned, s, run)
    decreases |run|
  {
    run == [] ||
    (&& (run[0].FaultSignal? ==> !hangs(s.units[run[0].i].current))
     && (run[0].HangSignal? ==> hangs(s.units[run[0].i].current))
     && Respects(banned, hangs, Step(banned, s, run[0]), run[1..]))
  }

  function Alarms(run: seq<Event>): nat
  {
    if run == [] then 0 else (if run[0].AlarmSignal? then 1 else 0) + Alarms(run[1..])
  }

  function HangSignals(run: seq<Event>): nat
  {
    if run == [] then 0 else (if run[0].HangSignal? then 1 else 0) + HangSignals(run[1..])
  }

  // An alarm leaves everything but the signals and the remembered counters as it was.
  lemma AlarmKeeps(banned: Word -> bool, ranges: seq<Range>, s: System, i: nat)
    requires SystemInv(banned, ranges, s) && !s.finished && i < |s.units| && s.units[i].phase != Stopped
    ensures var t := Step(banned, s, AlarmSignal);
      && SystemInv(banned, ranges, t) && !t.finished && t.units[i] == Alarm(s.units[i])
      && |AllAnalysed(t.units)| == |AllAnalysed(s.units)|
  {
    StepKeepsInv(banned, ranges, s, AlarmSignal);
    AnalysedSame(s.units, Step(banned, s, AlarmSignal).units);
  }

  // Handling the word a unit is at leaves one word less to do.
  lemma HandlingAdvances(banned: Word -> bool, ranges: seq<Range>, first: Word, last: Word, s: System, e: Event)
    requires Consecutive(ranges, first, last) && SystemInv(banned, ranges, s)
    requires Enabled(s, e) && (e.FaultSignal? || e.HangSignal?)
    ensures var t := Step(banned, s, e);
      && SystemInv(banned, ranges, t) && !t.finished
      && |AllAnalysed(s.units)| + 1 == |AllAnalysed(t.units)| <= |Work(banned, first, last)|
  {
    var t := Step(banned, s, e);
    StepKeepsInv(banned, ranges, s, e);
    AnalysedGrows(s.units, e.i, t.units[e.i]);
    AnalysedBound(banned, ranges, first, last, t.units);
  }

  lemma StartingAdvances(banned: Word -> bool, ranges: seq<Range>, first: Word, last: Word, s: System, i: nat)
    requires Consecutive(ranges, first, last) && SystemInv(banned, ranges, s)
    requires Enabled(s, StartSignal(i))
    ensures var t := Step(banned, s, StartSignal(i));
      && SystemInv(banned, ranges, t) && !t.finished
      && |AllAnalysed(s.units)| == |AllAnalysed(t.units)| <= |Work(banned, first, last)|
      && CountWaiting(t.units) < CountWaiting(s.units)
  {
    var t := Step(banned, s, StartSignal(i));
    StepKeepsInv(banned, ranges, s, StartSignal(i));
    AnalysedGrows(s.units, i, t.units[i]);
    AnalysedBound(banned, ranges, first, last, t.units);
    StartedOne(s.units, i, t.units[i]);
  }

  lemma PossibleCons(banned: Word -> bool, s: System, e: Event, rest: seq<Event>)
    requires Enabled(s, e) && Possible(banned, Step(banned, s, e), rest)
    ensures Possible(banned, s, [e] + rest)
    ensures After(banned, s, [e] + rest) == After(banned, Step(banned, s, e), rest)
  {
    assert ([e] + rest)[1..] == rest;
  }

  // What holds of a continuation that finishes the run: two alarms for every hang are enough, and one
  // to see that all units have stopped.
  ghost predicate Finishes(banned: Word -> bool, hangs: Word -> bool, s: System, run: seq<Event>)
  {
    && Possible(banned, s, run) && After(banned, s, run).finished
    && Respects(banned, hangs, s, run) && Alarms(run) <= 2 * HangSignals(run) + 1
  }

  // An event that is no alarm, or the two alarms and the hang they are for, before a run that finishes.

  lemma FinishesCons(banned: Word -> bool, hangs: Word -> bool, s: System, e: Event, rest: seq<Event>)
    requires Enabled(s, e) && !e.AlarmSignal? && Finishes(banned, hangs, Step(banned, s, e), rest)
    requires (e.FaultSignal? ==> !hangs(s.units[e.i].current)) && (e.HangSignal? ==> hangs(s.units[e.i].current))
    ensures Finishes(banned, hangs, s, [e] + rest)
    ensures e.HangSignal? ==> Alarms([e] + rest) <= 2 * HangSignals([e] + rest) - 1
  {
    PossibleCons(banned, s, e, rest);
    assert ([e] + rest)[1..] == rest;
  }

  lemma AlarmCons(banned: Word -> bool, hangs: Word -> bool, s: System, rest: seq<Event>)
    requires !s.finished && Finishes(banned, hangs, Step(banned, s, AlarmSignal), rest)
    requires Alarms(rest) <= 2 * HangSignals(rest)
    ensures Finishes(banned, hangs, s, [AlarmSignal] + rest)
    ensures Alarms([AlarmSignal] + rest) == Alarms(rest) + 1 && HangSignals([AlarmSignal] + rest) == HangSignals(rest)
  {
    PossibleCons(banned, s, AlarmSignal, rest);
    assert ([AlarmSignal] + rest)[1..] == rest;
  }

  // No state that a run can reach is stuck, whichever words hang: some continuation handles exactly
  // those by hang signals, finishes the run, and needs no more than two alarms for each.
  lemma CanFinish(banned: Word -> bool, hangs: Word -> bool, ranges: seq<Range>, first: Word, last: Word, s: System)
    returns (run: seq<Event>)
    requires Consecutive(ranges, first, last) && SystemInv(banned, ranges, s) && !s.finished
    ensures Finishes(banned, hangs, s, run)
    decreases |Work(banned, first, last)| - |AllAnalysed(s.units)|, CountWaiting(s.units)
  {
    if AllStopped(s.units) {
      return [AlarmSignal];
    }
    var i :| 0 <= i < |s.units| && s.units[i].phase != Stopped;
    AnalysedBound(banned, ranges, first, last, s.units);
    if s.units[i].phase == Waiting {
      StartingAdvances(banned, ranges, first, last, s, i);
      var rest := CanFinish(banned, hangs, ranges, first, last, Step(banned, s, StartSignal(i)));
      FinishesCons(banned, hangs, s, StartSignal(i), rest);
      return [StartSignal(i)] + rest;
    }
    if !hangs(s.units[i].current) {
      HandlingAdvances(banned, ranges, first, last, s, FaultSignal(i));
      var rest := CanFinish(banned, hangs, ranges, first, last, Step(banned, s, FaultSignal(i)));
      FinishesCons(banned, hangs, s, FaultSignal(i), rest);
      return [FaultSignal(i)] + rest;
    }
    var t := Step(banned, s, AlarmSignal);
    AlarmKeeps(banned, ranges, s, i);
    var u := Step(banned, t, AlarmSignal);
    AlarmKeeps(banned, ranges, t, i);
    HandlingAdvances(banned, ranges, first, last, u, HangSignal(i));
    var rest := CanFinish(banned, hangs, ranges, first, last, Step(banned, u, HangSignal(i)));
    FinishesCons(banned, hangs, u, HangSignal(i), rest);
    AlarmCons(banned, hangs, t, [HangSignal(i)] + rest);
    AlarmCons(banned, hangs, s, [AlarmSignal] + ([HangSignal(i)] + rest));
    run := [AlarmSignal] + ([AlarmSignal] + ([HangSignal(i)] + rest));
  }

  // What the hang signal means.  Between two alarms a running unit goes through some fault
  // and hang handler calls.
  datatype Call = FaultCall | HangCall

  predicate Follows(banned: Word -> bool, u: Unit, calls: seq<Call>)
    decreases |calls|
  {
    calls == [] ||
    (u.phase == Running && Follows(banned, if calls[0].FaultCall? then Fault(banned, u) else Hang(banned, u), calls[1..]))
  }

  function Calling(banned: Word -> bool, u: Unit, calls: seq<Call>): Unit
    decreases |calls|
  {
    if calls == [] then u
    else Calling(banned, if calls[0].FaultCall? then Fault(banned, u) else Hang(banned, u), calls[1..])
  }

  // A call is invisible to the alarm if it moves the unit on without moving numInstrExec.
  predicate Invisible(banned: Word -> bool, u: Unit, c: Call)
  {
    c.HangCall? && NextWord(banned, u.current, u.final).skipped == 0
  }

  predicate AllInvisible(banned: Word -> bool, u: Unit, calls: seq<Call>)
    decreases |calls|
  {
    calls == [] || (Invisible(banned, u, calls[0]) && AllInvisible(banned, Hang(banned, u), calls[1..]))
  }

  lemma {:induction false} CallsCounted(banned: Word -> bool, u: Unit, calls: seq<Call>)
    requires Follows(banned, u, calls)
    ensures Calling(banned, u, calls).executed >= u.executed
    ensures Calling(banned, u, calls).executed == u.executed <==> AllInvisible(banned, u, calls)
    ensures Calling(banned, u, calls).executedBefore == u.executedBefore
    decreases |calls|
  {
    if calls != [] {
      CallsCounted(banned, if calls[0].FaultCall? then Fault(banned, u) else Hang(banned, u), calls[1..]);
    }
  }

  // The alarm newly signals a unit exactly when it is still running and every call since the
  // last alarm was invisible; no call at all, a real hang, is only one such case.
  lemma SignalMeansNoVisibleCall(banned: Word -> bool, u: Unit, calls: seq<Call>)
    requires u.phase == Running && Follows(banned, Alarm(u), calls)
    ensures var v := Calling(banned, Alarm(u), calls);
      Alarm(v).signalled <==> v.signalled || (v.phase != Stopped && AllInvisible(banned, Alarm(u), calls))
  {
    CallsCounted(banned, Alarm(u), calls);
  }

  // A signal is pending until a hang is handled, and handling one is all that takes it back.
  lemma {:induction false} PendingUntilHandled(banned: Word -> bool, u: Unit, calls: seq<Call>)
    requires Follows(banned, u, calls)
    ensures Calling(banned, u, calls).signalled <==> u.signalled && HangCall !in calls
    decreases |calls|
  {
    if calls != [] {
      PendingUntilHandled(banned, if calls[0].FaultCall? then Fault(banned, u) else Hang(banned, u), calls[1..]);
      assert calls == [calls[0]] + calls[1..];
    }
  }

  // So "only units that have not moved are signalled" is false: whenever the next word is
  // admissible, handling a hang moves the unit on and the next alarm signals it once more.
  lemma FalseAlarm(banned: Word -> bool, u: Unit)
    requires u.phase == Running && u.current != u.final && !banned(Advance(u.current, 1))
    ensures var v := Hang(banned, Alarm(u));
      v.phase == Running && v.current == Advance(u.current, 1) && !v.signalled && Alarm(v).signalled
  {
    NextWordInSteps(banned, u.current, u.final, Found(Advance(u.current, 1), 0));
  }

  // A run that comes to this, over any range that begins with two admissible words: the unit is
  // signalled for the first, handles the hang, and is signalled again for the second.
  lemma FalseAlarmReached(banned: Word -> bool, r: Range)
    requires r.start < r.final && !banned(r.start) && !banned(Advance(r.start, 1))
    ensures var run := [StartSignal(0), AlarmSignal, HangSignal(0)];
      && Possible(banned, Started([r]), run) && Possible(banned, Started([r]), run + [AlarmSignal])
      && (var v := After(banned, Started([r]), run).units[0];
          v.phase == Running && v.current == Advance(r.start, 1) && v.analysed == [r.start] && !v.signalled)
      && After(banned, Started([r]), run + [AlarmSignal]).units[0].signalled
  {
    var e := [StartSignal(0), AlarmSignal, HangSignal(0), AlarmSignal];
    var s0 := Started([r]);
    var s1 := Step(banned, s0, e[0]);
    var s2 := Step(banned, s1, e[1]);
    FalseAlarm(banned, s1.units[0]);
    var s3 := Step(banned, s2, e[2]);
    var s4 := Step(banned, s3, e[3]);
    PossibleCons(banned, s3, e[3], []);
    PossibleCons(banned, s2, e[2], [e[3]]);
    PossibleCons(banned, s1, e[1], [e[2], e[3]]);
    PossibleCons(banned, s0, e[0], [e[1], e[2], e[3]]);
    PossibleCons(banned, s2, e[2], []);
    PossibleCons(banned, s1, e[1], [e[2]]);
    PossibleCons(banned, s0, e[0], [e[1], e[2]]);
    assert [e[0]] + ([e[1]] + [e[2]]) == [StartSignal(0), AlarmSignal, HangSignal(0)];
    assert [e[0]] + [e[1], e[2], e[3]] == [StartSignal(0), AlarmSignal, HangSignal(0)] + [AlarmSignal];
  }
}

module Manager {
  import opened Arithmetic
  import opened Words
  import opened UnitModel
  import opened RunModel
  import opened ScannerUnit

  // More units than words to share out are not created.
  function UnitCount(numThreads: nat, first: Word, last: Word): (count: nat)
    requires numThreads >= 1 && first <= last
    ensures count >= 1
  {
    if 0 < last - first < numThreads then last - first else numThreads
  }

  // The j-th range handed out; the 64-bit bounds are truncated to instruction words.
  function RangeAt(first: Word, last: Word, count: nat, each: nat, j: nat): Range
    requires j < count
  {
    Range((first + each * j + (if j == 0 then 0 else 1)) % WORDS,
          if j == count - 1 then last else (first + each * (j + 1)) % WORDS)
  }

  function RangesOf(first: Word, last: Word, count: nat, each: nat): seq<Range>
  {
    seq(count, j requires 0 <= j < count => RangeAt(first, last, count, each, j))
  }

  function Ranges(first: Word, last: Word, count: nat): seq<Range>
    requires first <= last && count >= 1
  {
    RangesOf(first, last, count, (last - first) / count)
  }

  function Size(r: Range): int
  {
    r.final - r.start + 1
  }

  lemma ShareBounds(each: nat, span: nat, count: nat, j: nat)
    requires j < count && each * count <= span < each * count + count
    ensures each * j + each == each * (j + 1) <= span
    ensures each * (count - 1) <= span < each * (count - 1) + each + count
  {
    Distribute(each, j, 1);
    Distribute(each, count, 1);
    Distribute(each, count, j + 1);
    if each > 0 && j + 1 < count {
      MulPositive(each, count - (j + 1));
    }
  }

  lemma QuotientBounds(span: nat, count: nat)
    requires count >= 1
    ensures (span / count) * count <= span < (span / count) * count + count
    ensures span >= count ==> span / count >= 1
  {}

  lemma RangeBounds(first: Word, last: Word, count: nat, j: nat)
    requires first <= last && 1 <= count && j < count
    requires first < last ==> count <= last - first
    requires first == last ==> count == 1
    ensures var each := (last - first) / count; var r := RangeAt(first, last, count, each, j);
      && (first < last ==> each >= 1)
      && r.start == first + each * j + (if j == 0 then 0 else 1)
      && r.final == (if j == count - 1 then last else first + each * j + each)
      && each <= Size(r) <= each + count && Size(r) >= 1
  {
    hide RangeAt;
    var span := last - first;
    var each := span / count;
    QuotientBounds(span, count);
    ShareBounds(each, span, count, j);
    RangeWithin(first, last, count, each, j);
    SizeWithin(span, each, count, j, each * j);
  }

  // A range that lies below the last word is not touched by the truncation.
  lemma RangeWithin(first: Word, last: Word, count: nat, each: nat, j: nat)
    requires j < count && first <= last && each * j + each == each * (j + 1) <= last - first
    requires first < last ==> each >= 1
    requires j > 0 ==> first < last
    ensures RangeAt(first, last, count, each, j) ==
            Range(first + each * j + (if j == 0 then 0 else 1), if j == count - 1 then last else first + each * j + each)
  {
    SmallWord(first + each * j + (if j == 0 then 0 else 1));
    SmallWord(first + each * (j + 1));
  }

  // Whenever there is more than one word, or one unit, the ranges handed out cover
  // [first, last] without gap or overlap and differ in size by no more than the count.
  lemma SplitIsEven(first: Word, last: Word, numThreads: nat)
    requires numThreads >= 1 && first <= last && (first < last || numThreads == 1)
    ensures var count := UnitCount(numThreads, first, last); var ranges := Ranges(first, last, count);
      && Consecutive(ranges, first, last)
      && forall j :: 0 <= j < count ==>
           (last - first) / count <= Size(ranges[j]) <= (last - first) / count + count && Size(ranges[j]) >= 1
  {
    var count := UnitCount(numThreads, first, last);
    var ranges := Ranges(first, last, count);
    forall j | 0 <= j < count
      ensures (last - first) / count <= Size(ranges[j]) <= (last - first) / count + count && Size(ranges[j]) >= 1
      ensures j < count - 1 ==> ranges[j + 1].start == ranges[j].final + 1
    {
      RangeBounds(first, last, count, j);
      if j < count - 1 {
        RangeBounds(first, last, count, j + 1);
        Distribute((last - first) / count, j, 1);
      }
    }
    RangeBounds(first, last, count, 0);
    RangeBounds(first, last, count, count - 1);
  }

  // How many units there are, and what each is given: the first one word more than the quotient, the
  // last what is left over.
  lemma SplitExact(first: Word, last: Word, numThreads: nat)
    requires numThreads >= 1 && first <= last && (first < last || numThreads == 1)
    ensures var ranges := Ranges(first, last, UnitCount(numThreads, first, last));
      var span, n := last - first, |ranges|;
      && n == (if first == last then 1 else if span < numThreads then span else numThreads)
      && forall j :: 0 <= j < n ==>
           Size(ranges[j]) == span / n + (if j == 0 then 1 else 0) + (if j == n - 1 then span % n else 0)
  {
    hide RangeAt;
    var count := UnitCount(numThreads, first, last);
    var ranges := Ranges(first, last, count);
    forall j | 0 <= j < count
      ensures Size(ranges[j]) ==
        (last - first) / count + (if j == 0 then 1 else 0) + (if j == count - 1 then (last - first) % count else 0)
    {
      RangeSize(first, last, count, j);
    }
  }

  lemma RangeSize(first: Word, last: Word, count: nat, j: nat)
    requires first <= last && 1 <= count && j < count
    requires first < last ==> count <= last - first
    requires first == last ==> count == 1
    ensures var span := last - first;
      Size(RangeAt(first, last, count, span / count, j)) ==
      span / count + (if j == 0 then 1 else 0) + (if j == count - 1 then span % count else 0)
  {
    hide RangeAt;
    DivMod(last - first, count);
    RangeBounds(first, last, count, j);
    Distribute((last - first) / count, count, 1);
  }

  // With a single word and several units the split goes wrong: the later ranges are
  // inverted, and a unit given one goes through every word there is, wrapping around.
  lemma SingleWordSplit(word: Word, numThreads: nat, j: nat)
    requires 1 <= j < numThreads
    ensures var r := Ranges(word, word, UnitCount(numThreads, word, word))[j];
      r == Range(Advance(word, 1), word) && Distance(r.start, r.final) + 1 == WORDS
  {}

  // Hence the split is a partition of the range in exactly these cases.
  lemma SplitCorrectIff(first: Word, last: Word, numThreads: nat)
    requires numThreads >= 1 && first <= last
    ensures Consecutive(Ranges(first, last, UnitCount(numThreads, first, last)), first, last) <==>
            (first < last || numThreads == 1)
  {
    if first < last || numThreads == 1 {
      SplitIsEven(first, last, numThreads);
    } else {
      SingleWordSplit(first, numThreads, 1);
      var ranges := Ranges(first, last, numThreads);
      assert ranges[0].start == ranges[0].final == first;
    }
  }

  // The whole of a run: with the ranges handed out for any number of units, whatever the
  // blacklist and the interleaving, a finished run has analysed every word of [first, last]
  // that is not banned exactly once, and nothing else.
  lemma RunCoversRange(banned: Word -> bool, first: Word, last: Word, numThreads: nat, run: seq<Event>)
    requires numThreads >= 1 && first <= last && (first < last || numThreads == 1)
    ensures var s := Started(Ranges(first, last, UnitCount(numThreads, first, last)));
      Possible(banned, s, run) && After(banned, s, run).finished ==>
        var log := AllAnalysed(After(banned, s, run).units);
        (forall w :: w in log <==> first <= w <= last && !banned(w)) && Increasing(log)
  {
    hide Possible, After, AllAnalysed, Started;
    var ranges := Ranges(first, last, UnitCount(numThreads, first, last));
    if Possible(banned, Started(ranges), run) && After(banned, Started(ranges), run).finished {
      SplitIsEven(first, last, numThreads);
      EachWordOnce(banned, ranges, first, last, run);
    }
  }

  lemma HandOut(first: Word, last: Word, count: nat, each: nat, i: nat, start: nat, final: nat)
    requires i < count && Bounds(first, each, i, start, final)
    ensures Bounds(first, each, i + 1, final + 1, final + each)
    ensures RangesOf(first, last, count, each)[..i] + [Range(start % WORDS, if i == count - 1 then last else final % WORDS)] ==
            RangesOf(first, last, count, each)[..i + 1]
  {
    Distribute(each, i, 1);
    Distribute(each, i + 1, 1);
  }

  // startInstruction and finalInstruction at the head of the splitting loop.
  ghost predicate Bounds(first: nat, each: nat, i: nat, start: int, final: int)
  {
    start == first + each * i + (if i == 0 then 0 else 1) && final == first + each * (i + 1)
  }

  // What one alarm does to one unit when checking for hangs is on or off.
  function Inspected(checkForHang: bool, u: Unit): Unit
  {
    if checkForHang then Alarm(u) else u.(executedBefore := u.executed)
  }

  class ScannerManager {
    const checkForHang: bool
    var units: seq<Scanner>     // the values of threadDataMap

    ghost predicate Distinct()
      reads this
    {
      forall i, j :: 0 <= i < j < |units| ==> units[i] != units[j]
    }

    ghost function States(): seq<Unit>
      reads this, units
    {
      seq(|units|, i requires 0 <= i < |units| reads this, units => units[i].State())
    }

    constructor (banned: Word -> bool, numThreads: nat, first: Word, last: Word, checkForHang: bool)
      requires numThreads >= 1 && first <= last
      ensures Distinct() && fresh(units) && this.checkForHang == checkForHang
      ensures var ranges := Ranges(first, last, UnitCount(numThreads, first, last));
        |units| == |ranges| && forall i :: 0 <= i < |units| ==> IsNew(units[i], banned, ranges[i])
    {
      this.checkForHang := checkForHang;
      var count := if 0 < last - first < numThreads then last - first else numThreads;
      units := [];
      new;
      SetUpUnits(banned, count, (last - first) / count, first, last);
    }

    // The loop over all scanner units.
    method SetUpUnits(banned: Word -> bool, numThreads: nat, instrPerThread: nat, first: Word, last: Word)
      requires units == []
      modifies this`units
      ensures Distinct() && fresh(units)
      ensures var ranges := RangesOf(first, last, numThreads, instrPerThread);
        |units| == |ranges| && forall i :: 0 <= i < |units| ==> IsNew(units[i], banned, ranges[i])
    {
      var startInstruction, finalInstruction := first, first + instrPerThread;
      ghost var handed: seq<Range> := [];
      var i := 0;
      while i < numThreads
        invariant 0 <= i <= numThreads && |units| == i
        invariant Bounds(first, instrPerThread, i, startInstruction, finalInstruction)
        invariant fresh(units) && Distinct()
        invariant |handed| == i && handed == RangesOf(first, last, numThreads, instrPerThread)[..i]
        invariant forall j :: 0 <= j < i ==> IsNew(units[j], banned, handed[j])
      {
        HandOut(first, last, numThreads, instrPerThread, i, startInstruction, finalInstruction);
        var scanner := new Scanner(banned, startInstruction % WORDS, finalInstruction % WORDS);
        if i == numThreads - 1 {
          scanner.finalInstruction := last;
        }
        units := units + [scanner];
        handed := handed + [Range(startInstruction % WORDS, scanner.finalInstruction)];
        startInstruction := finalInstruction + 1;
        finalInstruction := finalInstruction + instrPerThread;
        i := i + 1;
      }
    }

    static ghost predicate IsNew(unit: Scanner, banned: Word -> bool, range: Range)
      reads unit
    {
      unit.banned == banned && unit.start == range.start && unit.State() == NewUnit(range.start, range.final)
    }

    // One alarm: signal the units that look hung, remember the counters, and report
    // whether every unit has stopped.
    method AlarmHandler() returns (finished: bool)
      requires Distinct()
      modifies units
      ensures finished == AllStopped(old(States()))
      ensures forall i :: 0 <= i < |units| ==> units[i].State() == Inspected(checkForHang, old(units[i].State()))
      ensures forall i :: 0 <= i < |units| ==> units[i].oldNumInstrExec == units[i].numInstrExec == old(units[i].numInstrExec)
      ensures forall i :: 0 <= i < |units| ==>
        units[i].signalled ==
          old(units[i].signalled || (checkForHang && units[i].numInstrExec == units[i].oldNumInstrExec && !units[i].isStopped))
    {
      ghost var before := States();
      finished := true;
      var i := 0;
      while i < |units|
        invariant 0 <= i <= |units|
        invariant finished <==> forall j :: 0 <= j < i ==> before[j].phase == Stopped
        invariant forall j :: i <= j < |units| ==> units[j].State() == before[j]
        invariant forall j :: 0 <= j < i ==> units[j].State() == Inspected(checkForHang, before[j])
      {
        var stopped := Inspect(units[i]);
        if !stopped {
          finished := false;
        }
        i := i + 1;
      }
    }

    method Inspect(unit: Scanner) returns (stopped: bool)
      modifies unit`signalled, unit`oldNumInstrExec
      ensures stopped == (unit.State().phase == Stopped)
      ensures unit.State() == Inspected(checkForHang, old(unit.State()))
    {
      stopped := unit.isStopped;
      if checkForHang && unit.numInstrExec == unit.oldNumInstrExec && !unit.isStopped {
        unit.signalled := true;
      }
      unit.oldNumInstrExec := unit.numInstrExec;
    }
  }
}
