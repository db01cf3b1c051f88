// One scanner unit: its state as a value, the effect of each handler on it, and what
// every sequence of handler calls keeps.
module UnitModel {
  import opened Words
  import opened Feeder

  // Waiting for the start signal, scanning, or parked in stopWorker.
  datatype Phase = Waiting | Running | Stopped

  datatype Unit = Unit(
    phase: Phase,
    current: Word,              // currentInstruction
    final: Word,                // finalInstruction
    executed: nat,              // numInstrExec
    executedBefore: nat,        // oldNumInstrExec, the manager's last reading
    signalled: bool,            // a hang signal is pending
    hangs: nat,                 // hang signals handled so far
    analysed: seq<Word>,        // the words handed to the analysis stage, in order
    written: seq<Word>          // the words put on the instruction page, in order
  )

  // What the exhaustive stage answers, read off the list of words that are still to come.
  function NextWord(banned: Word -> bool, current: Word, final: Word): Fetched
  {
    var d := Distance(current, final);
    var rest := Admissible(banned, Advance(current, 1), d);
    if rest != [] then Found(rest[0], if current == rest[0] then 0 else Distance(current, rest[0]) - 1)
    else Exhausted(if d == 0 then 0 else d - 1)
  }

  lemma NextWordInSteps(banned: Word -> bool, current: Word, final: Word, f: Fetched)
    requires NextInSteps(banned, current, 1, Distance(current, final), f)
    ensures f == NextWord(banned, current, final)
    ensures f.Found? ==>
      && Distance(current, f.next) == f.skipped + 1 <= Distance(current, final)
      && !banned(f.next)
      && Admissible(banned, Advance(current, 1), Distance(current, final)) ==
         Admissible(banned, f.next, Distance(f.next, final) + 1)
    ensures f.Exhausted? ==> Admissible(banned, Advance(current, 1), Distance(current, final)) == []
  {
    var d := Distance(current, final);
    var first := Advance(current, 1);
    forall j: nat | j < f.skipped ensures banned(Advance(first, j)) {
      AdvanceAdvance(current, 1, j);
      assert banned(Advance(current, 1 * (j + 1)));
    }
    if d > 0 {
      SkipBanned(banned, first, f.skipped, d);
      AdvanceAdvance(current, 1, f.skipped);
      DistanceAdvanced(current, f.skipped + 1);
      if f.Found? {
        DistanceAlong(current, f.next, final);
      } else {
        assert Advance(first, f.skipped) == Advance(current, 1 * d);
      }
    }
  }

  // The last part of every handler: stop, or put the next word on the page.
  function Proceed(u: Unit, f: Fetched): Unit
  {
    match f
    case Exhausted(skipped) => u.(phase := Stopped, executed := u.executed + skipped)
    case Found(next, skipped) =>
      u.(phase := Running, current := next, executed := u.executed + skipped, written := u.written + [next])
  }

  function Entry(banned: Word -> bool, u: Unit): Unit
  {
    if banned(u.current) then Proceed(u, NextWord(banned, u.current, u.final))
    else u.(phase := Running, written := u.written + [u.current])
  }

  function Fault(banned: Word -> bool, u: Unit): Unit
  {
    Proceed(u.(analysed := u.analysed + [u.current], executed := u.executed + 1),
            NextWord(banned, u.current, u.final))
  }

  // A hang is analysed like a fault but does not count as an executed instruction.
  function Hang(banned: Word -> bool, u: Unit): Unit
  {
    Proceed(u.(analysed := u.analysed + [u.current], hangs := u.hangs + 1, signalled := false),
            NextWord(banned, u.current, u.final))
  }

  // The manager's alarm: signal a running unit whose counter has not moved.
  function Alarm(u: Unit): Unit
  {
    u.(signalled := u.signalled || (u.executed == u.executedBefore && u.phase != Stopped),
       executedBefore := u.executed)
  }

  function NewUnit(start: Word, final: Word): Unit
  {
    Unit(Waiting, start, final, 0, 0, false, 0, [], [])
  }

  // The words a unit is to scan.
  function Work(banned: Word -> bool, start: Word, final: Word): seq<Word>
  {
    Admissible(banned, start, Distance(start, final) + 1)
  }

  // What every handler keeps, for a unit whose range begins at start.
  ghost predicate Inv(banned: Word -> bool, start: Word, u: Unit)
  {
    && u.executedBefore <= u.executed
    && var passed := u.executed + u.hangs + (if banned(start) then 1 else 0);
       match u.phase
       case Waiting =>
         && u.current == start && u.analysed == u.written == [] && u.executed == u.hangs == 0
       case Running =>
         && !banned(u.current)
         && Distance(start, u.current) <= Distance(start, u.final)
         && u.written == u.analysed + [u.current]
         && u.analysed + Work(banned, u.current, u.final) == Work(banned, start, u.final)
         // Conservation: every word passed is accounted for once.
         && passed == Distance(start, u.current)
       case Stopped =>
         && u.written == u.analysed == Work(banned, start, u.final)
         && passed == Distance(start, u.final) + (if u.current == u.final then 1 else 0)
  }

  // NextWord is the answer the stage is specified to give.
  lemma NextWordMeetsSpec(banned: Word -> bool, current: Word, final: Word)
    ensures NextInSteps(banned, current, 1, Distance(current, final), NextWord(banned, current, final))
  {
    var d := Distance(current, final);
    var first := Advance(current, 1);
    var k := FirstAdmissible(banned, first, d);
    var f := if k < d then Found(Advance(current, k + 1), k) else Exhausted(if d == 0 then 0 else d - 1);
    forall j: nat | 1 <= j <= k ensures banned(Advance(current, 1 * j)) {
      AdvanceAdvance(current, 1, j - 1);
      assert banned(Advance(first, j - 1));
    }
    AdvanceAdvance(current, 1, k);
    NextWordInSteps(banned, current, final, f);
  }

  lemma WorkUnfolds(banned: Word -> bool, current: Word, final: Word)
    ensures Work(banned, current, final) ==
            (if banned(current) then [] else [current]) +
            Admissible(banned, Advance(current, 1), Distance(current, final))
  {}

  lemma AnalyseCurrent(banned: Word -> bool, start: Word, u: Unit)
    requires Inv(banned, start, u) && u.phase == Running
    ensures u.analysed + [u.current] + Admissible(banned, Advance(u.current, 1), Distance(u.current, u.final)) ==
            Work(banned, start, u.final)
  {
    WorkUnfolds(banned, u.current, u.final);
  }

  // Whatever ran before, fetching keeps the invariant.
  lemma ProceedKeepsInv(banned: Word -> bool, start: Word, u: Unit)
    requires u.phase != Stopped && u.executedBefore <= u.executed
    requires Distance(start, u.current) <= Distance(start, u.final)
    requires u.written == u.analysed
    requires u.analysed + Admissible(banned, Advance(u.current, 1), Distance(u.current, u.final)) ==
             Work(banned, start, u.final)
    requires u.executed + u.hangs + (if banned(start) then 1 else 0) == Distance(start, u.current) + 1
    ensures Inv(banned, start, Proceed(u, NextWord(banned, u.current, u.final)))
  {
    var f := NextWord(banned, u.current, u.final);
    NextWordMeetsSpec(banned, u.current, u.final);
    NextWordInSteps(banned, u.current, u.final, f);
    DistanceAlong(start, u.current, u.final);
    if f.Found? {
      DistanceSum(start, u.current, f.next, u.final);
      assert Proceed(u, f).analysed == u.analysed;
    } else {
      ReachedFinal(u.current, u.final, 0);
      assert u.analysed + [] == u.analysed;
    }
  }

  lemma DistanceSum(a: Word, b: Word, c: Word, d: Word)
    requires Distance(a, b) <= Distance(a, d) && Distance(b, c) <= Distance(b, d)
    ensures Distance(a, c) == Distance(a, b) + Distance(b, c) <= Distance(a, d)
  {}

  lemma EntryKeepsInv(banned: Word -> bool, start: Word, u: Unit)
    requires Inv(banned, start, u) && u.phase == Waiting
    ensures Inv(banned, start, Entry(banned, u))
  {
    if banned(u.current) {
      WorkUnfolds(banned, start, u.final);
      ProceedKeepsInv(banned, start, u);
    }
  }

  lemma FaultKeepsInv(banned: Word -> bool, start: Word, u: Unit)
    requires Inv(banned, start, u) && u.phase == Running
    ensures Inv(banned, start, Fault(banned, u))
  {
    AnalyseCurrent(banned, start, u);
    ProceedKeepsInv(banned, start, u.(analysed := u.analysed + [u.current], executed := u.executed + 1));
  }

  lemma HangKeepsInv(banned: Word -> bool, start: Word, u: Unit)
    requires Inv(banned, start, u) && u.phase == Running
    ensures Inv(banned, start, Hang(banned, u))
  {
    AnalyseCurrent(banned, start, u);
    ProceedKeepsInv(banned, start,
      u.(analysed := u.analysed + [u.current], hangs := u.hangs + 1, signalled := false));
  }
}

// The unit as the code has it: an object updated in place by the handlers.
module ScannerUnit {
  import opened Words
  import opened Feeder
  import opened UnitModel

  class Scanner {
    const banned: Word -> bool      // the global blacklist
    ghost const start: Word         // the first word of the range
    var currentInstruction: Word
    var finalInstruction: Word
    var numInstrExec: nat
    var oldNumInstrExec: nat
    var isStopped: bool
    // What the handlers leave behind outside the object: log entries and page writes.
    ghost var entered: bool
    ghost var signalled: bool
    ghost var hangs: nat
    ghost var analysed: seq<Word>
    ghost var written: seq<Word>

    ghost function State(): Unit
      reads this
    {
      var phase := if isStopped then Stopped else if entered then Running else Waiting;
      Unit(phase, currentInstruction, finalInstruction, numInstrExec, oldNumInstrExec, signalled, hangs, analysed, written)
    }

    ghost predicate Valid()
      reads this
    {
      Inv(banned, start, State())
    }

    constructor (banned: Word -> bool, start: Word, final: Word)
      ensures this.banned == banned && this.start == start
      ensures State() == NewUnit(start, final)
      ensures currentInstruction == start && finalInstruction == final
      ensures numInstrExec == oldNumInstrExec == 0 && !isStopped && !entered && !signalled
      ensures hangs == 0 && analysed == written == []
    {
      this.banned, this.start := banned, start;
      currentInstruction, finalInstruction := start, final;
      numInstrExec, oldNumInstrExec, isStopped := 0, 0, false;
      entered, signalled, hangs, analysed, written := false, false, 0, [], [];
    }

    method FetchInstruction() returns (finished: bool, next: Word)
      modifies this`numInstrExec
      ensures var f := NextWord(banned, currentInstruction, finalInstruction);
        && finished == f.Exhausted?
        && numInstrExec == old(numInstrExec) + f.skipped
        && next == if finished then currentInstruction else f.next
    {
      var f := Exhaustive(banned, currentInstruction, finalInstruction);
      NextWordInSteps(banned, currentInstruction, finalInstruction, f);
      numInstrExec := numInstrExec + f.skipped;
      finished := f.Exhausted?;
      next := if finished then currentInstruction else f.next;
    }

    // writeInstruction and the return to the scanned word.
    method WriteInstruction(instr: Word)
      modifies this`written
      ensures written == old(written) + [instr]
    {
      written := written + [instr];
    }

    // Marks the unit as stopped; the code then waits forever.
    method StopWorker()
      modifies this`isStopped
      ensures isStopped
    {
      isStopped := true;
    }

    method EntryHandler()
      requires Valid() && State().phase == Waiting
      modifies this
      ensures State() == Entry(banned, old(State())) && Valid()
    {
      EntryKeepsInv(banned, start, State());
      entered := true;
      if banned(currentInstruction) {
        var finished, next := FetchInstruction();
        if finished {
          StopWorker();
          return;
        }
        currentInstruction := next;
      }
      WriteInstruction(currentInstruction);
    }

    method FaultHandler()
      requires Valid() && State().phase == Running
      modifies this
      ensures State() == Fault(banned, old(State())) && Valid()
    {
      FaultKeepsInv(banned, start, State());
      analysed := analysed + [currentInstruction];
      var finished, next := FetchInstruction();
      numInstrExec := numInstrExec + 1;
      if finished {
        StopWorker();
        return;
      }
      WriteInstruction(next);
      currentInstruction := next;
    }

    method HangHandler()
      requires Valid() && State().phase == Running
      modifies this
      ensures State() == Hang(banned, old(State())) && Valid()
    {
      HangKeepsInv(banned, start, State());
      signalled, hangs := false, hangs + 1;
      analysed := analysed + [currentInstruction];
      var finished, next := FetchInstruction();
      if finished {
        StopWorker();
        return;
      }
      currentInstruction := next;
      WriteInstruction(currentInstruction);
    }

    // The ptrace method: the same scan as one loop in the tracing process.  At the loop head
    // the unit is a step behind the handlers' state u: the next word is yet to be written.
    ghost predicate AtLoopHead(u: Unit, finished: bool)
      reads this
    {
      u == if finished then State().(phase := Stopped)
           else State().(phase := Running, written := written + [currentInstruction])
    }

    method PtraceLoop()
      requires Valid() && State().phase == Waiting
      modifies this
      ensures Valid() && isStopped && hangs == 0
      ensures analysed == Work(banned, start, finalInstruction) && finalInstruction == old(finalInstruction)
    {
      ghost var u := Entry(banned, State());
      EntryKeepsInv(banned, start, State());
      var finished := SkipBannedStart();
      while !finished
        invariant Inv(banned, start, u) && u.final == old(finalInstruction) && u.hangs == 0
        invariant AtLoopHead(u, finished) && (u.phase == Stopped <==> finished)
        decreases !finished, Distance(u.current, u.final)
      {
        ghost var v := NextState(u);
        finished := ScanOne(u);
        u := v;
      }
      isStopped := true;
    }

    method SkipBannedStart() returns (finished: bool)
      requires State().phase == Waiting
      modifies this
      ensures AtLoopHead(Entry(banned, old(State())), finished)
      ensures finished <==> Entry(banned, old(State())).phase == Stopped
    {
      finished := false;
      if banned(currentInstruction) {
        var none, next := FetchInstruction();
        finished, currentInstruction := none, next;
      }
    }

    // One iteration of the loop.
    method ScanOne(ghost u: Unit) returns (finished: bool)
      requires AtLoopHead(u, false)
      modifies this
      ensures AtLoopHead(Fault(banned, u), finished)
      ensures finished <==> Fault(banned, u).phase == Stopped
    {
      WriteInstruction(currentInstruction);
      analysed := analysed + [currentInstruction];
      numInstrExec := numInstrExec + 1;
      var none, next := FetchInstruction();
      finished, currentInstruction := none, next;
    }

    // Every iteration gets closer to the final word.
    ghost function NextState(u: Unit): (v: Unit)
      requires Inv(banned, start, u) && u.phase == Running
      ensures v == Fault(banned, u) && Inv(banned, start, v) && v.final == u.final && v.hangs == u.hangs
      ensures v.phase == Running ==> Distance(v.current, v.final) < Distance(u.current, u.final)
    {
      FaultKeepsInv(banned, start, u);
      NextWordMeetsSpec(banned, u.current, u.final);
      NextWordInSteps(banned, u.current, u.final, NextWord(banned, u.current, u.final));
      DistanceAlong(u.current, Fault(banned, u).current, u.final);
      Fault(banned, u)
    }
  }
}
