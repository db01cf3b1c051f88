// The RV64GC enumerator: instructions of two lengths, searched in two modes.
//
// A parcel (16 bits) is first tried as a 2-byte instruction against the guard page.  If the
// processor wanted more bytes than that (a size error), the parcel is extended to 4 bytes
// and every upper half is tried before moving on to the next parcel.

// Which attempts a unit is to make, as a function of the parcels that raised a size error.
module VleModel {
  import opened Words

  const HALF: int := 0x1_0000

  datatype Try = Try(word: Word, size: nat)

  function Parcel(w: Word): nat { w % HALF }
  function Upper(w: Word): nat { w / HALF }

  // construct(): the two halves do not overlap, so or-ing them is adding them.
  function Construct(parcel: nat, upper: nat): Word
    requires parcel < HALF && upper < HALF
  {
    parcel + upper * HALF
  }

  lemma Deconstruct(parcel: nat, upper: nat)
    requires parcel < HALF && upper < HALF
    ensures Parcel(Construct(parcel, upper)) == parcel && Upper(Construct(parcel, upper)) == upper
  {}

  // The 4-byte attempts with upper halves below n.
  function Uppers(banned: Word -> bool, parcel: nat, n: nat): seq<Try>
    requires parcel < HALF && n <= HALF
  {
    if n == 0 then []
    else
      var w := Construct(parcel, n - 1);
      Uppers(banned, parcel, n - 1) + (if banned(w) then [] else [Try(w, 4)])
  }

  // All attempts on one parcel, if n upper halves are to be tried.
  function Attempts(banned: Word -> bool, grew: set<nat>, parcel: nat, n: nat): seq<Try>
    requires parcel < HALF && n <= HALF
  {
    if banned(parcel) then []
    else [Try(parcel, 2)] + (if parcel in grew then Uppers(banned, parcel, n) else [])
  }

  // All attempts on the parcels from start up to but not including end.
  function Sweep(banned: Word -> bool, grew: set<nat>, start: nat, end: nat): seq<Try>
    requires start <= end <= HALF
    decreases end
  {
    if start == end then []
    else Sweep(banned, grew, start, end - 1) + Attempts(banned, grew, end - 1, HALF)
  }

  // What a stopped unit has tried.  The last parcel is extended only with the upper halves
  // up to the one in the final word, which is 0 in every run main() can start.
  function FullSweep(banned: Word -> bool, grew: set<nat>, start: nat, final: Word): seq<Try>
    requires start <= Parcel(final)
  {
    Sweep(banned, grew, start, Parcel(final)) +
    Attempts(banned, grew, Parcel(final), Upper(final) + 1)
  }

  // Size errors on later parcels do not change what was tried before.
  lemma {:induction false} SweepFrame(banned: Word -> bool, grew: set<nat>, start: nat, end: nat, p: nat)
    requires start <= end <= HALF && end <= p
    ensures Sweep(banned, grew + {p}, start, end) == Sweep(banned, grew, start, end)
    decreases end
  {
    if start < end {
      SweepFrame(banned, grew, start, end - 1, p);
    }
  }

  // The upper halves a parcel can still be given.
  function LastUpper(parcel: nat, final: Word): nat
  {
    if parcel == Parcel(final) then Upper(final) else HALF - 1
  }

  // What holds whenever a scanning unit is about to execute `current` with `size` bytes.
  ghost predicate Scanning(banned: Word -> bool, grew: set<nat>, start: nat, final: Word, current: Word, size: nat, log: seq<Try>)
  {
    var p, u := Parcel(current), Upper(current);
    && start <= p <= Parcel(final) && u <= LastUpper(p, final)
    && !banned(current) && !banned(p)
    && (size == 2 || size == 4)
    && (forall q :: q in grew ==> start <= q <= p)
    && (size == 2 ==> u == 0 && p !in grew && log == Sweep(banned, grew, start, p))
    && (size == 4 ==> p in grew && log == Sweep(banned, grew, start, p) + [Try(p, 2)] + Uppers(banned, p, u))
  }

  // What holds when `current` has been dealt with and the next attempt is to be chosen.
  ghost predicate Tried(banned: Word -> bool, grew: set<nat>, start: nat, final: Word, current: Word, size: nat, sizeError: bool, log: seq<Try>)
  {
    var p, u := Parcel(current), Upper(current);
    && start <= p <= Parcel(final) && u <= LastUpper(p, final)
    && (size == 2 || size == 4)
    && (forall q :: q in grew ==> start <= q <= p)
    && (size == 2 ==> u == 0)
    && (size == 2 && sizeError ==> !banned(p) && p in grew && log == Sweep(banned, grew, start, p) + [Try(p, 2)])
    && (size == 2 && !sizeError ==> log == Sweep(banned, grew, start, p + 1) && p !in grew)
    && (size == 4 ==> !sizeError && !banned(p) && p in grew)
    && (size == 4 ==> log == Sweep(banned, grew, start, p) + [Try(p, 2)] + Uppers(banned, p, u + 1))
  }

  // Attempting the current word leads from Scanning to Tried.
  lemma AttemptMade(banned: Word -> bool, grew: set<nat>, start: nat, final: Word, current: Word, size: nat, sizeError: bool, log: seq<Try>)
    requires Scanning(banned, grew, start, final, current, size, log)
    requires sizeError ==> size == 2
    ensures Tried(banned, if sizeError then grew + {Parcel(current)} else grew, start, final, current, size, sizeError, log + [Try(current, size)])
  {
    var p, u := Parcel(current), Upper(current);
    Deconstruct(p, u);
    if sizeError {
      SweepFrame(banned, grew, start, p, p);
    }
    if size == 4 {
      assert Uppers(banned, p, u + 1) == Uppers(banned, p, u) + [Try(current, 4)];
    }
  }

  // The log once the last upper half of a parcel has been tried ...
  lemma ParcelDone(banned: Word -> bool, grew: set<nat>, start: nat, p: nat, log: seq<Try>)
    requires start <= p < HALF && !banned(p) && p in grew
    requires log == Sweep(banned, grew, start, p) + [Try(p, 2)] + Uppers(banned, p, HALF)
    ensures log == Sweep(banned, grew, start, p + 1)
  {}

  // ... and once the final word has been.
  lemma FinalTried(banned: Word -> bool, grew: set<nat>, start: nat, final: Word, log: seq<Try>)
    requires var p := Parcel(final);
      && start <= p && !banned(p) && p in grew
      && log == Sweep(banned, grew, start, p) + [Try(p, 2)] + Uppers(banned, p, Upper(final) + 1)
    ensures log == FullSweep(banned, grew, start, final)
  {}

  // How much is left: strictly decreasing, so a bound on the number of further attempts.
  function Rank(final: Word, current: Word, size: nat): int
  {
    ((Parcel(final) - Parcel(current)) * 2 + (if size == 2 then 1 else 0)) * HALF + (HALF - 1 - Upper(current))
  }

  // The same, as the lexicographic order on (parcels left, size, upper halves left).
  ghost predicate Closer(final: Word, current: Word, size: nat, next: Word, nextSize: nat)
  {
    var left, left' := Parcel(final) - Parcel(current), Parcel(final) - Parcel(next);
    || left' < left
    || (left' == left && nextSize > size)
    || (left' == left && nextSize == size && Upper(next) > Upper(current))
  }

  lemma CloserLowersRank(final: Word, current: Word, size: nat, next: Word, nextSize: nat)
    requires Parcel(next) <= Parcel(final) && size in {2, 4} && nextSize in {2, 4}
    requires Closer(final, current, size, next, nextSize)
    ensures 0 <= Rank(final, next, nextSize) < Rank(final, current, size)
  {}

  // How many words the fetch stage has gone past on the way to an attempt, when so many parcels have
  // been extended: one for each parcel, and all upper halves of each parcel extended before.
  function Walked(start: nat, extended: int, current: Word, size: nat): int
  {
    Parcel(current) - start + (if size == 4 then (extended - 1) * HALF + 1 + Upper(current) else extended * HALF)
  }

  // The same for a unit that has stopped.
  function WalkedAll(start: nat, grew: set<nat>, final: Word): int
  {
    Walked(start, |grew|, final, if Parcel(final) in grew then 4 else 2)
  }

  // The attempts of a stopped unit, spelled out: each admissible parcel once at size 2, and
  // each parcel that raised a size error once with every admissible upper half it may get.
  ghost predicate Due(banned: Word -> bool, grew: set<nat>, start: nat, final: Word, t: Try)
  {
    var p, u := Parcel(t.word), Upper(t.word);
    && start <= p <= Parcel(final) && !banned(p) && !banned(t.word)
    && ((t.size == 2 && u == 0) || (t.size == 4 && p in grew && u <= LastUpper(p, final)))
  }

  lemma {:induction false} UppersMember(banned: Word -> bool, parcel: nat, n: nat, t: Try)
    requires parcel < HALF && n <= HALF
    ensures t in Uppers(banned, parcel, n) <==>
            t.size == 4 && Parcel(t.word) == parcel && Upper(t.word) < n && !banned(t.word)
  {
    if n > 0 {
      UppersMember(banned, parcel, n - 1, t);
      Deconstruct(parcel, n - 1);
      if Parcel(t.word) == parcel && Upper(t.word) == n - 1 {
        assert t.word == Construct(parcel, n - 1);
      }
    }
  }

  lemma AttemptsMember(banned: Word -> bool, grew: set<nat>, parcel: nat, n: nat, t: Try)
    requires parcel < HALF && 1 <= n <= HALF
    ensures t in Attempts(banned, grew, parcel, n) <==>
            && Parcel(t.word) == parcel && !banned(parcel) && !banned(t.word)
            && ((t.size == 2 && Upper(t.word) == 0) || (t.size == 4 && parcel in grew && Upper(t.word) < n))
  {
    UppersMember(banned, parcel, n, t);
    Deconstruct(parcel, 0);
  }

  lemma {:induction false} SweepMember(banned: Word -> bool, grew: set<nat>, start: nat, end: nat, t: Try)
    requires start <= end <= HALF
    ensures t in Sweep(banned, grew, start, end) <==>
            && start <= Parcel(t.word) < end && !banned(Parcel(t.word)) && !banned(t.word)
            && ((t.size == 2 && Upper(t.word) == 0) || (t.size == 4 && Parcel(t.word) in grew))
    decreases end
  {
    hide Attempts, Parcel;
    if start < end {
      SweepMember(banned, grew, start, end - 1, t);
      AttemptsMember(banned, grew, end - 1, HALF, t);
    }
  }

  lemma SweepTriesWhatIsDue(banned: Word -> bool, grew: set<nat>, start: nat, final: Word, t: Try)
    requires start <= Parcel(final)
    ensures t in FullSweep(banned, grew, start, final) <==> Due(banned, grew, start, final, t)
  {
    SweepMember(banned, grew, start, Parcel(final), t);
    AttemptsMember(banned, grew, Parcel(final), Upper(final) + 1, t);
  }

  ghost predicate NoRepeats(s: seq<Try>)
  {
    forall i, j :: 0 <= i < j < |s| ==> s[i] != s[j]
  }

  lemma NoRepeatsJoin(s: seq<Try>, t: seq<Try>)
    requires NoRepeats(s) && NoRepeats(t) && forall x :: x in s ==> x !in t
    ensures NoRepeats(s + t)
  {
    forall i, j | 0 <= i < j < |s + t| ensures (s + t)[i] != (s + t)[j] {
      if i < |s| <= j {
        assert (s + t)[i] in s && (s + t)[j] == t[j - |s|];
      }
    }
  }

  lemma {:induction false} UppersOnce(banned: Word -> bool, parcel: nat, n: nat)
    requires parcel < HALF && n <= HALF
    ensures NoRepeats(Uppers(banned, parcel, n))
  {
    if n > 0 {
      UppersOnce(banned, parcel, n - 1);
      Deconstruct(parcel, n - 1);
      UppersMember(banned, parcel, n - 1, Try(Construct(parcel, n - 1), 4));
    }
  }

  lemma AttemptsOnce(banned: Word -> bool, grew: set<nat>, parcel: nat, n: nat)
    requires parcel < HALF && n <= HALF
    ensures NoRepeats(Attempts(banned, grew, parcel, n))
  {
    UppersOnce(banned, parcel, n);
    UppersMember(banned, parcel, n, Try(parcel, 2));
    NoRepeatsJoin([Try(parcel, 2)], Uppers(banned, parcel, n));
  }

  // The attempts on a parcel are new after a sweep of the parcels below it.
  lemma SweepExtends(banned: Word -> bool, grew: set<nat>, start: nat, end: nat, n: nat)
    requires start <= end < HALF && 1 <= n <= HALF
    requires NoRepeats(Sweep(banned, grew, start, end))
    ensures NoRepeats(Sweep(banned, grew, start, end) + Attempts(banned, grew, end, n))
  {
    var before, after := Sweep(banned, grew, start, end), Attempts(banned, grew, end, n);
    AttemptsOnce(banned, grew, end, n);
    forall t | t in before ensures t !in after {
      SweepMember(banned, grew, start, end, t);
      AttemptsMember(banned, grew, end, n, t);
    }
    NoRepeatsJoin(before, after);
  }

  lemma {:induction false} SweepOnce(banned: Word -> bool, grew: set<nat>, start: nat, end: nat)
    requires start <= end <= HALF
    ensures NoRepeats(Sweep(banned, grew, start, end))
    decreases end
  {
    if start < end {
      SweepOnce(banned, grew, start, end - 1);
      SweepExtends(banned, grew, start, end - 1, HALF);
    }
  }

  lemma FullSweepOnce(banned: Word -> bool, grew: set<nat>, start: nat, final: Word)
    requires start <= Parcel(final)
    ensures NoRepeats(FullSweep(banned, grew, start, final))
  {
    SweepOnce(banned, grew, start, Parcel(final));
    SweepExtends(banned, grew, start, Parcel(final), Upper(final) + 1);
  }
}

// The unit itself: the search loops, the handlers and the instruction page they write.
module VleUnit {
  import opened Words
  import opened VleModel

  const PAGE_SIZE: nat := 4096

  // stdPage: copies of the 2-byte c.ebreak, 0x9002, least significant byte first.
  function FillerByte(i: nat): nat
  {
    if i % 2 == 0 then 0x02 else 0x90
  }

  // Byte k of an instruction in memory.
  function ByteOf(w: Word, k: nat): nat
    requires k < 4
  {
    if k == 0 then w % 0x100
    else if k == 1 then w / 0x100 % 0x100
    else if k == 2 then w / 0x1_0000 % 0x100
    else w / 0x100_0000
  }

  // How the processor can answer an attempt.
  datatype Outcome = Trap | SizeError | Hang

  class RiscvUnit {
    const banned: Word -> bool
    const start: Word
    const finalInstruction: Word
    const instructionPage: array<nat>
    var instructionPointer: nat         // as an offset into the page
    var currentInstruction: Word
    var currentInstructionSize: nat
    var sizeError: bool
    var isStopped: bool
    var numInstrExec: nat
    ghost var grew: set<nat>            // the parcels that raised a size error
    ghost var log: seq<Try>             // the attempts made, in order
    ghost var hangs: nat

    // Everything on the page below the given offset is filler.
    ghost predicate FillerBelow(offset: nat)
      reads instructionPage
    {
      && instructionPage.Length == PAGE_SIZE
      && forall i :: 0 <= i < offset && i < PAGE_SIZE ==> instructionPage[i] == FillerByte(i)
    }

    // The instruction ends exactly at the end of the page, and the rest of it is filler.
    ghost predicate PageHolds(w: Word, size: nat)
      reads instructionPage, this`instructionPointer
    {
      && size <= 4 && instructionPointer + size == PAGE_SIZE && FillerBelow(instructionPointer)
      && forall k :: 0 <= k < size ==> instructionPage[instructionPointer + k] == ByteOf(w, k)
    }

    // What the processor reads there: the low half of the word or all of it, least significant byte
    // first, and the filler 0x9002 at every even offset before it.
    lemma PageReads(w: Word, size: nat)
      requires PageHolds(w, size) && (size == 2 || size == 4)
      ensures instructionPage.Length == 4096 && instructionPointer + size == 4096
      ensures forall i :: 0 <= i < 4096 ==> 0 <= instructionPage[i] < 0x100
      ensures var page, ip := instructionPage, instructionPointer;
        if size == 2 then page[ip] + 0x100 * page[ip + 1] == w % 0x1_0000
        else page[ip] + 0x100 * page[ip + 1] + 0x1_0000 * page[ip + 2] + 0x100_0000 * page[ip + 3] == w
      ensures forall i :: 0 <= i && i + 1 < instructionPointer && i % 2 == 0 ==>
        instructionPage[i] == 0x02 && instructionPage[i + 1] == 0x90
    {
      BytesAre(w);
      var page, ip := instructionPage, instructionPointer;
      assert forall k :: 0 <= k < size ==> page[ip + k] == ByteOf(w, k);
      assert page[ip] == page[ip + 0];
      forall i | 0 <= i < 4096 ensures 0 <= page[i] < 0x100 {
        if i >= ip {
          assert page[ip + (i - ip)] == ByteOf(w, i - ip);
        }
      }
    }

    static lemma BytesAre(w: Word)
      ensures forall k :: 0 <= k < 4 ==> 0 <= ByteOf(w, k) < 0x100
      ensures ByteOf(w, 0) + 0x100 * ByteOf(w, 1) == w % 0x1_0000
      ensures ByteOf(w, 0) + 0x100 * ByteOf(w, 1) + 0x1_0000 * ByteOf(w, 2) + 0x100_0000 * ByteOf(w, 3) == w
    {}

    // The state at the return of every handler of a unit that is still scanning.
    ghost predicate Running()
      reads this, instructionPage
    {
      && !isStopped && !sizeError
      && Scanning(banned, grew, start, finalInstruction, currentInstruction, currentInstructionSize, log)
      && PageHolds(currentInstruction, currentInstructionSize)
      // Conservation: every attempt and every word gone past is counted once, but for the hangs.
      && numInstrExec + hangs == |log| + Walked(start, |grew|, currentInstruction, currentInstructionSize)
    }

    ghost predicate Finished()
      reads this
    {
      && isStopped && start <= Parcel(finalInstruction) && log == FullSweep(banned, grew, start, finalInstruction)
      && numInstrExec + hangs == |log| + WalkedAll(start, grew, finalInstruction)
    }

    // How far the fetch stage had come before the attempt just made.
    ghost function WalkedSoFar(): int
      reads this
    {
      if sizeError then Walked(start, |grew| - 1, currentInstruction, 2)
      else Walked(start, |grew|, currentInstruction, currentInstructionSize)
    }

    ghost predicate IsFresh()
      reads this, instructionPage
    {
      && instructionPointer + 2 == PAGE_SIZE && FillerBelow(PAGE_SIZE)
      && currentInstruction == start <= Parcel(finalInstruction) && currentInstructionSize == 2
      && !isStopped && !sizeError && grew == {} && log == [] && numInstrExec == hangs == 0
    }

    constructor (banned: Word -> bool, start: Word, final: Word)
      requires start <= Parcel(final)
      ensures this.banned == banned && this.start == start && this.finalInstruction == final
      ensures IsFresh() && fresh(instructionPage)
    {
      this.banned, this.start, this.finalInstruction := banned, start, final;
      currentInstruction, currentInstructionSize := start, 2;
      sizeError, isStopped, grew, log, numInstrExec, hangs := false, false, {}, [], 0, 0;
      instructionPage := new nat[PAGE_SIZE];
      instructionPointer := PAGE_SIZE - 2;
      new;
      WriteStdPage();
    }

    method WriteStdPage()
      requires instructionPage.Length == PAGE_SIZE
      modifies instructionPage
      ensures FillerBelow(PAGE_SIZE)
    {
      forall i | 0 <= i < PAGE_SIZE {
        instructionPage[i] := FillerByte(i);
      }
    }

    method WriteInstruction(instr: Word)
      requires currentInstructionSize <= 4 && instructionPointer + currentInstructionSize == PAGE_SIZE
      requires FillerBelow(instructionPointer)
      modifies instructionPage
      ensures PageHolds(instr, currentInstructionSize)
    {
      forall k | 0 <= k < currentInstructionSize {
        instructionPage[instructionPointer + k] := ByteOf(instr, k);
      }
    }

    // The vleExhaustive fetch stage.
    method VleExhaustive() returns (finished: bool, next: Word)
      requires Tried(banned, grew, start, finalInstruction, currentInstruction, currentInstructionSize, sizeError, log)
      requires instructionPointer + currentInstructionSize == PAGE_SIZE && FillerBelow(instructionPointer)
      modifies this`sizeError, this`instructionPointer, this`currentInstructionSize, this`numInstrExec, instructionPage
      ensures !sizeError
      ensures finished ==> log == FullSweep(banned, grew, start, finalInstruction)
      ensures numInstrExec - old(numInstrExec) ==
        (if finished then WalkedAll(start, grew, finalInstruction) else Walked(start, |grew|, next, currentInstructionSize))
        - old(WalkedSoFar())
      ensures !finished ==>
        && Scanning(banned, grew, start, finalInstruction, next, currentInstructionSize, log)
        && Closer(finalInstruction, currentInstruction, old(currentInstructionSize), next, currentInstructionSize)
        && instructionPointer + currentInstructionSize == PAGE_SIZE && FillerBelow(instructionPointer)
    {
      if sizeError {
        numInstrExec := numInstrExec + 1;
        sizeError := false;
        instructionPointer := PAGE_SIZE - 4;
        currentInstructionSize := 4;
        return false, currentInstruction;
      }
      var part0, part1 := Parcel(currentInstruction), Upper(currentInstruction);
      if currentInstructionSize == 4 {
        var found;
        finished, found, next := NextUpper(part0, part1);
        if finished || found {
          return;
        }
      }
      finished, next := NextParcel(part0);
    }

    // The loop over upper halves.  Ends by finding one, by reaching the final word, or by
    // switching back to 2-byte attempts once all upper halves have been tried.
    method NextUpper(part0: nat, upper: nat) returns (finished: bool, found: bool, next: Word)
      requires part0 == Parcel(currentInstruction) && upper == Upper(currentInstruction)
      requires currentInstructionSize == 4 && !sizeError
      requires Tried(banned, grew, start, finalInstruction, currentInstruction, 4, false, log)
      requires instructionPointer + 4 == PAGE_SIZE && FillerBelow(instructionPointer)
      modifies this`instructionPointer, this`currentInstructionSize, this`numInstrExec, instructionPage
      ensures finished ==> log == FullSweep(banned, grew, start, finalInstruction)
      ensures finished ==> part0 == Parcel(finalInstruction)
      ensures numInstrExec - old(numInstrExec) ==
        (if finished then Upper(finalInstruction) else if found then Upper(next) else HALF - 1) - upper
      ensures found ==> !finished && currentInstructionSize == 4
      ensures found ==>
        && Scanning(banned, grew, start, finalInstruction, next, 4, log)
        && Parcel(next) == part0 && Upper(next) > upper
      ensures !finished && !found ==>
        && part0 < Parcel(finalInstruction) && currentInstructionSize == 2
        && log == Sweep(banned, grew, start, part0 + 1)
      ensures !finished ==> instructionPointer + currentInstructionSize == PAGE_SIZE && FillerBelow(instructionPointer)
    {
      hide FillerByte, ByteOf, Sweep, Attempts, FullSweep;
      var part1 := upper;
      next := currentInstruction;
      finished, found := false, false;
      while !found
        invariant !finished && upper <= part1 <= LastUpper(part0, finalInstruction)
        invariant numInstrExec - old(numInstrExec) == part1 - upper
        invariant next == Construct(part0, part1)
        invariant currentInstructionSize == 4 && instructionPointer + 4 == PAGE_SIZE && FillerBelow(instructionPointer)
        invariant found ==> part1 > upper && !banned(next)
        invariant var done := if found then part1 else part1 + 1;
          log == Sweep(banned, grew, start, part0) + [Try(part0, 2)] + Uppers(banned, part0, done)
        decreases HALF - part1, !found
      {
        Deconstruct(part0, part1);
        if next == finalInstruction {
          FinalTried(banned, grew, start, finalInstruction, log);
          return true, false, next;
        }
        if part1 == HALF - 1 {
          ParcelDone(banned, grew, start, part0, log);
          WriteStdPage();
          instructionPointer := PAGE_SIZE - 2;
          currentInstructionSize := 2;
          return false, false, next;
        }
        part1 := part1 + 1;
        next := Construct(part0, part1);
        found := !banned(next);
        numInstrExec := numInstrExec + 1;
      }
      Deconstruct(part0, part1);
    }

    // The loop over parcels.
    method NextParcel(parcel: nat) returns (finished: bool, next: Word)
      requires start <= parcel <= Parcel(finalInstruction) && parcel == Parcel(currentInstruction)
      requires parcel == Parcel(finalInstruction) ==> parcel !in grew
      requires (forall q :: q in grew ==> start <= q <= parcel) && log == Sweep(banned, grew, start, parcel + 1)
      modifies this`numInstrExec
      ensures finished ==> log == FullSweep(banned, grew, start, finalInstruction)
      ensures finished ==> Parcel(finalInstruction) !in grew
      ensures numInstrExec - old(numInstrExec) == Parcel(if finished then finalInstruction else next) - parcel
      ensures !finished ==> Parcel(next) > parcel && Scanning(banned, grew, start, finalInstruction, next, 2, log)
    {
      hide FillerByte, ByteOf, Uppers;
      var part0 := parcel;
      var found := false;
      next := currentInstruction;
      while !found
        invariant parcel <= part0 <= Parcel(finalInstruction) && Parcel(next) == part0
        invariant numInstrExec - old(numInstrExec) == part0 - parcel
        invariant found ==> part0 > parcel && next == part0 && !banned(next)
        invariant log == Sweep(banned, grew, start, if found then part0 else part0 + 1)
        invariant part0 == Parcel(finalInstruction) ==> part0 !in grew
        decreases HALF - part0, !found
      {
        if Parcel(next) == Parcel(finalInstruction) {
          return true, next;
        }
        part0 := part0 + 1;
        next := Construct(part0, 0);
        found := !banned(next);
        numInstrExec := numInstrExec + 1;
      }
      finished := false;
    }

    method EntryHandler()
      requires IsFresh()
      modifies this, instructionPage
      ensures Running() || Finished()
      ensures grew == {} && log == [] && hangs == 0
    {
      if banned(currentInstruction) {
        assert Sweep(banned, grew, start, start + 1) == [];
        var finished, next := VleExhaustive();
        if finished {
          isStopped := true;
          return;
        }
        currentInstruction := next;
      }
      WriteInstruction(currentInstruction);
    }

    // needsMore: the fault was a fetch beyond the page, just after a 2-byte instruction.
    method FaultHandler(needsMore: bool)
      requires Running() && (needsMore ==> currentInstructionSize == 2)
      modifies this, instructionPage
      ensures Running() || Finished()
      ensures Running() ==>
        Closer(finalInstruction, old(currentInstruction), old(currentInstructionSize), currentInstruction, currentInstructionSize)
      ensures log == old(log) + [Try(old(currentInstruction), old(currentInstructionSize))]
      ensures grew == old(grew) + if needsMore then {Parcel(old(currentInstruction))} else {}
      ensures hangs == old(hangs)
    {
      hide Sweep, Uppers, Attempts, FullSweep, FillerByte, ByteOf, Scanning, Tried;
      Analyse(needsMore);
      var finished, next := VleExhaustive();
      numInstrExec := numInstrExec + 1;
      if finished {
        isStopped := true;
        return;
      }
      WriteInstruction(next);
      currentInstruction := next;
    }

    method HangHandler()
      requires Running()
      modifies this, instructionPage
      ensures Running() || Finished()
      ensures Running() ==>
        Closer(finalInstruction, old(currentInstruction), old(currentInstructionSize), currentInstruction, currentInstructionSize)
      ensures log == old(log) + [Try(old(currentInstruction), old(currentInstructionSize))]
      ensures grew == old(grew) && hangs == old(hangs) + 1
    {
      hide Sweep, Uppers, Attempts, FullSweep, FillerByte, ByteOf, Scanning, Tried;
      Analyse(false);
      hangs := hangs + 1;
      WriteStdPage();
      var finished, next := VleExhaustive();
      if finished {
        isStopped := true;
        return;
      }
      currentInstruction := next;
      WriteInstruction(currentInstruction);
    }

    // basicAnalysisAndSizeCheckRiscv.
    method Analyse(needsMore: bool)
      requires Running() && (needsMore ==> currentInstructionSize == 2)
      modifies this`sizeError, this`grew, this`log
      ensures sizeError == needsMore
      ensures log == old(log) + [Try(currentInstruction, currentInstructionSize)]
      ensures grew == old(grew) + if needsMore then {Parcel(currentInstruction)} else {}
      ensures |grew| == old(|grew|) + (if needsMore then 1 else 0) && start <= Parcel(finalInstruction)
      ensures Tried(banned, grew, start, finalInstruction, currentInstruction, currentInstructionSize, sizeError, log)
    {
      AttemptMade(banned, grew, start, finalInstruction, currentInstruction, currentInstructionSize, needsMore, log);
      log := log + [Try(currentInstruction, currentInstructionSize)];
      if needsMore {
        sizeError := true;
        grew := grew + {Parcel(currentInstruction)};
      }
    }

    // A parcel counts as extended exactly if the processor asked for it.
    static ghost predicate GrewOnDemand(processor: Try -> Outcome, grew: set<nat>, log: seq<Try>)
    {
      forall p: Word :: p in grew <==> Try(p, 2) in log && processor(Try(p, 2)) == SizeError
    }

    static lemma DemandExtended(processor: Try -> Outcome, grew: set<nat>, log: seq<Try>, t: Try)
      requires GrewOnDemand(processor, grew, log) && (t.size == 2 || processor(t) != SizeError)
      ensures GrewOnDemand(processor, grew + (if processor(t) == SizeError then {t.word} else {}), log + [t])
    {
      var grew' := grew + (if processor(t) == SizeError then {t.word} else {});
      forall p: Word ensures p in grew' <==> Try(p, 2) in log + [t] && processor(Try(p, 2)) == SizeError {
        assert Try(p, 2) in log + [t] <==> Try(p, 2) in log || Try(p, 2) == t;
      }
    }

    // How many of the attempts hung.
    static function HangsIn(processor: Try -> Outcome, log: seq<Try>): nat
    {
      if log == [] then 0
      else HangsIn(processor, log[..|log| - 1]) + (if processor(log[|log| - 1]) == Hang then 1 else 0)
    }

    static lemma HangsExtended(processor: Try -> Outcome, log: seq<Try>, t: Try)
      ensures HangsIn(processor, log + [t]) == HangsIn(processor, log) + (if processor(t) == Hang then 1 else 0)
    {
      assert (log + [t])[..|log|] == log;
    }

    // One attempt, answered by the processor.
    method Attempt(processor: Try -> Outcome)
      requires Running() && GrewOnDemand(processor, grew, log)
      requires currentInstructionSize == 4 ==> processor(Try(currentInstruction, 4)) != SizeError
      modifies this, instructionPage
      ensures Running() || Finished()
      ensures Running() ==>
        0 <= Rank(finalInstruction, currentInstruction, currentInstructionSize) <
        old(Rank(finalInstruction, currentInstruction, currentInstructionSize))
      ensures GrewOnDemand(processor, grew, log)
      ensures old(hangs == HangsIn(processor, log)) ==> hangs == HangsIn(processor, log)
    {
      hide Sweep, Uppers, Attempts, FullSweep, FillerByte, ByteOf, Tried, Closer, Rank, Walked, WalkedAll,
        HangsIn, GrewOnDemand;
      ghost var t := Try(currentInstruction, currentInstructionSize);
      DemandExtended(processor, grew, log, t);
      HangsExtended(processor, log, t);
      match processor(Try(currentInstruction, currentInstructionSize)) {
        case Trap => FaultHandler(false);
        case SizeError => FaultHandler(true);
        case Hang => HangHandler();
      }
      if !isStopped {
        CloserLowersRank(finalInstruction, t.word, t.size, currentInstruction, currentInstructionSize);
      }
    }

    // A whole run against any processor: it ends, whatever each attempt turns out to do,
    // and by then exactly the attempts of FullSweep have been made.
    method Scan(processor: Try -> Outcome)
      requires IsFresh()
      requires forall w :: processor(Try(w, 4)) != SizeError
      modifies this, instructionPage
      ensures Finished() && GrewOnDemand(processor, grew, log) && hangs == HangsIn(processor, log)
      // The counter at the end: all attempts but the hangs, and every word gone past.
      ensures var last := finalInstruction % 0x1_0000;
        numInstrExec + hangs == |log| + last - start +
          (if last in grew then (|grew| - 1) * 0x1_0000 + 1 + finalInstruction / 0x1_0000 else |grew| * 0x1_0000)
    {
      EntryHandler();
      while !isStopped
        invariant Running() || Finished()
        invariant GrewOnDemand(processor, grew, log) && hangs == HangsIn(processor, log)
        decreases !isStopped, Rank(finalInstruction, currentInstruction, currentInstructionSize)
      {
        Attempt(processor);
      }
    }
  }
}
