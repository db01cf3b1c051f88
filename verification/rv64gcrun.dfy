// A whole RV64GC run: the parcels shared out over scanner units.
module VleRun {
  import opened Words
  import opened RunModel
  import opened Manager
  import opened VleModel
  import opened VleUnit

  // What a unit leaves behind.
  datatype Record = Record(grew: set<nat>, log: seq<Try>)

  ghost predicate Scanned(banned: Word -> bool, processor: Try -> Outcome, r: Range, d: Record)
  {
    && r.start <= Parcel(r.final)
    && d.log == FullSweep(banned, d.grew, r.start, r.final)
    && RiscvUnit.GrewOnDemand(processor, d.grew, d.log)
  }

  // A run over parcels: the range is handed out as for any other architecture.
  predicate Shared(first: Word, last: Word, numThreads: nat)
  {
    numThreads >= 1 && first <= last < HALF && (first < last || numThreads == 1)
  }

  function HandedOut(first: Word, last: Word, numThreads: nat): seq<Range>
    requires Shared(first, last, numThreads)
  {
    Ranges(first, last, UnitCount(numThreads, first, last))
  }

  ghost predicate AllScanned(banned: Word -> bool, processor: Try -> Outcome, ranges: seq<Range>, done: seq<Record>)
  {
    |done| == |ranges| && forall j :: 0 <= j < |done| ==> Scanned(banned, processor, ranges[j], done[j])
  }

  // Every unit scanning its range, as they do side by side without sharing anything.
  method ScanRanges(banned: Word -> bool, first: Word, last: Word, numThreads: nat, processor: Try -> Outcome)
    returns (ghost done: seq<Record>)
    requires Shared(first, last, numThreads) && forall w :: processor(Try(w, 4)) != SizeError
    ensures AllScanned(banned, processor, HandedOut(first, last, numThreads), done)
  {
    hide HandedOut, Scanned;
    var ranges := HandedOut(first, last, numThreads);
    HandedOutConsecutive(first, last, numThreads);
    InsideHalf(ranges, first, last);
    done := [];
    for j := 0 to |ranges|
      invariant |done| == j && forall i :: 0 <= i < j ==> Scanned(banned, processor, ranges[i], done[i])
    {
      ghost var d := ScanRange(banned, ranges[j], processor);
      done := done + [d];
    }
  }

  method ScanRange(banned: Word -> bool, r: Range, processor: Try -> Outcome) returns (ghost d: Record)
    requires r.start <= Parcel(r.final) && forall w :: processor(Try(w, 4)) != SizeError
    ensures Scanned(banned, processor, r, d)
  {
    var unit := new RiscvUnit(banned, r.start, r.final);
    unit.Scan(processor);
    d := Record(unit.grew, unit.log);
  }

  // Consecutive ranges of parcels are ranges of parcels.
  lemma {:induction false} InsideHalf(ranges: seq<Range>, first: Word, last: Word)
    requires Consecutive(ranges, first, last) && last < HALF
    ensures forall j :: 0 <= j < |ranges| ==> first <= ranges[j].start <= ranges[j].final <= last
    decreases |ranges|
  {
    var k := |ranges| - 1;
    if k > 0 {
      assert ranges[k].start == ranges[k - 1].final + 1;
      InsideHalf(ranges[..k], first, ranges[k - 1].final);
      assert forall j :: 0 <= j < k ==> ranges[..k][j] == ranges[j];
    }
  }

  // The range that has a parcel.
  lemma {:induction false} RangeOf(ranges: seq<Range>, first: Word, last: Word, p: Word) returns (j: nat)
    requires Consecutive(ranges, first, last) && last < HALF && first <= p <= last
    ensures j < |ranges| && ranges[j].start <= p <= ranges[j].final
    decreases |ranges|
  {
    j := |ranges| - 1;
    if p < ranges[j].start {
      assert ranges[j].start == ranges[j - 1].final + 1;
      j := RangeOf(ranges[..j], first, ranges[j - 1].final, p);
    }
  }

  lemma {:induction false} RangesApart(ranges: seq<Range>, first: Word, last: Word, i: nat, j: nat)
    requires Consecutive(ranges, first, last) && i < j < |ranges|
    ensures ranges[i].final < ranges[j].start
    decreases j - i
  {
    assert ranges[i + 1].start == ranges[i].final + 1;
    if i + 1 < j {
      RangesApart(ranges, first, last, i + 1, j);
    }
  }

  // What a complete search would try: each admissible parcel with 2 bytes, and each that the
  // processor wants more of with every admissible upper half.
  predicate Wanted(banned: Word -> bool, processor: Try -> Outcome, first: Word, last: Word, t: Try)
  {
    var p, u := Parcel(t.word), Upper(t.word);
    && first <= p <= last && !banned(p) && !banned(t.word)
    && ((t.size == 2 && u == 0) || (t.size == 4 && processor(Try(p, 2)) == SizeError))
  }

  // A 4-byte word on the last parcel of some unit, other than the first one there.
  predicate LeftOut(ranges: seq<Range>, t: Try)
  {
    t.size == 4 && Upper(t.word) > 0 && exists j :: 0 <= j < |ranges| && ranges[j].final == Parcel(t.word)
  }

  lemma OwnParcel(p: Word)
    requires p < HALF
    ensures Parcel(p) == p && Upper(p) == 0
  {}

  // One unit.
  lemma UnitTries(banned: Word -> bool, processor: Try -> Outcome, r: Range, d: Record, t: Try)
    requires Scanned(banned, processor, r, d) && r.start <= r.final < HALF
    ensures t in d.log <==>
      Wanted(banned, processor, r.start, r.final, t) && !(t.size == 4 && Upper(t.word) > 0 && Parcel(t.word) == r.final)
  {
    hide FullSweep, Parcel, Upper;
    var p := Parcel(t.word);
    OwnParcel(r.final);
    ParcelFits(t.word);
    OwnParcel(p);
    SweepTriesWhatIsDue(banned, d.grew, r.start, r.final, t);
    SweepTriesWhatIsDue(banned, d.grew, r.start, r.final, Try(p, 2));
    assert p in d.grew <==> Try(p, 2) in d.log && processor(Try(p, 2)) == SizeError;
    UpperFits(t.word);
  }

  lemma ParcelFits(w: Word)
    ensures Parcel(w) < HALF
  {}

  lemma UpperFits(w: Word)
    ensures 0 <= Upper(w) <= HALF - 1
  {}

  // The whole run tries what is wanted but for the words left out: those on the last parcel of a unit,
  // one parcel for each of the units.
  lemma RunTriesAllBut(banned: Word -> bool, processor: Try -> Outcome, first: Word, last: Word, numThreads: nat,
      done: seq<Record>, t: Try)
    requires Shared(first, last, numThreads)
    requires AllScanned(banned, processor, HandedOut(first, last, numThreads), done)
    ensures (exists j :: 0 <= j < |done| && t in done[j].log) <==>
      Wanted(banned, processor, first, last, t) && !LeftOut(HandedOut(first, last, numThreads), t)
  {
    hide HandedOut, Parcel, Upper, FullSweep, RangesOf, Ranges, Scanned;
    var ranges := HandedOut(first, last, numThreads);
    HandedOutConsecutive(first, last, numThreads);
    InsideHalf(ranges, first, last);
    if j :| 0 <= j < |done| && t in done[j].log {
      UnitTries(banned, processor, ranges[j], done[j], t);
      OnlyLast(ranges, first, last, j, t);
    }
    if Wanted(banned, processor, first, last, t) && !LeftOut(ranges, t) {
      ParcelFits(t.word);
      var j := RangeOf(ranges, first, last, Parcel(t.word));
      UnitTries(banned, processor, ranges[j], done[j], t);
    }
  }

  // Such a word: one unit scans the parcels 0 and 1, and is asked for more by each, but never tries
  // the second 4-byte word on parcel 1.
  lemma SecondWordLeftOut(processor: Try -> Outcome, done: seq<Record>)
    requires forall t :: processor(t) == if t.size == 2 then SizeError else Trap
    ensures var none := (w: Word) => false;
      AllScanned(none, processor, HandedOut(0, 1, 1), done) ==>
        Wanted(none, processor, 0, 1, Try(0x1_0001, 4)) && |done| == 1 && Try(0x1_0001, 4) !in done[0].log
  {
    hide Scanned;
    var none := (w: Word) => false;
    var t := Try(0x1_0001, 4);
    HandedOutConsecutive(0, 1, 1);
    assert HandedOut(0, 1, 1)[0].final == Parcel(t.word);
    if AllScanned(none, processor, HandedOut(0, 1, 1), done) {
      RunTriesAllBut(none, processor, 0, 1, 1, done, t);
    }
  }

  lemma HandedOutConsecutive(first: Word, last: Word, numThreads: nat)
    requires Shared(first, last, numThreads)
    ensures Consecutive(HandedOut(first, last, numThreads), first, last)
  {
    SplitIsEven(first, last, numThreads);
  }

  // A parcel in one range is the last of no other.
  lemma OnlyLast(ranges: seq<Range>, first: Word, last: Word, j: nat, t: Try)
    requires Consecutive(ranges, first, last) && j < |ranges|
    requires ranges[j].start <= Parcel(t.word) <= ranges[j].final
    ensures LeftOut(ranges, t) <==> t.size == 4 && Upper(t.word) > 0 && Parcel(t.word) == ranges[j].final
  {
    hide Parcel, Upper;
    forall i | 0 <= i < |ranges| && ranges[i].final == Parcel(t.word) ensures i == j {
      if i < j {
        RangesApart(ranges, first, last, i, j);
      } else if j < i {
        RangesApart(ranges, first, last, j, i);
      }
    }
  }

  // No attempt is made by two units.
  lemma TriedByOne(banned: Word -> bool, processor: Try -> Outcome, first: Word, last: Word, numThreads: nat,
      done: seq<Record>, i: nat, j: nat, t: Try)
    requires Shared(first, last, numThreads)
    ensures AllScanned(banned, processor, HandedOut(first, last, numThreads), done) && i < |done| && j < |done| ==>
      t in done[i].log && t in done[j].log ==> i == j
  {
    hide HandedOut, Parcel, Upper, FullSweep, RangesOf, Ranges, Scanned;
    var ranges := HandedOut(first, last, numThreads);
    HandedOutConsecutive(first, last, numThreads);
    InsideHalf(ranges, first, last);
    if AllScanned(banned, processor, ranges, done) && i < |done| && j < |done| && t in done[i].log && t in done[j].log {
      UnitTries(banned, processor, ranges[i], done[i], t);
      UnitTries(banned, processor, ranges[j], done[j], t);
      if i < j {
        RangesApart(ranges, first, last, i, j);
      } else if j < i {
        RangesApart(ranges, first, last, j, i);
      }
    }
  }
}
