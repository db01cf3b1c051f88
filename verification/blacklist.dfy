// The two blacklists of instruction words.
//
// `Blacklist` expands every value/don't-care pair into a set of words, so that searching
// is one lookup.  `LowMemoryBlacklist` keeps the pairs and tests them one by one.  Both
// are proved against MatchesAny, the meaning of the masks added so far, so after the same
// additions they answer every search alike.

// What a mask stands for, and the bit-deposit expansion of a mask into words.
// n is throughout the width of an instruction word, sizeof(instr_t) * 8.
module MaskExpansion {
  import opened Arithmetic
  import opened Bits

  datatype InstructionMask = InstructionMask(value: nat, dontCare: nat) {
    predicate Fits(n: nat)
    {
      value < Pow2(n) && dontCare < Pow2(n)
    }
  }

  // A mask stands for the words that agree with its value outside the don't-care bits.
  predicate Matches(n: nat, m: InstructionMask, w: nat)
    requires m.Fits(n)
  {
    And(w, Not(n, m.dontCare)) == And(m.value, Not(n, m.dontCare))
  }

  // How many bits of mask are set below position k.
  function Rank(mask: nat, k: nat): (r: nat)
    ensures r <= k
  {
    if k == 0 then 0 else Rank(mask, k - 1) + (if Bit(mask, k - 1) then 1 else 0)
  }

  lemma {:induction false} RankMonotone(mask: nat, a: nat, b: nat)
    requires a <= b
    ensures Rank(mask, a) <= Rank(mask, b)
    ensures Rank(mask, a) == Rank(mask, b) ==> forall k :: a <= k < b ==> !Bit(mask, k)
    decreases b
  {
    if a < b {
      RankMonotone(mask, a, b - 1);
    }
  }

  // Masking with a care mask keeps the bits that are not don't-care bits.
  lemma CareBit(n: nat, w: nat, dontCare: nat, b: nat)
    requires w < Pow2(n) && dontCare < Pow2(n)
    ensures And(w, Not(n, dontCare)) < Pow2(n)
    ensures Bit(And(w, Not(n, dontCare)), b) == (b < n && !Bit(dontCare, b) && Bit(w, b))
  {
    AndBound(w, Not(n, dontCare));
    AndBit(w, Not(n, dontCare), b);
    NotBit(n, dontCare, b);
  }

  ghost predicate AgreeOffMask(n: nat, v: nat, w: nat, dontCare: nat)
  {
    forall b: nat :: b < n && !Bit(dontCare, b) ==> Bit(w, b) == Bit(v, b)
  }

  lemma MatchesBits(n: nat, m: InstructionMask, w: nat)
    requires m.Fits(n) && w < Pow2(n)
    ensures Matches(n, m, w) <==> AgreeOffMask(n, m.value, w, m.dontCare)
  {
    var care := Not(n, m.dontCare);
    forall b: nat | b < n
      ensures (Bit(And(w, care), b) == Bit(And(m.value, care), b)) ==
              (!Bit(m.dontCare, b) ==> Bit(w, b) == Bit(m.value, b))
    {
      CareBit(n, w, m.dontCare, b);
      CareBit(n, m.value, m.dontCare, b);
    }
    CareBit(n, w, m.dontCare, 0);
    CareBit(n, m.value, m.dontCare, 0);
    if AgreeOffMask(n, m.value, w, m.dontCare) {
      SameBits(n, And(w, care), And(m.value, care));
    }
  }

  // Bit b of the word in which counter i is dealt out over the don't-care positions of m.
  predicate FillBit(m: InstructionMask, i: nat, b: nat)
  {
    if Bit(m.dontCare, b) then Bit(i, Rank(m.dontCare, b)) else Bit(m.value, b)
  }

  function Fill(n: nat, m: InstructionMask, i: nat): (w: nat)
    ensures w < Pow2(n)
  {
    AssembleBit((b: nat) => FillBit(m, i, b), 0, n, 0);
    Assemble((b: nat) => FillBit(m, i, b), 0, n)
  }

  lemma FillBits(n: nat, m: InstructionMask, i: nat)
    ensures forall b: nat :: b < n ==> Bit(Fill(n, m, i), b) == FillBit(m, i, b)
  {
    forall b: nat | b < n ensures Bit(Fill(n, m, i), b) == FillBit(m, i, b) {
      AssembleBit((c: nat) => FillBit(m, i, c), 0, n, b);
    }
  }

  // The don't-care bits of w from position k up, packed together: the inverse of Fill.
  function Pack(n: nat, w: nat, mask: nat, k: nat): nat
    requires k <= n
    decreases n - k
  {
    if k == n then 0
    else if Bit(mask, k) then (if Bit(w, k) then 1 else 0) + 2 * Pack(n, w, mask, k + 1)
    else Pack(n, w, mask, k + 1)
  }

  lemma {:induction false} PackBit(n: nat, w: nat, mask: nat, k: nat, b: nat)
    requires k <= n
    ensures Rank(mask, k) <= Rank(mask, n)
    ensures Pack(n, w, mask, k) < Pow2(Rank(mask, n) - Rank(mask, k))
    ensures k <= b < n && Bit(mask, b) ==>
      Rank(mask, k) <= Rank(mask, b) && Bit(Pack(n, w, mask, k), Rank(mask, b) - Rank(mask, k)) == Bit(w, b)
    decreases n - k
  {
    RankMonotone(mask, k, n);
    if k < n {
      RankMonotone(mask, k + 1, n);
      PackBit(n, w, mask, k + 1, b);
      if Bit(mask, k) && k < b < n && Bit(mask, b) {
        assert Pack(n, w, mask, k) / 2 == Pack(n, w, mask, k + 1);
      }
    }
  }

  // Only the packed counter fills in to w.
  lemma {:induction false} PackUnique(n: nat, w: nat, mask: nat, k: nat, i: nat)
    requires k <= n
    requires Rank(mask, k) <= Rank(mask, n) && i < Pow2(Rank(mask, n) - Rank(mask, k))
    requires forall b :: k <= b < n && Bit(mask, b) ==>
      Rank(mask, k) <= Rank(mask, b) && Bit(w, b) == Bit(i, Rank(mask, b) - Rank(mask, k))
    ensures Pack(n, w, mask, k) == i
    decreases n - k
  {
    if k < n {
      RankMonotone(mask, k + 1, n);
      if Bit(mask, k) {
        forall b | k + 1 <= b < n && Bit(mask, b)
          ensures Rank(mask, k + 1) <= Rank(mask, b) && Bit(w, b) == Bit(i / 2, Rank(mask, b) - Rank(mask, k + 1))
        {
          RankMonotone(mask, k + 1, b);
        }
        PackUnique(n, w, mask, k + 1, i / 2);
        assert Bit(w, k) == Bit(i, 0);
      } else {
        PackUnique(n, w, mask, k + 1, i);
      }
    }
  }

  function NumDontCares(n: nat, m: InstructionMask): nat
  {
    Rank(m.dontCare, n)
  }

  lemma FillInjective(n: nat, m: InstructionMask, i: nat, i': nat)
    requires i < Pow2(NumDontCares(n, m)) && i' < Pow2(NumDontCares(n, m))
    requires Fill(n, m, i) == Fill(n, m, i')
    ensures i == i'
  {
    hide Fill, Pow2;
    FillBits(n, m, i);
    FillBits(n, m, i');
    PackUnique(n, Fill(n, m, i), m.dontCare, 0, i);
    PackUnique(n, Fill(n, m, i'), m.dontCare, 0, i');
  }

  // The words inserted by the first c rounds of the expansion loop.
  function Expanded(n: nat, m: InstructionMask, c: nat): set<nat>
  {
    if c == 0 then {} else Expanded(n, m, c - 1) + {Fill(n, m, c - 1)}
  }

  lemma {:induction false} ExpandedMember(n: nat, m: InstructionMask, c: nat, w: nat)
    ensures w in Expanded(n, m, c) <==> exists i: nat :: i < c && Fill(n, m, i) == w
  {
    if c > 0 {
      ExpandedMember(n, m, c - 1, w);
    }
  }

  lemma {:induction false} ExpandedSize(n: nat, m: InstructionMask, c: nat)
    requires c <= Pow2(NumDontCares(n, m))
    ensures |Expanded(n, m, c)| == c
  {
    if c > 0 {
      ExpandedSize(n, m, c - 1);
      var w := Fill(n, m, c - 1);
      ExpandedMember(n, m, c - 1, w);
      if w in Expanded(n, m, c - 1) {
        var i: nat :| i < c - 1 && Fill(n, m, i) == w;
        FillInjective(n, m, i, c - 1);
        assert false;
      }
    }
  }

  // Every word that matches a mask is reached by exactly the packed counter value.
  lemma MatchIsFilled(n: nat, m: InstructionMask, w: nat)
    requires m.Fits(n) && w < Pow2(n) && Matches(n, m, w)
    ensures Pack(n, w, m.dontCare, 0) < Pow2(NumDontCares(n, m))
    ensures Fill(n, m, Pack(n, w, m.dontCare, 0)) == w
  {
    var i := Pack(n, w, m.dontCare, 0);
    MatchesBits(n, m, w);
    PackBit(n, w, m.dontCare, 0, 0);
    FillBits(n, m, i);
    forall b: nat | b < n ensures Bit(w, b) == Bit(Fill(n, m, i), b) {
      PackBit(n, w, m.dontCare, 0, b);
    }
    SameBits(n, w, Fill(n, m, i));
  }

  // The full expansion is exactly the set of matching words, all 2^k of them distinct.
  lemma ExpansionIsTheMatchSet(n: nat, m: InstructionMask)
    requires m.Fits(n)
    ensures forall w: nat :: w in Expanded(n, m, Pow2(NumDontCares(n, m))) <==> w < Pow2(n) && Matches(n, m, w)
    ensures |Expanded(n, m, Pow2(NumDontCares(n, m)))| == Pow2(NumDontCares(n, m))
  {
    var c := Pow2(NumDontCares(n, m));
    ExpandedSize(n, m, c);
    forall w: nat
      ensures w in Expanded(n, m, c) <==> w < Pow2(n) && Matches(n, m, w)
    {
      ExpandedMember(n, m, c, w);
      if w in Expanded(n, m, c) {
        var i: nat :| i < c && Fill(n, m, i) == w;
        FillBits(n, m, i);
        MatchesBits(n, m, w);
      }
      if w < Pow2(n) && Matches(n, m, w) {
        MatchIsFilled(n, m, w);
      }
    }
  }

  // What `instruction |= (i & (mask << j)) << (k - j)` does: bit j of i lands on bit k.
  lemma MoveBit(n: nat, x: nat, i: nat, j: nat, k: nat, b: nat)
    requires j <= k < n && x < Pow2(n)
    ensures Or(x, Shl(n, And(i, Shl(n, 1, j)), k - j)) < Pow2(n)
    ensures b < n ==>
      Bit(Or(x, Shl(n, And(i, Shl(n, 1, j)), k - j)), b) == (Bit(x, b) || (b == k && Bit(i, j)))
  {
    var picked := And(i, Shl(n, 1, j));
    var moved := Shl(n, picked, k - j);
    ShlBit(n, picked, k - j, b);
    OrBound(n, x, moved);
    OrBit(x, moved, b);
    TestBit(n, i, j);
    if k - j <= b < n {
      OneBit(n, j, b - (k - j));
      BitOfZero(b - (k - j));
    }
  }

  // The don't-care positions below k hold their bits of i, those above are still clear.
  ghost predicate FilledBelow(n: nat, m: InstructionMask, i: nat, k: nat, w: nat)
  {
    && w < Pow2(n)
    && forall b: nat :: b < n ==> Bit(w, b) == (FillBit(m, i, b) && (Bit(m.dontCare, b) ==> b < k))
  }

  // The masks added to a blacklist so far, as a predicate on words.
  ghost predicate AllFit(n: nat, ms: seq<InstructionMask>)
  {
    forall i :: 0 <= i < |ms| ==> ms[i].Fits(n)
  }

  ghost predicate MatchesAny(n: nat, ms: seq<InstructionMask>, w: nat)
    requires AllFit(n, ms)
  {
    exists i :: 0 <= i < |ms| && Matches(n, ms[i], w)
  }

  lemma MatchesAnyExtended(n: nat, ms: seq<InstructionMask>, m: InstructionMask)
    requires AllFit(n, ms) && m.Fits(n)
    ensures AllFit(n, ms + [m])
    ensures forall w: nat :: MatchesAny(n, ms + [m], w) <==> MatchesAny(n, ms, w) || Matches(n, m, w)
  {
    forall w: nat
      ensures MatchesAny(n, ms + [m], w) <==> MatchesAny(n, ms, w) || Matches(n, m, w)
    {
      if MatchesAny(n, ms, w) {
        var i :| 0 <= i < |ms| && Matches(n, ms[i], w);
        assert (ms + [m])[i] == ms[i];
      }
      if Matches(n, m, w) {
        assert (ms + [m])[|ms|] == m;
      }
    }
  }

  // The words of a set are exactly those that some added mask stands for.
  ghost predicate Denotes(n: nat, ms: seq<InstructionMask>, words: set<nat>)
  {
    && AllFit(n, ms)
    && forall w: nat :: w in words <==> w < Pow2(n) && MatchesAny(n, ms, w)
  }

  lemma ExpansionDenotes(n: nat, ms: seq<InstructionMask>, words: set<nat>, m: InstructionMask)
    requires Denotes(n, ms, words) && m.Fits(n)
    ensures Denotes(n, ms + [m], words + Expanded(n, m, Pow2(NumDontCares(n, m))))
  {
    ExpansionIsTheMatchSet(n, m);
    MatchesAnyExtended(n, ms, m);
  }

  // A mask without don't-care bits matches its value only.
  lemma ExactMask(n: nat, v: nat, w: nat)
    requires v < Pow2(n) && w < Pow2(n)
    ensures Matches(n, InstructionMask(v, 0), w) <==> w == v
  {
    MatchesBits(n, InstructionMask(v, 0), w);
    if Matches(n, InstructionMask(v, 0), w) {
      forall b: nat | b < n ensures Bit(w, b) == Bit(v, b) {
        BitOfZero(b);
      }
      SameBits(n, w, v);
    }
  }
}

module Blacklists {
  import opened Arithmetic
  import opened Bits
  import opened MaskExpansion

  // `1 << numDontCares` is computed in a 32-bit int, then truncated to an instruction word.
  ghost predicate Expandable(n: nat, m: InstructionMask)
  {
    m.Fits(n) && NumDontCares(n, m) <= 30 && NumDontCares(n, m) < n
  }

  class Blacklist {
    const width: nat
    var searchSet: set<nat>
    ghost var added: seq<InstructionMask>

    ghost predicate Valid()
      reads this
    {
      Denotes(width, added, searchSet)
    }

    constructor (width: nat, startList: seq<InstructionMask>)
      requires forall i :: 0 <= i < |startList| ==> Expandable(width, startList[i])
      ensures Valid() && this.width == width && added == startList
    {
      this.width := width;
      searchSet, added := {}, [];
      new;
      for c := 0 to |startList|
        invariant Valid() && added == startList[..c]
      {
        Add(startList[c]);
      }
    }

    method Search(k: nat) returns (found: bool)
      requires Valid() && k < Pow2(width)
      ensures found == MatchesAny(width, added, k)
    {
      found := k in searchSet;
    }

    method AddWord(k: nat)
      requires Valid() && k < Pow2(width)
      modifies this
      ensures Valid() && added == old(added) + [InstructionMask(k, 0)]
      ensures searchSet == old(searchSet) + {k}
    {
      searchSet := searchSet + {k};
      added := added + [InstructionMask(k, 0)];
      MatchesAnyExtended(width, old(added), InstructionMask(k, 0));
      forall w: nat | w < Pow2(width) ensures Matches(width, InstructionMask(k, 0), w) <==> w == k {
        ExactMask(width, k, w);
      }
    }

    method Add(m: InstructionMask)
      requires Valid() && Expandable(width, m)
      modifies this
      ensures Valid() && added == old(added) + [m]
      ensures searchSet == old(searchSet) + Expanded(width, m, Pow2(NumDontCares(width, m)))
    {
      InsertInstances(m);
      ExpansionDenotes(width, added, old(searchSet), m);
      added := added + [m];
    }

    // The outer expansion loop.
    method InsertInstances(m: InstructionMask)
      requires Expandable(width, m)
      modifies this`searchSet
      ensures searchSet == old(searchSet) + Expanded(width, m, Pow2(NumDontCares(width, m)))
    {
      var numDontCares := CountDontCares(width, m);
      ShiftedOne(width, numDontCares);
      var limit := Shl(width, 1, numDontCares);
      var i := 0;
      while i < limit
        invariant 0 <= i <= limit
        invariant searchSet == old(searchSet) + Expanded(width, m, i)
      {
        var instruction := Instance(width, m, i, numDontCares);
        searchSet := searchSet + {instruction};
        i := i + 1;
      }
    }
  }

  lemma ShiftedOne(n: nat, k: nat)
    requires k < n
    ensures Shl(n, 1, k) == Pow2(k)
  {
    Pow2Monotone(k, n);
    UpOne(k);
    LowOfSmall(n, Pow2(k));
  }

  method CountDontCares(n: nat, m: InstructionMask) returns (numDontCares: nat)
    requires m.Fits(n)
    ensures numDontCares == NumDontCares(n, m)
  {
    numDontCares := 0;
    var i := 0;
    while i < n
      invariant i <= n && numDontCares == Rank(m.dontCare, i)
    {
      TestBit(n, m.dontCare, i);
      if And(m.dontCare, Shl(n, 1, i)) != 0 {
        numDontCares := numDontCares + 1;
      }
      i := i + 1;
    }
  }

  // One round of the expansion loop: the bits of i are dealt out to the don't-care
  // positions in increasing order, k being carried from one bit to the next.
  method Instance(n: nat, m: InstructionMask, i: nat, numDontCares: nat) returns (instruction: nat)
    requires m.Fits(n) && numDontCares == NumDontCares(n, m)
    ensures instruction == Fill(n, m, i)
  {
    var k := 0;
    instruction := And(m.value, Not(n, m.dontCare));
    forall b: nat
      ensures instruction < Pow2(n)
      ensures Bit(instruction, b) == (b < n && !Bit(m.dontCare, b) && Bit(m.value, b))
    {
      CareBit(n, m.value, m.dontCare, b);
    }
    var j := 0;
    while j < numDontCares
      invariant j <= numDontCares && k <= n && Rank(m.dontCare, k) == j
      invariant FilledBelow(n, m, i, k, instruction)
    {
      var dealt := false;
      while k < n && !dealt
        invariant k <= n && Rank(m.dontCare, k) == if dealt then j + 1 else j
        invariant FilledBelow(n, m, i, k, instruction)
        decreases n - k, !dealt
      {
        TestBit(n, m.dontCare, k);
        if And(m.dontCare, Shl(n, 1, k)) != 0 {
          forall b: nat
            ensures Or(instruction, Shl(n, And(i, Shl(n, 1, j)), k - j)) < Pow2(n)
            ensures b < n ==> Bit(Or(instruction, Shl(n, And(i, Shl(n, 1, j)), k - j)), b) ==
                              (Bit(instruction, b) || (b == k && Bit(i, j)))
          {
            MoveBit(n, instruction, i, j, k, b);
          }
          instruction := Or(instruction, Shl(n, And(i, Shl(n, 1, j)), k - j));
          dealt := true;
        }
        k := k + 1;
      }
      RankMonotone(m.dontCare, k, n);
      j := j + 1;
    }
    RankMonotone(m.dontCare, k, n);
    FillBits(n, m, i);
    SameBits(n, instruction, Fill(n, m, i));
  }

  class LowMemoryBlacklist {
    const width: nat
    // Pairs of a value and its care mask, the inverted don't-care mask.
    var searchSet: set<(nat, nat)>
    ghost var added: seq<InstructionMask>

    ghost predicate Valid()
      reads this
    {
      && AllFit(width, added)
      && (forall i :: 0 <= i < |added| ==> Entry(width, added[i]) in searchSet)
      && (forall e :: e in searchSet ==> exists i :: 0 <= i < |added| && Entry(width, added[i]) == e)
    }

    static function Entry(n: nat, m: InstructionMask): (nat, nat)
      requires m.Fits(n)
    {
      var careMask := Not(n, m.dontCare);
      (And(m.value, careMask), careMask)
    }

    constructor (width: nat, startList: seq<InstructionMask>)
      requires AllFit(width, startList)
      ensures Valid() && this.width == width && added == startList
    {
      this.width := width;
      searchSet, added := {}, [];
      new;
      for c := 0 to |startList|
        invariant Valid() && added == startList[..c]
      {
        Add(startList[c]);
      }
    }

    method Search(k: nat) returns (found: bool)
      requires Valid() && k < Pow2(width)
      ensures found == MatchesAny(width, added, k)
    {
      var rest := searchSet;
      while rest != {}
        invariant rest <= searchSet
        invariant forall e :: e in searchSet && e !in rest ==> And(k, e.1) != e.0
        decreases rest
      {
        var entry :| entry in rest;
        if And(k, entry.1) == entry.0 {
          return true;
        }
        rest := rest - {entry};
      }
      return false;
    }

    method AddWord(k: nat)
      requires Valid() && k < Pow2(width)
      modifies this
      ensures Valid() && added == old(added) + [InstructionMask(k, 0)]
    {
      Add(InstructionMask(k, 0));
    }

    method Add(m: InstructionMask)
      requires Valid() && m.Fits(width)
      modifies this
      ensures Valid() && added == old(added) + [m]
      ensures searchSet == old(searchSet) + {Entry(width, m)}
    {
      ghost var was := added;
      searchSet := searchSet + {Entry(width, m)};
      added := added + [m];
      assert added[|was|] == m && forall i :: 0 <= i < |was| ==> added[i] == was[i];
      forall e | e in searchSet ensures exists i :: 0 <= i < |added| && Entry(width, added[i]) == e {
        if e != Entry(width, m) {
          var i :| 0 <= i < |was| && Entry(width, was[i]) == e;
          assert Entry(width, added[i]) == e;
        }
      }
    }
  }

  // The compact blacklist refines the expanded one: after the same additions, every
  // search gives the same answer.
  method SearchBoth(fast: Blacklist, small: LowMemoryBlacklist, k: nat) returns (inFast: bool, inSmall: bool)
    requires fast.Valid() && small.Valid()
    requires fast.width == small.width && fast.added == small.added && k < Pow2(fast.width)
    ensures inFast == inSmall == MatchesAny(fast.width, fast.added, k)
  {
    inFast := fast.Search(k);
    inSmall := small.Search(k);
  }
}
