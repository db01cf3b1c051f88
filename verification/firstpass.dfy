// Mask compression: the first pass over a list of instruction words (analysis/firstPass.py).
//
// The pass cuts the list into groups.  Each group is a run of words a fixed power of two
// apart, cut to a power-of-two length, and is written out as its first word and a mask.
module FirstPass {
  import opened Arithmetic
  import opened Bits
  import opened MaskExpansion

  // Python's num & (num - 1), also for negative numbers.
  function AndWithPredecessor(num: int): int
  {
    if num > 0 then And(num, num - 1)
    else if num == 0 then 0
    else -1 - Or(-1 - num, -num)
  }

  predicate IsPower2(num: int)
  {
    num != 0 && AndWithPredecessor(num) == 0
  }

  function BitLength(num: nat): nat
  {
    if num == 0 then 0 else 1 + BitLength(num / 2)
  }

  lemma {:induction false} BitLengthBounds(num: nat)
    ensures num < Pow2(BitLength(num))
    ensures num > 0 ==> Pow2(BitLength(num) - 1) <= num
  {
    if num > 0 {
      BitLengthBounds(num / 2);
    }
  }

  lemma {:induction false} AndSelf(x: nat)
    ensures And(x, x) == x
  {
    if x > 0 {
      AndSelf(x / 2);
    }
  }

  lemma AndOfDouble(half: nat)
    requires half > 0
    ensures And(2 * half, 2 * half - 1) == 2 * And(half, half - 1)
    ensures And(2 * half + 1, 2 * half) == 2 * And(half, half)
  {
    hide And;
    AndStep(2 * half, 2 * half - 1, half, half - 1, false, true);
    AndStep(2 * half + 1, 2 * half, half, half, true, false);
  }

  lemma BitLengthOfDouble(half: nat)
    requires half > 0
    ensures BitLength(2 * half) == BitLength(2 * half + 1) == 1 + BitLength(half)
    ensures Pow2(BitLength(half)) == 2 * Pow2(BitLength(half) - 1)
  {}

  lemma {:induction false} AndPredecessor(num: nat)
    requires num > 0
    ensures And(num, num - 1) == 0 <==> num == Pow2(BitLength(num) - 1)
  {
    var half := num / 2;
    if num > 1 {
      AndOfDouble(half);
      BitLengthOfDouble(half);
      if num % 2 == 0 {
        AndPredecessor(half);
      } else {
        AndSelf(half);
      }
    }
  }

  // The bit trick recognises exactly the powers of two.
  lemma IsPower2Correct(num: int)
    ensures IsPower2(num) <==> num > 0 && num == Pow2(BitLength(num) - 1)
  {
    if num > 0 {
      AndPredecessor(num);
    }
  }

  datatype Line = Line(first: nat, mask: nat)

  // How many words from position i on each exceed the one before by step.
  function Extent(input: seq<nat>, step: int, i: nat): nat
    requires i < |input|
    decreases |input| - i
  {
    if i < |input| - 1 && input[i] + step == input[i + 1] then 1 + Extent(input, step, i + 1) else 0
  }

  function StepAt(input: seq<nat>, b: nat): int
    requires b < |input|
  {
    if b + 1 < |input| then input[b + 1] as int - input[b] as int else 0
  }

  // The length of the run that starts at b.
  function RunLength(input: seq<nat>, b: nat): (n: nat)
    requires b < |input|
    ensures n >= 1
  {
    if IsPower2(StepAt(input, b)) then Extent(input, StepAt(input, b), b) + 1 else 1
  }

  // The largest m with Pow2(m) <= n.
  function FloorLog2(n: nat): nat
    requires n >= 1
  {
    BitLength(n) - 1
  }

  function GroupBits(input: seq<nat>, b: nat): nat
    requires b < |input|
  {
    FloorLog2(RunLength(input, b))
  }

  lemma {:induction false} ExtentFits(input: seq<nat>, step: int, i: nat)
    requires i < |input|
    ensures i + Extent(input, step, i) < |input|
    ensures forall t: nat :: t <= Extent(input, step, i) ==> input[i + t] == input[i] + t * step
    decreases |input| - i
  {
    if i < |input| - 1 && input[i] + step == input[i + 1] {
      ExtentFits(input, step, i + 1);
      forall t: nat | t <= Extent(input, step, i) ensures input[i + t] == input[i] + t * step {
        if t > 0 {
          assert input[(i + 1) + (t - 1)] == input[i + 1] + (t - 1) * step;
          Distribute(step, t, 1);
        }
      }
    }
  }

  lemma GroupFits(input: seq<nat>, b: nat)
    requires b < |input|
    ensures 1 <= Pow2(GroupBits(input, b)) <= RunLength(input, b) <= |input| - b
    ensures RunLength(input, b) < 2 * Pow2(GroupBits(input, b))
  {
    ExtentFits(input, StepAt(input, b), b);
    BitLengthBounds(RunLength(input, b));
  }

  function GroupAt(input: seq<nat>, b: nat): seq<nat>
    requires b < |input|
  {
    GroupFits(input, b);
    input[b..b + Pow2(GroupBits(input, b))]
  }

  // The position of the highest bit of the step, where there is a step.
  function StepBits(step: int): nat
  {
    if step > 0 then BitLength(step) - 1 else 0
  }

  // m ones from position s up.
  function OnesFrom(m: nat, s: nat): nat
  {
    Up(Pow2(m) - 1, s)
  }

  function LineAt(input: seq<nat>, b: nat): Line
    requires b < |input|
  {
    Line(input[b], OnesFrom(GroupBits(input, b), StepBits(StepAt(input, b))))
  }

  function GroupsFrom(input: seq<nat>, b: nat): seq<seq<nat>>
    requires b <= |input|
    decreases |input| - b
  {
    if b == |input| then []
    else GroupFits(input, b); [GroupAt(input, b)] + GroupsFrom(input, b + Pow2(GroupBits(input, b)))
  }

  function LinesFrom(input: seq<nat>, b: nat): seq<Line>
    requires b <= |input|
    decreases |input| - b
  {
    if b == |input| then []
    else GroupFits(input, b); [LineAt(input, b)] + LinesFrom(input, b + Pow2(GroupBits(input, b)))
  }

  function Flatten(groups: seq<seq<nat>>): seq<nat>
  {
    if groups == [] then [] else groups[0] + Flatten(groups[1..])
  }

  // The groups, in order, make up the input again: no word is lost or repeated.
  lemma {:induction false} GroupsMakeUpInput(input: seq<nat>, b: nat)
    requires b <= |input|
    ensures Flatten(GroupsFrom(input, b)) == input[b..]
    decreases |input| - b
  {
    hide GroupBits, RunLength, Pow2;
    if b < |input| {
      GroupFits(input, b);
      var next := b + Pow2(GroupBits(input, b));
      GroupsMakeUpInput(input, next);
      assert input[b..] == input[b..next] + input[next..];
      assert GroupsFrom(input, b)[0] == input[b..next] && GroupsFrom(input, b)[1..] == GroupsFrom(input, next);
    }
  }

  // A group is an arithmetic run whose step is a power of two, and the run it starts does
  // not go on for twice its length.
  lemma GroupShape(input: seq<nat>, b: nat) returns (m: nat, s: nat)
    requires b < |input|
    ensures m == GroupBits(input, b) && s == StepBits(StepAt(input, b))
    ensures |GroupAt(input, b)| == Pow2(m) && RunLength(input, b) < 2 * Pow2(m)
    ensures forall t: nat :: t < Pow2(m) ==> GroupAt(input, b)[t] == input[b] + Up(t, s)
    ensures m > 0 ==> StepAt(input, b) == Pow2(s)
    // The run is maximal: it ends at the end of the input or where the step changes.
    ensures var e := b + RunLength(input, b);
      e <= |input| && (m > 0 && e < |input| ==> input[e] != input[e - 1] + Pow2(s))
  {
    var step := StepAt(input, b);
    m, s := GroupBits(input, b), StepBits(step);
    GroupFits(input, b);
    if m == 0 {
      UpIsTimes(0, s);
    } else {
      IsPower2Correct(step);
      ExtentFits(input, step, b);
      ExtentStops(input, step, b);
      forall t: nat | t < Pow2(m) ensures GroupAt(input, b)[t] == input[b] + Up(t, s) {
        UpIsTimes(t, s);
        assert GroupAt(input, b)[t] == input[b + t] == input[b] + t * step;
      }
    }
  }

  lemma {:induction false} ExtentStops(input: seq<nat>, step: int, i: nat)
    requires i < |input|
    ensures var e := i + Extent(input, step, i);
      e < |input| && (e + 1 < |input| ==> input[e + 1] != input[e] + step)
    decreases |input| - i
  {
    if i < |input| - 1 && input[i] + step == input[i + 1] {
      ExtentStops(input, step, i + 1);
    }
  }

  // The other way round: words a power of two apart, a power of two of them, all get into the group.
  lemma GroupReaches(input: seq<nat>, b: nat, t: nat, j: nat)
    requires b + Pow2(t) <= |input|
    requires forall i: nat :: i < Pow2(t) ==> input[b + i] == input[b] + i * Pow2(j)
    ensures b < |input| && Pow2(t) <= |GroupAt(input, b)|
  {
    hide IsPower2, Extent, Pow2;
    OneIsPower(t);
    GroupFits(input, b);
    if t > 0 {
      assert input[b + 1] == input[b] + 1 * Pow2(j);
      PowerIsPower2(j);
      StepByStep(input, b, Pow2(t), Pow2(j));
      ExtentReaches(input, Pow2(j), b, Pow2(t) - 1);
      WithinPower(RunLength(input, b), GroupBits(input, b), t);
    }
  }

  lemma OneIsPower(t: nat)
    ensures Pow2(0) == 1 && (t > 0 ==> Pow2(t) >= 2)
  {}

  lemma WithinPower(n: nat, m: nat, t: nat)
    requires Pow2(t) <= n < 2 * Pow2(m)
    ensures Pow2(t) <= Pow2(m)
  {
    if m < t {
      Pow2Monotone(m, t - 1);
    } else {
      Pow2Monotone(t, m);
    }
  }

  lemma StepByStep(input: seq<nat>, b: nat, n: nat, d: nat)
    requires b + n <= |input| && forall i: nat :: i < n ==> input[b + i] == input[b] + i * d
    ensures forall k :: b <= k < b + n - 1 ==> input[k] + d == input[k + 1]
  {
    forall k | b <= k < b + n - 1 ensures input[k] + d == input[k + 1] {
      var i := k - b;
      assert input[b + i] == input[b] + i * d && input[b + (i + 1)] == input[b] + (i + 1) * d;
      Distribute(d, i, -1);
    }
  }

  lemma PowerIsPower2(j: nat)
    ensures IsPower2(Pow2(j))
  {
    hide IsPower2;
    IsPower2Correct(Pow2(j));
    BitLengthUnique(Pow2(j), j + 1);
  }

  lemma {:induction false} ExtentReaches(input: seq<nat>, step: int, i: nat, n: nat)
    requires i + n < |input| && forall k :: i <= k < i + n ==> input[k] + step == input[k + 1]
    ensures Extent(input, step, i) >= n
    decreases n
  {
    if n > 0 {
      ExtentReaches(input, step, i + 1, n - 1);
    }
  }

  // The line of a group: its first word and, from the position of the step, one bit for each doubling.
  lemma LineOfGroup(input: seq<nat>, b: nat, t: nat, j: nat, i: nat)
    requires b < |input| && |GroupAt(input, b)| == Pow2(t)
    requires t > 0 ==> GroupAt(input, b)[1] == input[b] + Pow2(j)
    ensures LineAt(input, b).first == input[b]
    ensures Bit(LineAt(input, b).mask, i) <==> t > 0 && j <= i < j + t
  {
    GroupFits(input, b);
    var m := GroupBits(input, b);
    if m < t {
      Pow2Monotone(m, t - 1);
    } else if t < m {
      Pow2Monotone(t, m - 1);
    }
    if t > 0 {
      BitLengthUnique(Pow2(j), j + 1);
    }
    OnesAt(m, StepBits(StepAt(input, b)), i);
  }

  // Or-ing in a bit above all others adds it.
  lemma {:induction false} OrTopBit(x: nat, j: nat)
    requires x < Pow2(j)
    ensures Or(x, Pow2(j)) == x + Pow2(j)
    decreases j
  {
    if x > 0 {
      OrTopBit(x / 2, j - 1);
    }
  }

  lemma MaskGrows(m: nat, s: nat)
    ensures Or(OnesFrom(m, s), Pow2(m + s)) == OnesFrom(m + 1, s)
  {
    UpOne(m);
    UpOne(s);
    UpOne(m + s);
    UpUp(1, m, s);
    UpAdd(Pow2(m) - 1, 1, s);
    UpAdd(Pow2(m + 1) - 1 - Pow2(m), Pow2(m), s);
    OrTopBit(OnesFrom(m, s), m + s);
  }

  datatype Result = Lines(lines: seq<Line>) | IndexError

  // The first pass.  A list of fewer than two words is rejected: it has no first difference.
  method Compress(input: seq<nat>) returns (r: Result)
    ensures r == if |input| < 2 then IndexError else Lines(LinesFrom(input, 0))
  {
    if |input| < 2 {
      return IndexError;
    }
    var lines: seq<Line> := [];
    var i := 0;
    var delta: int := input[1] as int - input[0] as int;
    while i < |input|
      invariant 0 <= i <= |input|
      invariant i + 1 < |input| ==> delta == StepAt(input, i)
      invariant lines + LinesFrom(input, i) == LinesFrom(input, 0)
    {
      var begin, mask := i, 0;
      ghost var before := lines;
      i, mask := CutGroup(input, begin, delta);
      lines := lines + [Line(input[begin], mask)];
      assert LinesFrom(input, begin) == [LineAt(input, begin)] + LinesFrom(input, i);
      assert before + ([LineAt(input, begin)] + LinesFrom(input, i)) == lines + LinesFrom(input, i);
      if i + 1 < |input| {
        delta := input[i + 1] as int - input[i] as int;
      }
    }
    assert lines + [] == lines;
    return Lines(lines);
  }

  // One iteration of the outer loop.
  method CutGroup(input: seq<nat>, begin: nat, delta: int) returns (next: nat, mask: nat)
    requires begin < |input| && (begin + 1 < |input| ==> delta == StepAt(input, begin))
    ensures next == begin + Pow2(GroupBits(input, begin)) <= |input|
    ensures Line(input[begin], mask) == LineAt(input, begin)
  {
    hide IsPower2, Up;
    GroupFits(input, begin);
    var i := begin;
    if IsPower2(delta) {
      while i < |input| - 1 && input[i] + delta == input[i + 1]
        invariant begin <= i < |input|
        invariant i - begin + Extent(input, delta, i) == Extent(input, delta, begin)
        decreases |input| - i
      {
        i := i + 1;
      }
    }
    var diff := i - begin;
    assert diff + 1 == RunLength(input, begin) && (diff > 0 ==> IsPower2(delta));
    var variableBits := BitLength(diff);
    TrimLength(diff);
    if !IsPower2(diff + 1) {
      variableBits := variableBits - 1;
      i := i - (diff + 1 - Pow2(variableBits));
    }
    var deltaBitShift: int := BitLength(if delta < 0 then -delta else delta) - 1;
    if variableBits > 0 {
      IsPower2Correct(delta);
    }
    ZeroUp(StepBits(StepAt(input, begin)));
    mask := SpreadOnes(variableBits, deltaBitShift);
    next := i + 1;
  }

  // The bit length of diff, less one unless diff + 1 is a power of two, is the exponent of
  // the largest power of two up to diff + 1.
  lemma TrimLength(diff: nat)
    ensures IsPower2(diff + 1) ==> BitLength(diff) == FloorLog2(diff + 1) && Pow2(BitLength(diff)) == diff + 1
    ensures !IsPower2(diff + 1) ==> diff > 0 && BitLength(diff) - 1 == FloorLog2(diff + 1)
  {
    hide IsPower2;
    var c := BitLength(diff + 1);
    BitLengthBounds(diff + 1);
    IsPower2Correct(diff + 1);
    if IsPower2(diff + 1) {
      BitLengthUnique(diff, c - 1);
    } else {
      BitLengthUnique(diff, c);
    }
  }

  lemma BitLengthUnique(num: nat, k: nat)
    requires k > 0 ==> Pow2(k - 1) <= num
    requires num < Pow2(k)
    ensures BitLength(num) == k
  {
    BitLengthBounds(num);
    if BitLength(num) < k {
      Pow2Monotone(BitLength(num), k - 1);
    } else if k < BitLength(num) {
      Pow2Monotone(k, BitLength(num) - 1);
    }
  }

  // The loop that builds the mask.
  method SpreadOnes(variableBits: nat, deltaBitShift: int) returns (mask: nat)
    requires variableBits > 0 ==> deltaBitShift >= 0
    ensures mask == if variableBits == 0 then 0 else OnesFrom(variableBits, deltaBitShift)
  {
    mask := 0;
    var k := 0;
    while k < variableBits
      invariant 0 <= k <= variableBits
      invariant mask == if k == 0 then 0 else OnesFrom(k, deltaBitShift)
    {
      MaskGrows(k, deltaBitShift);
      ZeroUp(deltaBitShift);
      mask := Or(mask, Pow2(k + deltaBitShift));
      k := k + 1;
    }
  }

  lemma {:induction false} ZeroUp(k: nat)
    ensures Up(0, k) == 0
  {
    if k > 0 {
      ZeroUp(k - 1);
    }
  }

  // ----- What a written line means to the readers of the masks -----

  lemma OnesAt(m: nat, s: nat, i: nat)
    ensures Bit(OnesFrom(m, s), i) == (s <= i < s + m)
  {
    UpBit(Pow2(m) - 1, s, i);
    if s <= i {
      OnesBit(m, i - s);
    }
  }

  // The field of x of width m at position s.
  function Field(x: nat, m: nat, s: nat): nat
  {
    Low(m, Shr(x, s))
  }

  lemma FieldBit(x: nat, m: nat, s: nat, i: nat)
    ensures Field(x, m, s) < Pow2(m)
    ensures Bit(Field(x, m, s), i) == (i < m && Bit(x, s + i))
  {
    LowBit(m, Shr(x, s), i);
    ShrBit(x, s, i);
  }

  // Everything around the field.
  function Around(x: nat, m: nat, s: nat): (nat, nat)
  {
    (Shr(x, s + m), Low(s, x))
  }

  function Assembled(high: nat, field: nat, low: nat, m: nat, s: nat): nat
  {
    Up(Up(high, m) + field, s) + low
  }

  lemma Reassemble(x: nat, m: nat, s: nat)
    ensures var (high, low) := Around(x, m, s); x == Assembled(high, Field(x, m, s), low, m, s) && low < Pow2(s)
  {
    UpPlusLow(x, s);
    UpPlusLow(Shr(x, s), m);
    ShrShr(x, s, m);
    LowBit(s, x, 0);
  }

  lemma TakeApart(high: nat, field: nat, low: nat, m: nat, s: nat)
    requires field < Pow2(m) && low < Pow2(s)
    ensures var x := Assembled(high, field, low, m, s);
      Around(x, m, s) == (high, low) && Field(x, m, s) == field
  {
    CutUp(Up(high, m) + field, low, s);
    CutUp(high, field, m);
    ShrShr(Assembled(high, field, low, m, s), s, m);
  }

  // Agreeing off a mask of consecutive ones is agreeing above and below the field.
  lemma AgreeAround(n: nat, v: nat, w: nat, m: nat, s: nat)
    requires v < Pow2(n) && w < Pow2(n)
    ensures AgreeOffMask(n, v, w, OnesFrom(m, s)) <==> Around(v, m, s) == Around(w, m, s)
  {
    var vHigh, wHigh := Around(v, m, s).0, Around(w, m, s).0;
    var vLow, wLow := Around(v, m, s).1, Around(w, m, s).1;
    if AgreeOffMask(n, v, w, OnesFrom(m, s)) {
      forall i: nat | i < n ensures Bit(vHigh, i) == Bit(wHigh, i) {
        AroundBits(n, v, w, m, s, i + (s + m));
      }
      ShrBelow(v, s + m);
      ShrBelow(w, s + m);
      SameBits(n, vHigh, wHigh);
      LowBit(s, v, 0);
      LowBit(s, w, 0);
      forall i: nat | i < s ensures Bit(vLow, i) == Bit(wLow, i) {
        AroundBits(n, v, w, m, s, i);
      }
      SameBits(s, vLow, wLow);
    }
    if Around(v, m, s) == Around(w, m, s) {
      forall i: nat | i < n && !Bit(OnesFrom(m, s), i) ensures Bit(w, i) == Bit(v, i) {
        AroundBits(n, v, w, m, s, i);
      }
    }
  }

  // Where bit i of v and w is found, i not being under the mask.
  lemma AroundBits(n: nat, v: nat, w: nat, m: nat, s: nat, i: nat)
    requires v < Pow2(n) && w < Pow2(n)
    ensures Bit(OnesFrom(m, s), i) == (s <= i < s + m)
    ensures i < s ==> Bit(Around(v, m, s).1, i) == Bit(v, i) && Bit(Around(w, m, s).1, i) == Bit(w, i)
    ensures s + m <= i ==>
      Bit(Around(v, m, s).0, i - (s + m)) == Bit(v, i) && Bit(Around(w, m, s).0, i - (s + m)) == Bit(w, i)
    ensures n <= i ==> !Bit(v, i) && !Bit(w, i)
  {
    OnesAt(m, s, i);
    LowBit(s, v, i);
    LowBit(s, w, i);
    if s + m <= i {
      ShrBit(v, s + m, i - (s + m));
      ShrBit(w, s + m, i - (s + m));
    }
    if n <= i {
      BitAbove(n, v, i);
      BitAbove(n, w, i);
    }
  }

  // The first word has no bit under the mask exactly when its field there is zero.
  lemma ClearUnderMask(first: nat, m: nat, s: nat)
    ensures And(first, OnesFrom(m, s)) == 0 <==> Field(first, m, s) == 0
  {
    var k := BitLength(first);
    BitLengthBounds(first);
    AndBound(first, OnesFrom(m, s));
    if And(first, OnesFrom(m, s)) == 0 {
      forall i: nat | i < m ensures Bit(Field(first, m, s), i) == Bit(0, i) {
        FieldBit(first, m, s, i);
        OnesAt(m, s, s + i);
        AndBit(first, OnesFrom(m, s), s + i);
        BitOfZero(s + i);
        BitOfZero(i);
      }
      FieldBit(first, m, s, 0);
      SameBits(m, Field(first, m, s), 0);
    }
    if Field(first, m, s) == 0 {
      forall i: nat | i < k ensures Bit(And(first, OnesFrom(m, s)), i) == Bit(0, i) {
        AndBit(first, OnesFrom(m, s), i);
        OnesAt(m, s, i);
        BitOfZero(i);
        if s <= i < s + m {
          FieldBit(first, m, s, i - s);
          BitOfZero(i - s);
        }
      }
      SameBits(k, And(first, OnesFrom(m, s)), 0);
    }
  }

  function Nth(first: nat, s: nat, t: nat): nat
  {
    first + Up(t, s)
  }

  ghost predicate InRun(first: nat, m: nat, s: nat, w: nat)
  {
    exists t: nat :: t < Pow2(m) && w == Nth(first, s, t)
  }

  // Filling the field of a word with t moves it t steps up from where the field is clear.
  lemma FieldSteps(high: nat, t: nat, low: nat, m: nat, s: nat)
    ensures Assembled(high, t, low, m, s) == Nth(Assembled(high, 0, low, m, s), s, t)
  {
    UpAdd(Up(high, m), t, s);
  }

  // If the first word is clear under the mask, the words that match are those of the run.
  lemma MatchesRun(n: nat, first: nat, m: nat, s: nat, w: nat)
    requires first < Pow2(n) && OnesFrom(m, s) < Pow2(n) && w < Pow2(n)
    requires Field(first, m, s) == 0
    ensures Matches(n, InstructionMask(first, OnesFrom(m, s)), w) <==> InRun(first, m, s, w)
  {
    var (high, low) := Around(first, m, s);
    MatchesBits(n, InstructionMask(first, OnesFrom(m, s)), w);
    AgreeAround(n, first, w, m, s);
    Reassemble(first, m, s);
    Reassemble(w, m, s);
    FieldBit(w, m, s, 0);
    FieldSteps(high, Field(w, m, s), low, m, s);
    if InRun(first, m, s, w) {
      var t: nat :| t < Pow2(m) && w == Nth(first, s, t);
      FieldSteps(high, t, low, m, s);
      TakeApart(high, t, low, m, s);
    }
  }

  // Otherwise a word below the first one matches too.
  lemma MatchesBelow(n: nat, first: nat, m: nat, s: nat) returns (w: nat)
    requires first < Pow2(n) && OnesFrom(m, s) < Pow2(n)
    requires Field(first, m, s) != 0
    ensures w < first && Matches(n, InstructionMask(first, OnesFrom(m, s)), w)
  {
    var (high, low) := Around(first, m, s);
    Reassemble(first, m, s);
    w := Assembled(high, 0, low, m, s);
    FieldSteps(high, Field(first, m, s), low, m, s);
    UpGrows(Field(first, m, s), s);
    TakeApart(high, 0, low, m, s);
    AgreeAround(n, first, w, m, s);
    MatchesBits(n, InstructionMask(first, OnesFrom(m, s)), w);
  }

  lemma {:induction false} UpGrows(x: nat, k: nat)
    ensures x <= Up(x, k)
  {
    if k > 0 {
      UpGrows(x, k - 1);
    }
  }

  lemma GroupIsRun(input: seq<nat>, b: nat, m: nat, s: nat, w: nat)
    requires b < |input| && |GroupAt(input, b)| == Pow2(m)
    requires forall t: nat :: t < Pow2(m) ==> GroupAt(input, b)[t] == input[b] + Up(t, s)
    ensures w in GroupAt(input, b) <==> InRun(input[b], m, s, w)
  {
    var group := GroupAt(input, b);
    if InRun(input[b], m, s, w) {
      var t: nat :| t < Pow2(m) && w == Nth(input[b], s, t);
      assert group[t] == w;
    }
    if w in group {
      var t :| 0 <= t < |group| && group[t] == w;
      assert w == Nth(input[b], s, t);
    }
  }

  // The line written for a group stands for exactly the words of the group if, and only if,
  // the first word has no bit set under the mask.
  lemma LineMeansGroupIff(n: nat, input: seq<nat>, b: nat)
    requires b < |input| && forall w :: w in GroupAt(input, b) ==> w < Pow2(n)
    ensures var line := LineAt(input, b);
      && line.first < Pow2(n) && line.mask < Pow2(n)
      && (StandsFor(n, line, GroupAt(input, b)) <==> And(line.first, line.mask) == 0)
  {
    var m, s := GroupShape(input, b);
    var group, line := GroupAt(input, b), LineAt(input, b);
    var first := line.first;
    assert group[Pow2(m) - 1] == first + OnesFrom(m, s) && group[Pow2(m) - 1] in group;
    ClearUnderMask(first, m, s);
    if Field(first, m, s) == 0 {
      forall w: nat | w < Pow2(n)
        ensures Matches(n, InstructionMask(first, line.mask), w) <==> w in group
      {
        MatchesRun(n, first, m, s, w);
        GroupIsRun(input, b, m, s, w);
      }
    } else {
      var w := MatchesBelow(n, first, m, s);
      GroupIsRun(input, b, m, s, w);
      assert !InRun(first, m, s, w);
    }
  }

  // Such a first word: 1 to 4 is written as (1, 3), which 0 matches and 4 does not.
  lemma OneToFourMisread()
    ensures var input := [1, 2, 3, 4];
      && GroupAt(input, 0) == input && LineAt(input, 0) == Line(1, 3)
      && Matches(3, InstructionMask(1, 3), 0) && !Matches(3, InstructionMask(1, 3), 4)
      && !StandsFor(3, Line(1, 3), input)
  {
    var input := [1, 2, 3, 4];
    assert And(1, 0) == 0 && IsPower2(1);
    assert Extent(input, 1, 3) == 0 && Extent(input, 1, 2) == 1 && Extent(input, 1, 1) == 2;
    assert RunLength(input, 0) == 4;
    assert BitLength(1) == 1 && BitLength(2) == 2 && BitLength(4) == 3;
    assert Pow2(1) == 2 && Pow2(2) == 4 && Pow2(3) == 8;
    assert GroupBits(input, 0) == 2 && StepBits(1) == 0 && OnesFrom(2, 0) == 3;
    assert And(1, 3) == 1 + 2 * And(0, 1) && And(1, 4) == 2 * And(0, 2) && And(4, 4) == 4;
    LineMeansGroupIff(3, input, 0);
  }

  ghost predicate StandsFor(n: nat, line: Line, group: seq<nat>)
    requires line.first < Pow2(n) && line.mask < Pow2(n)
  {
    forall w: nat :: w < Pow2(n) ==> (Matches(n, InstructionMask(line.first, line.mask), w) <==> w in group)
  }

  // The lines belong to the groups one by one, each with its own condition.
  lemma {:induction false} EveryLine(n: nat, input: seq<nat>, b: nat, i: nat)
    requires b <= |input| && i < |LinesFrom(input, b)|
    requires forall j :: b <= j < |input| ==> input[j] < Pow2(n)
    ensures |GroupsFrom(input, b)| == |LinesFrom(input, b)|
    ensures var line := LinesFrom(input, b)[i];
      && line.first < Pow2(n) && line.mask < Pow2(n)
      && (StandsFor(n, line, GroupsFrom(input, b)[i]) <==> And(line.first, line.mask) == 0)
    decreases |input| - b
  {
    hide GroupBits, RunLength, Pow2;
    GroupFits(input, b);
    SameCount(input, b);
    if i == 0 {
      LineMeansGroupIff(n, input, b);
    } else {
      EveryLine(n, input, b + Pow2(GroupBits(input, b)), i - 1);
    }
  }

  lemma {:induction false} SameCount(input: seq<nat>, b: nat)
    requires b <= |input|
    ensures |GroupsFrom(input, b)| == |LinesFrom(input, b)|
    decreases |input| - b
  {
    if b < |input| {
      GroupFits(input, b);
      SameCount(input, b + Pow2(GroupBits(input, b)));
    }
  }

  ghost predicate Aligned(lines: seq<Line>)
  {
    forall i :: 0 <= i < |lines| ==> And(lines[i].first, lines[i].mask) == 0
  }

  ghost predicate MatchedBySome(n: nat, lines: seq<Line>, w: nat)
  {
    exists i :: 0 <= i < |lines| && MatchedBy(n, lines[i], w)
  }

  ghost predicate MatchedBy(n: nat, line: Line, w: nat)
  {
    var m := InstructionMask(line.first, line.mask);
    m.Fits(n) && Matches(n, m, w)
  }

  // The whole output: if no first word has a bit under its mask, the words that match some
  // line are exactly the words of the input.
  lemma {:induction false} OutputMeansInput(n: nat, input: seq<nat>, b: nat, w: nat)
    requires b <= |input| && w < Pow2(n) && Aligned(LinesFrom(input, b))
    requires forall j :: b <= j < |input| ==> input[j] < Pow2(n)
    ensures MatchedBySome(n, LinesFrom(input, b), w) <==> w in input[b..]
    decreases |input| - b
  {
    hide GroupBits, RunLength, Pow2;
    if b < |input| {
      GroupFits(input, b);
      LineMeansGroupIff(n, input, b);
      var next := b + Pow2(GroupBits(input, b));
      var lines := LinesFrom(input, b);
      assert lines[0] == LineAt(input, b) && lines[1..] == LinesFrom(input, next);
      assert forall i :: 0 <= i < |lines| - 1 ==> LinesFrom(input, next)[i] == lines[i + 1];
      OutputMeansInput(n, input, next, w);
      assert MatchedBy(n, lines[0], w) <==> w in input[b..next];
      assert input[b..] == input[b..next] + input[next..];
      MatchedByHeadOrTail(n, lines, w);
    }
  }

  lemma MatchedByHeadOrTail(n: nat, lines: seq<Line>, w: nat)
    requires lines != []
    ensures MatchedBySome(n, lines, w) <==> MatchedBy(n, lines[0], w) || MatchedBySome(n, lines[1..], w)
  {
    if MatchedBySome(n, lines[1..], w) {
      var i :| 0 <= i < |lines[1..]| && MatchedBy(n, lines[1..][i], w);
      assert MatchedBy(n, lines[i + 1], w);
    }
    if i :| 0 < i < |lines| && MatchedBy(n, lines[i], w) {
      assert MatchedBy(n, lines[1..][i - 1], w);
    }
  }
}
