// 32-bit instruction words as the scan engine sees them: numbers that wrap around.
module Words {

  const WORDS: int := 0x1_0000_0000

  type Word = w: int | 0 <= w < WORDS

  // w advanced by k, in unsigned 32-bit arithmetic.
  function Advance(w: Word, k: nat): Word
  {
    (w + k) % WORDS
  }

  // How far from must be advanced to reach to.
  function Distance(from: Word, to: Word): (d: nat)
    ensures d < WORDS && Advance(from, d) == to
  {
    if from <= to then to - from else to - from + WORDS
  }

  lemma SmallWord(w: nat)
    requires w < WORDS
    ensures w % WORDS == w
  {}

  lemma AdvanceAdvance(w: Word, j: nat, k: nat)
    ensures Advance(Advance(w, j), k) == Advance(w, j + k)
  {}

  lemma DistanceAdvanced(w: Word, k: nat)
    requires k < WORDS
    ensures Distance(w, Advance(w, k)) == k
  {}

  lemma ReachedFinal(from: Word, to: Word, k: nat)
    requires k <= Distance(from, to)
    ensures Advance(from, k) == to <==> k == Distance(from, to)
  {}

  lemma DistanceAlong(from: Word, mid: Word, to: Word)
    requires Distance(from, mid) <= Distance(from, to)
    ensures Distance(mid, to) == Distance(from, to) - Distance(from, mid)
  {}

  // The words that are not banned among the n words from w up, in order.
  function Admissible(banned: Word -> bool, w: Word, n: nat): seq<Word>
    decreases n
  {
    if n == 0 then []
    else (if banned(w) then [] else [w]) + Admissible(banned, Advance(w, 1), n - 1)
  }

  lemma {:induction false} AdmissibleSplit(banned: Word -> bool, w: Word, a: nat, b: nat)
    ensures Admissible(banned, w, a + b) ==
            Admissible(banned, w, a) + Admissible(banned, Advance(w, a), b)
    decreases a
  {
    if a > 0 {
      AdmissibleSplit(banned, Advance(w, 1), a - 1, b);
      AdvanceAdvance(w, 1, a - 1);
    }
  }

  // Leading banned words contribute nothing.
  lemma {:induction false} SkipBanned(banned: Word -> bool, w: Word, k: nat, n: nat)
    requires k <= n && forall j: nat :: j < k ==> banned(Advance(w, j))
    ensures Admissible(banned, w, n) == Admissible(banned, Advance(w, k), n - k)
    decreases k
  {
    if k > 0 {
      SkipBanned(banned, w, k - 1, n);
      assert banned(Advance(w, k - 1));
      AdvanceAdvance(w, k - 1, 1);
    }
  }

  // The first word of a range that is not banned, if there is one (k == n: there is none).
  lemma {:induction false} FirstAdmissible(banned: Word -> bool, w: Word, n: nat) returns (k: nat)
    ensures k <= n && (forall j: nat :: j < k ==> banned(Advance(w, j))) && (k < n ==> !banned(Advance(w, k)))
  {
    k := 0;
    while k < n && banned(Advance(w, k))
      invariant k <= n && forall j: nat :: j < k ==> banned(Advance(w, j))
    {
      k := k + 1;
    }
  }

  // Over a range that does not wrap, the admissible words of the range are listed ...
  lemma {:induction false} AdmissibleInRange(banned: Word -> bool, w: Word, n: nat)
    requires w + n <= WORDS
    ensures forall v :: v in Admissible(banned, w, n) ==> w <= v < w + n && !banned(v)
    decreases n
  {
    if n > 0 {
      if n > 1 {
        AdmissibleInRange(banned, Advance(w, 1), n - 1);
      }
      var tail := Admissible(banned, Advance(w, 1), n - 1);
      assert Admissible(banned, w, n) == if banned(w) then tail else [w] + tail;
    }
  }

  // ... all of them ...
  lemma {:induction false} AdmissibleComplete(banned: Word -> bool, w: Word, n: nat, v: Word)
    requires w + n <= WORDS
    requires w <= v < w + n && !banned(v)
    ensures v in Admissible(banned, w, n)
    decreases n
  {
    if v != w {
      AdmissibleComplete(banned, Advance(w, 1), n - 1, v);
    }
  }

  // ... and none twice.
  lemma {:induction false} AdmissibleIncreasing(banned: Word -> bool, w: Word, n: nat)
    requires w + n <= WORDS
    ensures Increasing(Admissible(banned, w, n))
    decreases n
  {
    if n > 0 {
      var tail := Admissible(banned, Advance(w, 1), n - 1);
      assert Increasing(tail) && forall v :: v in tail ==> w < v by {
        if n > 1 {
          AdmissibleIncreasing(banned, Advance(w, 1), n - 1);
          AdmissibleInRange(banned, Advance(w, 1), n - 1);
        }
      }
      assert Admissible(banned, w, n) == if banned(w) then tail else [w] + tail;
      IncreasingCons(w, tail);
    }
  }

  lemma IncreasingCons(w: Word, tail: seq<Word>)
    requires Increasing(tail) && forall v :: v in tail ==> w < v
    ensures Increasing([w] + tail)
  {
    var s := [w] + tail;
    forall i, j | 0 <= i < j < |s| ensures s[i] < s[j] {
      assert s[j] == tail[j - 1] && tail[j - 1] in tail;
      assert i > 0 ==> s[i] == tail[i - 1];
    }
  }

  ghost predicate Increasing(s: seq<Word>)
  {
    forall i, j :: 0 <= i < j < |s| ==> s[i] < s[j]
  }
}
