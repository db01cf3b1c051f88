// The fetch stages: which instruction word a unit scans next.
module Feeder {
  import opened Words

  // What a fetch stage answers: the next word, or that the range is exhausted; in both
  // cases with the number of words it passed over, each of which bumps numInstrExec.
  datatype Fetched = Exhausted(skipped: nat) | Found(next: Word, skipped: nat)

  // Fetching with a fixed stride passes over exactly the banned words before the answer.
  // `steps` is how many strides away the final word is.
  ghost predicate NextInSteps(banned: Word -> bool, current: Word, stride: nat, steps: nat, f: Fetched)
  {
    && (forall j: nat :: 1 <= j <= f.skipped ==> banned(Advance(current, stride * j)))
    && match f
       case Found(next, skipped) =>
         skipped < steps && next == Advance(current, stride * (skipped + 1)) && !banned(next)
       case Exhausted(skipped) =>
         if steps == 0 then skipped == 0
         else skipped == steps - 1 && banned(Advance(current, stride * steps))
  }

  // The `exhaustive` stage.
  method Exhaustive(banned: Word -> bool, current: Word, final: Word) returns (f: Fetched)
    ensures NextInSteps(banned, current, 1, Distance(current, final), f)
  {
    if current == final {
      return Exhausted(0);
    }
    var temp, skipped := Advance(current, 1), 0;
    while banned(temp)
      invariant temp == Advance(current, skipped + 1) && skipped < Distance(current, final)
      invariant forall j: nat :: 1 <= j <= skipped ==> banned(Advance(current, 1 * j))
      decreases Distance(current, final) - skipped
    {
      ReachedFinal(current, final, skipped + 1);
      AdvanceAdvance(current, skipped + 1, 1);
      if temp == final {
        return Exhausted(skipped);
      }
      temp := Advance(temp, 1);
      skipped := skipped + 1;
    }
    return Found(temp, skipped);
  }

  // The `riscvgOnlyFetch` stage steps by 4 and stops only on hitting `final` exactly.  When
  // the two are not congruent modulo 4 it can never stop: it answers with the next word of
  // its residue class, however far, and would search forever if all of those were banned.
  predicate Congruent(current: Word, final: Word)
  {
    Distance(current, final) % 4 == 0
  }

  method RiscvgOnlyFetch(banned: Word -> bool, current: Word, final: Word) returns (f: Fetched)
    requires Congruent(current, final) || exists t: nat :: t >= 1 && !banned(Advance(current, 4 * t))
    ensures Congruent(current, final) ==>
      NextInSteps(banned, current, 4, Distance(current, final) / 4, f)
    ensures !Congruent(current, final) ==>
      f.Found? && NextInSteps(banned, current, 4, f.skipped + 1, f)
  {
    if current == final {
      return Exhausted(0);
    }
    ghost var bound: nat := Distance(current, final) / 4;
    if !Congruent(current, final) {
      bound :| bound >= 1 && !banned(Advance(current, 4 * bound));
    }
    var temp, skipped := Advance(current, 4), 0;
    while banned(temp)
      invariant temp == Advance(current, 4 * (skipped + 1)) && skipped < bound
      invariant forall j: nat :: 1 <= j <= skipped ==> banned(Advance(current, 4 * j))
      decreases bound - skipped
    {
      NeverHitsFinal(current, final, skipped + 1);
      AdvanceAdvance(current, 4 * (skipped + 1), 4);
      if temp == final {
        return Exhausted(skipped);
      }
      temp := Advance(temp, 4);
      skipped := skipped + 1;
    }
    return Found(temp, skipped);
  }

  lemma NeverHitsFinal(current: Word, final: Word, k: nat)
    ensures !Congruent(current, final) ==> Advance(current, 4 * k) != final
    ensures Congruent(current, final) && 4 * k <= Distance(current, final) ==>
      (Advance(current, 4 * k) == final <==> k == Distance(current, final) / 4)
  {}

  // The `riscvcOnlyFetch` stage also leaves out the words that end in binary 11, which are
  // not compressed instructions.
  predicate Fetchable(banned: Word -> bool, w: Word)
  {
    !banned(w) && w % 4 != 3
  }

  ghost predicate NoneFetchable(banned: Word -> bool, above: Word, upTo: Word)
  {
    forall v: Word :: above < v <= upTo ==> !Fetchable(banned, v)
  }

  // What was passed over, counted from the current word and so across the wrap-around.
  ghost predicate PassedOver(banned: Word -> bool, current: Word, n: nat)
  {
    forall j: nat :: 1 <= j <= n ==> !Fetchable(banned, Advance(current, j))
  }

  lemma PassedBelow(banned: Word -> bool, current: Word, n: nat)
    requires current + n < WORDS
    ensures PassedOver(banned, current, n) <==> NoneFetchable(banned, current, current + n)
  {
    if PassedOver(banned, current, n) {
      forall v: Word | current < v <= current + n ensures !Fetchable(banned, v) {
        assert v == Advance(current, v - current);
      }
    }
  }

  lemma PassedNone(banned: Word -> bool, current: Word)
    ensures PassedOver(banned, current, 0)
  {}

  lemma PassedOne(banned: Word -> bool, current: Word, n: nat)
    requires PassedOver(banned, current, n) && !Fetchable(banned, Advance(current, n + 1))
    ensures PassedOver(banned, current, n + 1)
  {}

  lemma MoreFetchable(banned: Word -> bool, current: Word, next: Word, final: Word)
    requires current < next && Fetchable(banned, next)
    ensures next <= final ==> !NoneFetchable(banned, current, final)
  {}

  // Below the largest word the comparison with final stops the search.  That word ends in binary 11
  // itself: as the final word it is never seen, and the search goes on from 0.
  method RiscvcOnlyFetch(banned: Word -> bool, current: Word, final: Word) returns (f: Fetched)
    requires current < final == WORDS - 1 ==> exists t: nat :: t >= 1 && Fetchable(banned, Advance(current, t))
    // The answer is the first fetchable word after the current one ...
    ensures f.Found? ==>
      && f.next == Advance(current, f.skipped + 1)
      && Fetchable(banned, f.next) && PassedOver(banned, current, f.skipped)
    // ... and lies in the range, except that it is one too far in exactly this case.
    ensures f.Found? && final + 1 < WORDS ==>
      f.next == current + f.skipped + 1 <= final + 1 && NoneFetchable(banned, current, f.next - 1)
    ensures final + 1 < WORDS ==>
      (f.Found? && f.next == final + 1 <==>
        current < final && final % 4 == 3 && NoneFetchable(banned, current, final) && !banned(final + 1))
    ensures f.Exhausted? <==>
      current >= final ||
      (final + 1 < WORDS && NoneFetchable(banned, current, final) && (final % 4 == 3 ==> banned(final + 1)))
  {
    hide Advance, PassedOver, NoneFetchable;
    PassedNone(banned, current);
    if current >= final {
      return Exhausted(0);
    }
    ghost var bound: nat := final + 1 - current;
    if final == WORDS - 1 {
      bound :| bound >= 1 && Fetchable(banned, Advance(current, bound));
    }
    var temp, skipped := Advance(current, 1), 0;
    NotPast(current, final, 1);
    if temp % 4 == 3 {
      PassedOne(banned, current, 0);
      AdvanceAdvance(current, 1, 1);
      NotPast(current, final, 2);
      temp, skipped := Advance(temp, 1), 1;
    }
    while banned(temp)
      invariant temp == Advance(current, skipped + 1) && temp % 4 != 3 && skipped < bound
      invariant final + 1 < WORDS ==> temp == current + skipped + 1
      invariant final + 1 < WORDS && temp == final + 1 ==> final % 4 == 3
      invariant PassedOver(banned, current, skipped)
      decreases bound - skipped
    {
      if temp >= final {
        if temp == final {
          PassedOne(banned, current, skipped);
        }
        PassedBelow(banned, current, final - current);
        return Exhausted(skipped);
      }
      PassedOne(banned, current, skipped);
      AdvanceAdvance(current, skipped + 1, 1);
      NotPast(current, final, skipped + 2);
      temp, skipped := Advance(temp, 1), skipped + 1;
      if temp % 4 == 3 {
        PassedOne(banned, current, skipped);
        AdvanceAdvance(current, skipped + 1, 1);
        NotPast(current, final, skipped + 2);
        temp, skipped := Advance(temp, 1), skipped + 1;
      }
    }
    if final + 1 < WORDS {
      PassedBelow(banned, current, skipped);
      MoreFetchable(banned, current, temp, final);
    }
    assert Fetchable(banned, temp);
    return Found(temp, skipped);
  }

  // Up to the word after final there is no wrap-around, and four words on the low bits are the same.
  lemma NotPast(current: Word, final: Word, k: nat)
    ensures final + 1 < WORDS && current + k <= final + 1 ==> Advance(current, k) == current + k
    ensures Advance(current, k) % 4 == 3 ==> Advance(current, k + 1) % 4 != 3
  {}

  // Such a case: from 2, with 3 as the last word and nothing blacklisted, the answer is 4.
  method OvershootFromTwo() returns (f: Fetched)
    ensures f == Found(4, 1)
  {
    var none := (w: Word) => false;
    f := RiscvcOnlyFetch(none, 2, 3);
    assert NoneFetchable(none, 2, 3);
  }
}
