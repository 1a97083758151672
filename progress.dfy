/** The progress calculator: a mini's progress is the number of its completed stages
    out of five; the done count counts fully completed minis; the percent rounds a
    progress ratio to a whole number the way `Math.round` does.

    A progress ratio is carried as its integer numerator over a known denominator,
    so a mini's progress `k / 5` is represented by `k`. */
module Progress {
  import opened Types

  function Indicator(b: bool): nat {
    if b then 1 else 0
  }

  /** `keys.reduce((count, stage) => count + (mini[stage] ? 1 : 0), count)`. */
  function CountCompleted(m: Mini, keys: seq<Stage>, count: nat): (r: nat)
    ensures count <= r <= count + |keys|
    decreases |keys|
  {
    if keys == [] then count
    else CountCompleted(m, keys[1..], count + Indicator(Flag(m, keys[0])))
  }

  /** `getMiniProgress`, as the numerator `k` of `k / 5`: how many of the five stage
      flags are true. */
  function MiniProgress(m: Mini): (k: nat)
    ensures k <= |StageKeys|
    ensures k == Indicator(m.assembled) + Indicator(m.primed) + Indicator(m.painted)
               + Indicator(m.based) + Indicator(m.photographed)
  {
    CountCompleted(m, StageKeys, 0)
  }

  /** How many true flags a multiset of stages hits, counting each occurrence. */
  function Tally(m: Mini, ks: multiset<Stage>): nat {
    (if m.assembled then ks[Assembled] else 0) + (if m.primed then ks[Primed] else 0)
    + (if m.painted then ks[Painted] else 0) + (if m.based then ks[Based] else 0)
    + (if m.photographed then ks[Photographed] else 0)
  }

  lemma TallyAdd(m: Mini, k: Stage, rest: multiset<Stage>)
    ensures Tally(m, multiset{k} + rest) == Indicator(Flag(m, k)) + Tally(m, rest)
  {
    var ks := multiset{k} + rest;
    assert forall s: Stage :: ks[s] == (if s == k then 1 else 0) + rest[s];
  }

  /** Counting along any list of stages depends only on which stages the list holds. */
  lemma {:induction false} CountCompletedTally(m: Mini, keys: seq<Stage>, count: nat)
    ensures CountCompleted(m, keys, count) == count + Tally(m, multiset(keys))
    decreases |keys|
  {
    if keys != [] {
      var k := keys[0];
      var rest := multiset(keys[1..]);
      assert keys == [k] + keys[1..];
      assert multiset(keys) == multiset{k} + rest;
      TallyAdd(m, k, rest);
      CountCompletedTally(m, keys[1..], count + Indicator(Flag(m, k)));
    }
  }

  /** The count is order-independent: any ordering of the five stages gives the same progress. */
  lemma StageOrderIrrelevant(m: Mini, keys: seq<Stage>)
    requires multiset(keys) == multiset(StageKeys)
    ensures CountCompleted(m, keys, 0) == MiniProgress(m)
  {
    CountCompletedTally(m, keys, 0);
    CountCompletedTally(m, StageKeys, 0);
  }

  /** The fixed stage list names every stage exactly once. */
  lemma StageKeysComplete()
    ensures |StageKeys| == 5
    ensures forall s: Stage :: s in StageKeys
    ensures forall i, j :: 0 <= i < j < |StageKeys| ==> StageKeys[i] != StageKeys[j]
  {
    forall s: Stage ensures s in StageKeys {
      assert StageKeys[StageIndex(s)] == s;
    }
  }

  /** Progress is 5/5 exactly when every stage is complete, and 0 exactly when none is. */
  lemma ProgressExtremes(m: Mini)
    ensures MiniProgress(m) == |StageKeys| <==> forall s: Stage :: Flag(m, s)
    ensures MiniProgress(m) == 0 <==> forall s: Stage :: !Flag(m, s)
  {
    if MiniProgress(m) != |StageKeys| {
      var s :| s in StageKeys && !Flag(m, s);
    }
    if MiniProgress(m) != 0 {
      var s :| s in StageKeys && Flag(m, s);
    }
  }

  /** Two minis that agree on their five flags have the same progress, whatever else differs. */
  lemma ProgressOnlyFlags(m1: Mini, m2: Mini)
    requires forall s: Stage :: Flag(m1, s) == Flag(m2, s)
    ensures MiniProgress(m1) == MiniProgress(m2)
  {
    assert Flag(m1, Assembled) == Flag(m2, Assembled) && Flag(m1, Primed) == Flag(m2, Primed);
    assert Flag(m1, Painted) == Flag(m2, Painted) && Flag(m1, Based) == Flag(m2, Based);
    assert Flag(m1, Photographed) == Flag(m2, Photographed);
  }

  /** `getMiniProgress(mini) === 1`. */
  predicate IsDone(m: Mini)
    ensures IsDone(m) <==> forall s: Stage :: Flag(m, s)
  {
    ProgressExtremes(m);
    MiniProgress(m) == |StageKeys|
  }

  /** `minis.reduce((count, mini) => (done(mini) ? count + 1 : count), count)`. */
  function CountDone(minis: seq<Mini>, count: nat): (r: nat)
    ensures count <= r <= count + |minis|
    decreases |minis|
  {
    if minis == [] then count
    else CountDone(minis[1..], if IsDone(minis[0]) then count + 1 else count)
  }

  /** `getMiniDoneCount`: how many minis have all five stages complete. */
  function DoneCount(minis: seq<Mini>): (n: nat)
    ensures n <= |minis|
  {
    CountDone(minis, 0)
  }

  lemma {:induction false} CountDoneShift(minis: seq<Mini>, count: nat)
    ensures CountDone(minis, count) == count + DoneCount(minis)
    decreases |minis|
  {
    if minis != [] {
      var c := if IsDone(minis[0]) then 1 else 0;
      CountDoneShift(minis[1..], count + c);
      CountDoneShift(minis[1..], c);
    }
  }

  /** The done count of an empty list is 0, and it is additive over concatenation. */
  lemma {:induction false} DoneCountAppend(a: seq<Mini>, b: seq<Mini>)
    ensures DoneCount([]) == 0
    ensures DoneCount(a + b) == DoneCount(a) + DoneCount(b)
    decreases |a|
  {
    if a == [] {
      assert a + b == b;
    } else {
      assert (a + b)[1..] == a[1..] + b;
      var c := if IsDone(a[0]) then 1 else 0;
      CountDoneShift(a[1..] + b, c);
      CountDoneShift(a[1..], c);
      DoneCountAppend(a[1..], b);
    }
  }

  /** The done count is 0 exactly when no mini is done, and the list length exactly when all are. */
  lemma {:induction false} DoneCountExtremes(minis: seq<Mini>)
    ensures DoneCount(minis) == 0 <==> forall i :: 0 <= i < |minis| ==> !IsDone(minis[i])
    ensures DoneCount(minis) == |minis| <==> forall i :: 0 <= i < |minis| ==> IsDone(minis[i])
    decreases |minis|
  {
    if minis != [] {
      var c := if IsDone(minis[0]) then 1 else 0;
      CountDoneShift(minis[1..], c);
      DoneCountExtremes(minis[1..]);
      assert forall i :: 1 <= i < |minis| ==> minis[i] == minis[1..][i - 1];
    }
  }

  /** `toPercent(num / den)`: `Math.round` of the percentage, so the result is within half
      of `100 * num / den`, with an exact half rounded up. */
  function ToPercent(num: nat, den: nat): (p: nat)
    requires den > 0
    ensures (2 * p - 1) * den <= 200 * num < (2 * p + 1) * den
  {
    (200 * num + den) / (2 * den)
  }

  lemma MulMonotone(a: int, b: int, c: nat)
    requires a <= b
    ensures a * c <= b * c
  {
  }

  /** A ratio between 0 and 1 gives a percent between 0 and 100. */
  lemma PercentBounds(num: nat, den: nat)
    requires 0 < den && num <= den
    ensures ToPercent(num, den) <= 100
  {
    var p: int := ToPercent(num, den);
    if p > 100 {
      MulMonotone(201, 2 * p - 1, den);
      assert false;
    }
  }

  /** A mini's percent is exactly 20 times its number of completed stages. */
  lemma MiniPercent(m: Mini)
    ensures ToPercent(MiniProgress(m), |StageKeys|) == 20 * MiniProgress(m) <= 100
  {
    var k := MiniProgress(m);
    var p: int := ToPercent(k, 5);
    assert (2 * p - 1) * 5 <= 200 * k < (2 * p + 1) * 5;
  }
}
