/** The guess evaluator of the game board: a two-pass scorer that marks exact
    matches first and then hands each remaining guess letter the leftmost
    unconsumed equal target letter, so that duplicate letters are never
    over-counted.

    `Evaluate` is the array-based routine. It is proved equal to `Evaluation`,
    a functional statement of the same two passes, and the properties the game
    relies on are proved about `Evaluation`. */
module Evaluator {
  import opened Types

  /** Guess position `i` holds the same letter as the target at `i`. A position
      past the end of the target never matches (the target letter there is
      undefined, and undefined equals no letter). */
  predicate Exact(guess: string, target: string, i: int)
  {
    0 <= i < |guess| && i < |target| && guess[i] == target[i]
  }

  /** The evaluator's working state: one verdict per guess position and one
      "used" marker per target position. */
  datatype Marks = Marks(states: seq<LetterState>, used: seq<bool>)

  predicate WellSized(guess: string, target: string, m: Marks)
  {
    |m.states| == |guess| && |m.used| == |target|
  }

  /** After the first pass: exact matches are `Correct` and consume their own
      target position; every other position is still `Absent`. */
  function PassOne(guess: string, target: string): Marks
  {
    Marks(seq(|guess|, i => if Exact(guess, target, i) then Correct else Absent),
          seq(|target|, j => Exact(guess, target, j)))
  }

  /** The leftmost target position at or after `j` that is unused and holds
      `c`, or `|target|` when there is none. */
  function FreeFrom(c: char, target: string, used: seq<bool>, j: nat): (k: nat)
    requires |used| == |target| && j <= |target|
    ensures j <= k <= |target|
    ensures k < |target| ==> !used[k] && target[k] == c
    ensures forall m :: j <= m < k ==> used[m] || target[m] != c
    decreases |target| - j
  {
    if j == |target| then j
    else if !used[j] && target[j] == c then j
    else FreeFrom(c, target, used, j + 1)
  }

  /** The second pass at guess position `i`: a position resolved in the first
      pass is skipped; otherwise the leftmost free equal target letter, if any,
      makes it `Present` and is consumed. */
  function Step(guess: string, target: string, m: Marks, i: nat): Marks
    requires i < |guess| && WellSized(guess, target, m)
  {
    if Exact(guess, target, i) then m
    else
      var j := FreeFrom(guess[i], target, m.used, 0);
      if j < |target| then Marks(m.states[i := Present], m.used[j := true]) else m
  }

  /** `Step` is determined by where the leftmost-free search stops: at a free
      equal letter `j`, or at the end of the target. */
  lemma StepAt(guess: string, target: string, m: Marks, i: nat, j: nat)
    requires i < |guess| && WellSized(guess, target, m) && !Exact(guess, target, i)
    requires j <= |target| && forall k :: 0 <= k < j ==> m.used[k] || target[k] != guess[i]
    requires j < |target| ==> !m.used[j] && target[j] == guess[i]
    ensures Step(guess, target, m, i) ==
              if j < |target| then Marks(m.states[i := Present], m.used[j := true]) else m
  {
    assert FreeFrom(guess[i], target, m.used, 0) == j;
  }

  /** The marks once the second pass has visited positions `0 .. k-1`. */
  function PassTwoUpTo(guess: string, target: string, k: nat): (m: Marks)
    requires k <= |guess|
    ensures WellSized(guess, target, m)
    decreases k
  {
    if k == 0 then PassOne(guess, target)
    else Step(guess, target, PassTwoUpTo(guess, target, k - 1), k - 1)
  }

  /** The verdicts for `guess` against `target`. */
  function Evaluation(guess: string, target: string): seq<LetterState>
  {
    PassTwoUpTo(guess, target, |guess|).states
  }

  /** The evaluator as the game board runs it: a verdict array and two marker
      arrays, filled by a first pass for exact matches and a second pass whose
      inner search stops at the first free equal target letter. */
  method Evaluate(guess: string, target: string) returns (states: seq<LetterState>)
    ensures states == Evaluation(guess, target)
    ensures |states| == |guess|
    ensures forall i :: 0 <= i < |states| ==> states[i] != Unknown
    ensures forall i :: 0 <= i < |states| ==> (states[i] == Correct <==> Exact(guess, target, i))
  {
    var currentLetterStates := new LetterState[|guess|](_ => Absent);
    var targetUsed := new bool[|target|](_ => false);
    var guessProcessed := new bool[|guess|](_ => false);
    MarkExactMatches(guess, target, currentLetterStates, targetUsed, guessProcessed);
    MarkPresentLetters(guess, target, currentLetterStates, targetUsed, guessProcessed);
    states := currentLetterStates[..];
    EvaluationVerdicts(guess, target);
  }

  /** First pass: exact-position matches become `Correct`, and both their
      target position and their guess position are marked. */
  method MarkExactMatches(guess: string, target: string, currentLetterStates: array<LetterState>,
                          targetUsed: array<bool>, guessProcessed: array<bool>)
    requires currentLetterStates.Length == guessProcessed.Length == |guess| && targetUsed.Length == |target|
    requires targetUsed != guessProcessed
    requires forall k :: 0 <= k < |guess| ==> currentLetterStates[k] == Absent && !guessProcessed[k]
    requires forall j :: 0 <= j < |target| ==> !targetUsed[j]
    modifies currentLetterStates, targetUsed, guessProcessed
    ensures currentLetterStates[..] == PassOne(guess, target).states
    ensures targetUsed[..] == PassOne(guess, target).used
    ensures forall k :: 0 <= k < |guess| ==> guessProcessed[k] == Exact(guess, target, k)
  {
    for i := 0 to |guess|
      invariant forall k :: 0 <= k < |guess| ==>
        currentLetterStates[k] == (if k < i && Exact(guess, target, k) then Correct else Absent)
      invariant forall k :: 0 <= k < |guess| ==> guessProcessed[k] == (k < i && Exact(guess, target, k))
      invariant forall j :: 0 <= j < |target| ==> targetUsed[j] == (j < i && Exact(guess, target, j))
    {
      // Past the end of the target the JavaScript comparison is with
      // `undefined`, which never matches.
      if i < |target| && guess[i] == target[i] {
        currentLetterStates[i] := Correct;
        targetUsed[i] := true;
        guessProcessed[i] := true;
      }
    }
    assert currentLetterStates[..] == PassOne(guess, target).states;
    assert targetUsed[..] == PassOne(guess, target).used;
  }

  /** Second pass: each unprocessed guess position takes the leftmost unused
      equal target letter, if any, and becomes `Present`. */
  method MarkPresentLetters(guess: string, target: string, currentLetterStates: array<LetterState>,
                            targetUsed: array<bool>, guessProcessed: array<bool>)
    requires currentLetterStates.Length == guessProcessed.Length == |guess| && targetUsed.Length == |target|
    requires targetUsed != guessProcessed
    requires currentLetterStates[..] == PassOne(guess, target).states
    requires targetUsed[..] == PassOne(guess, target).used
    requires forall k :: 0 <= k < |guess| ==> guessProcessed[k] == Exact(guess, target, k)
    modifies currentLetterStates, targetUsed
    ensures currentLetterStates[..] == Evaluation(guess, target)
  {
    for i := 0 to |guess|
      invariant currentLetterStates[..] == PassTwoUpTo(guess, target, i).states
      invariant targetUsed[..] == PassTwoUpTo(guess, target, i).used
    {
      ghost var before := PassTwoUpTo(guess, target, i);
      if !guessProcessed[i] {
        var j := 0;
        while j < |target|
          invariant 0 <= j <= |target|
          invariant forall m :: 0 <= m < j ==> before.used[m] || target[m] != guess[i]
          invariant currentLetterStates[..] == before.states && targetUsed[..] == before.used
        {
          if !targetUsed[j] && guess[i] == target[j] {
            StepAt(guess, target, before, i, j);
            currentLetterStates[i] := Present;
            targetUsed[j] := true;
            break;
          }
          j := j + 1;
        }
        if j == |target| {
          StepAt(guess, target, before, i, j);
        }
      }
    }
  }

  /** A verdict that accounts for a target letter. */
  predicate Hit(s: LetterState)
  {
    s == Correct || s == Present
  }

  function Hits(states: seq<LetterState>): seq<bool>
  {
    seq(|states|, i requires 0 <= i < |states| => Hit(states[i]))
  }

  /** The number of positions `i` with `letters[i] == c` and `flags[i]`. */
  function Tally(letters: string, flags: seq<bool>, c: char): nat
    requires |flags| == |letters|
  {
    if letters == [] then 0
    else (if letters[0] == c && flags[0] then 1 else 0) + Tally(letters[1..], flags[1..], c)
  }

  function Min(a: int, b: int): int
  {
    if a <= b then a else b
  }

  lemma {:induction false} TallyUpdate(letters: string, flags: seq<bool>, c: char, i: nat, b: bool)
    requires |flags| == |letters| && i < |letters|
    ensures Tally(letters, flags[i := b], c) ==
            Tally(letters, flags, c)
            - (if letters[i] == c && flags[i] then 1 else 0)
            + (if letters[i] == c && b then 1 else 0)
  {
    if i == 0 {
      assert flags[i := b][1..] == flags[1..];
    } else {
      assert flags[i := b][1..] == flags[1..][i - 1 := b];
      TallyUpdate(letters[1..], flags[1..], c, i - 1, b);
    }
  }

  /** A tally never exceeds the letter's multiplicity, and reaches it when every
      occurrence of the letter is flagged. */
  lemma {:induction false} TallyBound(letters: string, flags: seq<bool>, c: char)
    requires |flags| == |letters|
    ensures Tally(letters, flags, c) <= multiset(letters)[c]
    ensures (forall i :: 0 <= i < |letters| && letters[i] == c ==> flags[i]) ==>
              Tally(letters, flags, c) == multiset(letters)[c]
  {
    if letters != [] {
      assert letters == [letters[0]] + letters[1..];
      TallyBound(letters[1..], flags[1..], c);
      if forall i :: 0 <= i < |letters| && letters[i] == c ==> flags[i] {
        forall i | 0 <= i < |letters| - 1 && letters[1..][i] == c
          ensures flags[1..][i]
        {
          assert letters[i + 1] == c;
        }
      }
    }
  }

  /** Two flag sequences that mark the same positions, at which the two words
      agree, give equal tallies. */
  lemma {:induction false} TallyShared(a: string, fa: seq<bool>, b: string, fb: seq<bool>, c: char)
    requires |fa| == |a| && |fb| == |b|
    requires forall i :: 0 <= i < |a| && fa[i] ==> i < |b| && a[i] == b[i] && fb[i]
    requires forall i :: 0 <= i < |b| && fb[i] ==> i < |a| && a[i] == b[i] && fa[i]
    ensures Tally(a, fa, c) == Tally(b, fb, c)
  {
    if a != [] && b != [] {
      TallyShared(a[1..], fa[1..], b[1..], fb[1..], c);
    } else if a != [] {
      TallyShared(a[1..], fa[1..], b, fb, c);
    } else if b != [] {
      TallyShared(a, fa, b[1..], fb[1..], c);
    }
  }

  /** What holds of the marks after the second pass has visited `k` positions. */
  ghost predicate Invariant(guess: string, target: string, k: nat, m: Marks)
  {
    && WellSized(guess, target, m)
    && k <= |guess|
    && (forall i :: 0 <= i < |guess| ==> m.states[i] != Unknown)
    && (forall i :: 0 <= i < |guess| ==> (m.states[i] == Correct <==> Exact(guess, target, i)))
    // positions the second pass has not reached keep their first-pass verdict
    && (forall i :: k <= i < |guess| ==> m.states[i] != Present)
    // exact matches consume their own target position
    && (forall j :: 0 <= j < |target| && Exact(guess, target, j) ==> m.used[j])
    // a present letter is backed by a target position that is not an exact match
    && (forall i :: 0 <= i < |guess| && m.states[i] == Present ==>
          exists j :: 0 <= j < |target| && target[j] == guess[i] && !Exact(guess, target, j))
    // a visited absent letter has no unused copy left in the target
    && (forall i, j :: 0 <= i < k && 0 <= j < |target| && m.states[i] == Absent && target[j] == guess[i] ==>
          m.used[j])
    // once a visited letter is absent, no later copy of it in the guess is present
    && (forall i, i' :: 0 <= i < i' < k && guess[i] == guess[i'] && m.states[i] == Absent ==>
          m.states[i'] != Present)
    // per letter, resolved guess positions and consumed target positions balance
    && (forall c :: Tally(guess, Hits(m.states), c) == Tally(target, m.used, c))
  }

  lemma PassOneInvariant(guess: string, target: string)
    ensures Invariant(guess, target, 0, PassOne(guess, target))
  {
    var m := PassOne(guess, target);
    forall c ensures Tally(guess, Hits(m.states), c) == Tally(target, m.used, c) {
      TallyShared(guess, Hits(m.states), target, m.used, c);
    }
  }

  lemma StepInvariant(guess: string, target: string, k: nat, m: Marks)
    requires k < |guess| && Invariant(guess, target, k, m)
    ensures Invariant(guess, target, k + 1, Step(guess, target, m, k))
  {
    if !Exact(guess, target, k) {
      var j := FreeFrom(guess[k], target, m.used, 0);
      if j < |target| {
        var m' := Marks(m.states[k := Present], m.used[j := true]);
        assert Hits(m'.states) == Hits(m.states)[k := true];
        forall c ensures Tally(guess, Hits(m'.states), c) == Tally(target, m'.used, c) {
          TallyUpdate(guess, Hits(m.states), c, k, true);
          TallyUpdate(target, m.used, c, j, true);
        }
        assert !Exact(guess, target, j);
      }
    }
  }

  lemma {:induction false} PassTwoInvariant(guess: string, target: string, k: nat)
    requires k <= |guess|
    ensures Invariant(guess, target, k, PassTwoUpTo(guess, target, k))
  {
    if k == 0 {
      PassOneInvariant(guess, target);
    } else {
      PassTwoInvariant(guess, target, k - 1);
      StepInvariant(guess, target, k - 1, PassTwoUpTo(guess, target, k - 1));
    }
  }

  /** One verdict per guess letter, never `Unknown`, and `Correct` exactly at
      the exact-position matches: the second pass never touches a position
      the first pass resolved. */
  lemma EvaluationVerdicts(guess: string, target: string)
    ensures |Evaluation(guess, target)| == |guess|
    ensures forall i :: 0 <= i < |guess| ==> Evaluation(guess, target)[i] != Unknown
    ensures forall i :: 0 <= i < |guess| ==>
              (Evaluation(guess, target)[i] == Correct <==> Exact(guess, target, i))
  {
    PassTwoInvariant(guess, target, |guess|);
  }

  /** A `Present` letter is not an exact match, and its letter stands at some
      other target position that is not itself an exact match. */
  lemma EvaluationPresent(guess: string, target: string, i: nat)
    requires i < |guess| && Evaluation(guess, target)[i] == Present
    ensures !Exact(guess, target, i)
    ensures exists j :: 0 <= j < |target| && j != i && target[j] == guess[i] && !Exact(guess, target, j)
  {
    PassTwoInvariant(guess, target, |guess|);
  }

  /** Repeated guess letters are served left to right: when a later copy of a
      letter is `Present`, every earlier copy that is not an exact match is
      `Present` too. */
  lemma EvaluationLeftmost(guess: string, target: string, i: nat, i': nat)
    requires i < i' < |guess| && guess[i] == guess[i']
    requires !Exact(guess, target, i)
    requires Evaluation(guess, target)[i'] == Present
    ensures Evaluation(guess, target)[i] == Present
  {
    PassTwoInvariant(guess, target, |guess|);
  }

  /** Duplicate letters are scored exactly: for every letter, the number of
      guess positions holding it that are marked `Correct` or `Present` is the
      smaller of its counts in the guess and in the target. */
  lemma EvaluationCounts(guess: string, target: string, c: char)
    ensures |Evaluation(guess, target)| == |guess|
    ensures Tally(guess, Hits(Evaluation(guess, target)), c) == Min(multiset(guess)[c], multiset(target)[c])
  {
    var m := PassTwoUpTo(guess, target, |guess|);
    PassTwoInvariant(guess, target, |guess|);
    TallyBound(guess, Hits(m.states), c);
    TallyBound(target, m.used, c);
    if exists i :: 0 <= i < |guess| && guess[i] == c && !Hit(m.states[i]) {
      var i :| 0 <= i < |guess| && guess[i] == c && !Hit(m.states[i]);
      assert m.states[i] == Absent;
      assert forall j :: 0 <= j < |target| && target[j] == c ==> m.used[j];
    }
  }

  /** An `Absent` letter has every copy in the target accounted for by other
      guess positions. */
  lemma EvaluationAbsent(guess: string, target: string, i: nat)
    requires i < |guess| && Evaluation(guess, target)[i] == Absent
    ensures Tally(guess, Hits(Evaluation(guess, target)), guess[i]) == multiset(target)[guess[i]]
  {
    AbsentExhausts(guess, target, i);
  }

  lemma AbsentExhausts(guess: string, target: string, i: nat)
    requires i < |guess| && PassTwoUpTo(guess, target, |guess|).states[i] == Absent
    ensures Tally(guess, Hits(PassTwoUpTo(guess, target, |guess|).states), guess[i]) == multiset(target)[guess[i]]
  {
    var m := PassTwoUpTo(guess, target, |guess|);
    PassTwoInvariant(guess, target, |guess|);
    var c := guess[i];
    assert forall j :: 0 <= j < |target| && target[j] == c ==> m.used[j];
    TallyBound(target, m.used, c);
  }

  /** Guessing the target itself scores all `Correct`. */
  lemma EvaluationOfTarget(target: string)
    ensures Evaluation(target, target) == seq(|target|, _ => Correct)
  {
    EvaluationVerdicts(target, target);
  }

  /** A guess sharing no letter with the target scores all `Absent`. */
  lemma EvaluationDisjoint(guess: string, target: string)
    requires forall i, j :: 0 <= i < |guess| && 0 <= j < |target| ==> guess[i] != target[j]
    ensures Evaluation(guess, target) == seq(|guess|, _ => Absent)
  {
    EvaluationVerdicts(guess, target);
    forall i | 0 <= i < |guess|
      ensures Evaluation(guess, target)[i] == Absent
    {
      if Evaluation(guess, target)[i] == Present {
        EvaluationPresent(guess, target, i);
      }
    }
  }

  /** Worked example with a repeated guess letter: the exact `A` at position 0
      consumes the target's first `A`, the second guess `A` takes the leftover
      `A` at position 2, and only one of the two `B`s finds a target `B`. */
  lemma ExampleRepeatedLetters()
    ensures Evaluation("AABB", "ABAX") == [Correct, Present, Present, Absent]
  {
    var g, t := "AABB", "ABAX";
    assert PassTwoUpTo(g, t, 0) == Marks([Correct, Absent, Absent, Absent], [true, false, false, false]);
    assert PassTwoUpTo(g, t, 1) == Marks([Correct, Absent, Absent, Absent], [true, false, false, false]);
    assert FreeFrom('A', t, [true, false, false, false], 0) == 2;
    assert PassTwoUpTo(g, t, 2) == Marks([Correct, Present, Absent, Absent], [true, false, true, false]);
    assert FreeFrom('B', t, [true, false, true, false], 0) == 1;
    assert PassTwoUpTo(g, t, 3) == Marks([Correct, Present, Present, Absent], [true, true, true, false]);
    assert FreeFrom('B', t, [true, true, true, false], 0) == 4;
  }

  /** Worked example: `LLAMA` against `ALARM`. The first `L` finds only the
      target `L` already consumed by the exact match at position 1. */
  lemma ExampleLlama()
    ensures Evaluation("LLAMA", "ALARM") == [Absent, Correct, Correct, Present, Present]
  {
    var g, t := "LLAMA", "ALARM";
    var afterOne := Marks([Absent, Correct, Correct, Absent, Absent], [false, true, true, false, false]);
    assert PassTwoUpTo(g, t, 0) == afterOne;
    assert FreeFrom('L', t, afterOne.used, 0) == 5;
    assert PassTwoUpTo(g, t, 1) == afterOne;
    assert PassTwoUpTo(g, t, 3) == afterOne;
    assert FreeFrom('M', t, afterOne.used, 0) == 4;
    assert PassTwoUpTo(g, t, 4) ==
      Marks([Absent, Correct, Correct, Present, Absent], [false, true, true, false, true]);
    assert FreeFrom('A', t, [false, true, true, false, true], 0) == 0;
  }
}
