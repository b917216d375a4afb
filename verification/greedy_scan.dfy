/** Leftmost greedy scanning: walk along a sequence of verdicts, take a window of fixed width
    wherever the verdict is positive and go on behind it, otherwise go on one position later.
    The resynchronisers of the repository are all instances of this walk. */
module GreedyScan {

  /** The window starts the walk takes from position `at` on. */
  function Starts(ok: seq<bool>, width: nat, at: nat): (starts: seq<nat>)
    requires 0 < width
    ensures forall i :: 0 <= i < |starts| ==> at <= starts[i] < |ok| && ok[starts[i]]
    decreases |ok| - at
  {
    if at >= |ok| then []
    else if ok[at] then [at] + Starts(ok, width, at + width)
    else Starts(ok, width, at + 1)
  }

  /** Where the walk from `at` stands when the verdicts run out. */
  function Resume(ok: seq<bool>, width: nat, at: nat): (position: nat)
    requires 0 < width
    ensures position >= at && position >= |ok|
    decreases |ok| - at
  {
    if at >= |ok| then at
    else if ok[at] then Resume(ok, width, at + width)
    else Resume(ok, width, at + 1)
  }

  ghost predicate Covered(starts: seq<nat>, width: nat, position: nat) {
    exists i :: 0 <= i < |starts| && starts[i] <= position < starts[i] + width
  }

  ghost predicate Positive(ok: seq<bool>, at: nat, starts: seq<nat>) {
    forall i :: 0 <= i < |starts| ==> at <= starts[i] < |ok| && ok[starts[i]]
  }

  ghost predicate Apart(width: nat, starts: seq<nat>) {
    forall i, j :: 0 <= i < j < |starts| ==> starts[i] + width <= starts[j]
  }

  ghost predicate NoneMissed(ok: seq<bool>, width: nat, at: nat, starts: seq<nat>) {
    forall position :: at <= position < |ok| && !Covered(starts, width, position) ==> !ok[position]
  }

  /** What "leftmost, greedy, non-overlapping" means, without saying how to find it: the windows
      start at positive verdicts, in order and apart, and every position from `at` on that no
      window covers has a negative verdict. */
  ghost predicate Greedy(ok: seq<bool>, width: nat, at: nat, starts: seq<nat>) {
    Positive(ok, at, starts) && Apart(width, starts) && NoneMissed(ok, width, at, starts)
  }

  /** A position is covered by a window in front or by one of the rest. */
  lemma {:induction false} CoveredByHeadOrRest(starts: seq<nat>, width: nat, position: nat)
    requires starts != []
    ensures Covered(starts, width, position)
            <==> starts[0] <= position < starts[0] + width || Covered(starts[1..], width, position)
  {
    if Covered(starts[1..], width, position) {
      var i :| 0 <= i < |starts[1..]| && starts[1..][i] <= position < starts[1..][i] + width;
      assert starts[i + 1] <= position < starts[i + 1] + width;
    }
    if Covered(starts, width, position) && !(starts[0] <= position < starts[0] + width) {
      var i :| 0 <= i < |starts| && starts[i] <= position < starts[i] + width;
      assert starts[1..][i - 1] <= position < starts[1..][i - 1] + width;
    }
  }

  lemma {:induction false} ApartCons(width: nat, head: nat, rest: seq<nat>)
    requires Apart(width, rest)
    requires forall j :: 0 <= j < |rest| ==> head + width <= rest[j]
    ensures Apart(width, [head] + rest)
  {
    var starts := [head] + rest;
    forall i, j | 0 <= i < j < |starts| ensures starts[i] + width <= starts[j] {
      assert starts[j] == rest[j - 1];
      if i > 0 { assert starts[i] == rest[i - 1]; }
    }
  }

  lemma {:induction false} GreedyBehind(ok: seq<bool>, width: nat, at: nat, rest: seq<nat>)
    requires 0 < width && at < |ok| && ok[at]
    requires Greedy(ok, width, at + width, rest)
    ensures Greedy(ok, width, at, [at] + rest)
  {
    var starts := [at] + rest;
    ApartCons(width, at, rest);
    hide Apart, Covered;
    assert starts[1..] == rest;
    forall position | at <= position < |ok| && !Covered(starts, width, position)
      ensures !ok[position]
    {
      CoveredByHeadOrRest(starts, width, position);
    }
  }

  lemma {:induction false} HeadIsLeast(width: nat, starts: seq<nat>, i: nat)
    requires Apart(width, starts) && i < |starts|
    ensures starts[0] <= starts[i]
  {
  }

  lemma {:induction false} HeadIsAt(ok: seq<bool>, width: nat, at: nat, starts: seq<nat>)
    requires at < |ok| && ok[at]
    requires Greedy(ok, width, at, starts)
    ensures starts != [] && starts[0] == at
  {
    assert Covered(starts, width, at);
    var i :| 0 <= i < |starts| && starts[i] <= at < starts[i] + width;
    HeadIsLeast(width, starts, i);
  }

  lemma {:induction false} ApartBehind(width: nat, starts: seq<nat>)
    requires starts != [] && Apart(width, starts)
    ensures Apart(width, starts[1..])
    ensures forall j :: 0 <= j < |starts[1..]| ==> starts[0] + width <= starts[1..][j]
  {
    forall j, k | 0 <= j < k < |starts[1..]| ensures starts[1..][j] + width <= starts[1..][k] {
      assert starts[j + 1] + width <= starts[k + 1];
    }
    forall j | 0 <= j < |starts[1..]| ensures starts[0] + width <= starts[1..][j] {
      assert starts[0] + width <= starts[j + 1];
    }
  }

  lemma {:induction false} GreedyAhead(ok: seq<bool>, width: nat, at: nat, starts: seq<nat>)
    requires 0 < width && at < |ok| && ok[at]
    requires Greedy(ok, width, at, starts)
    ensures starts != [] && starts[0] == at && Greedy(ok, width, at + width, starts[1..])
  {
    HeadIsAt(ok, width, at, starts);
    ApartBehind(width, starts);
    hide Apart, Covered;
    forall position | at + width <= position < |ok| && !Covered(starts[1..], width, position)
      ensures !ok[position]
    {
      CoveredByHeadOrRest(starts, width, position);
    }
  }

  /** A negative verdict can be walked past and back. */
  lemma {:induction false} GreedySkip(ok: seq<bool>, width: nat, at: nat, starts: seq<nat>)
    requires at < |ok| && !ok[at]
    ensures Greedy(ok, width, at, starts) <==> Greedy(ok, width, at + 1, starts)
  {
    if Greedy(ok, width, at, starts) {
      assert Positive(ok, at + 1, starts);
      assert NoneMissed(ok, width, at + 1, starts);
    }
    if Greedy(ok, width, at + 1, starts) {
      assert Positive(ok, at, starts);
      assert NoneMissed(ok, width, at, starts);
    }
  }

  lemma {:induction false} NothingLeft(ok: seq<bool>, width: nat, at: nat, starts: seq<nat>)
    requires at >= |ok|
    ensures Greedy(ok, width, at, starts) <==> starts == []
  {
    if starts != [] {
      assert !(at <= starts[0] < |ok|);
    }
  }

  lemma {:induction false} StartsAreGreedy(ok: seq<bool>, width: nat, at: nat)
    requires 0 < width
    ensures Greedy(ok, width, at, Starts(ok, width, at))
    decreases |ok| - at
  {
    hide Greedy;
    if at >= |ok| {
      NothingLeft(ok, width, at, []);
    } else {
      if ok[at] {
        StartsAreGreedy(ok, width, at + width);
        GreedyBehind(ok, width, at, Starts(ok, width, at + width));
      } else {
        StartsAreGreedy(ok, width, at + 1);
        GreedySkip(ok, width, at, Starts(ok, width, at + 1));
      }
    }
  }

  lemma {:induction false} GreedyIsUnique(ok: seq<bool>, width: nat, at: nat, starts: seq<nat>)
    requires 0 < width
    requires Greedy(ok, width, at, starts)
    ensures starts == Starts(ok, width, at)
    decreases |ok| - at
  {
    hide Greedy;
    if at >= |ok| {
      NothingLeft(ok, width, at, starts);
    } else if ok[at] {
      GreedyAhead(ok, width, at, starts);
      GreedyIsUnique(ok, width, at + width, starts[1..]);
      assert starts == [at] + starts[1..];
    } else {
      GreedySkip(ok, width, at, starts);
      GreedyIsUnique(ok, width, at + 1, starts);
    }
  }

  /** There is only one greedy choice of windows, and the walk finds it. */
  lemma {:induction false} StartsIffGreedy(ok: seq<bool>, width: nat, at: nat, starts: seq<nat>)
    requires 0 < width
    ensures starts == Starts(ok, width, at) <==> Greedy(ok, width, at, starts)
  {
    StartsAreGreedy(ok, width, at);
    if Greedy(ok, width, at, starts) {
      GreedyIsUnique(ok, width, at, starts);
    }
  }

  /** More verdicts at the end do not disturb the windows already found. */
  lemma {:induction false} StartsExtend(ok: seq<bool>, more: seq<bool>, width: nat, at: nat)
    requires 0 < width
    ensures Starts(ok + more, width, at)
            == Starts(ok, width, at) + Starts(ok + more, width, Resume(ok, width, at))
    decreases |ok| - at
  {
    if at < |ok| {
      StartsExtend(ok, more, width, if ok[at] then at + width else at + 1);
    }
  }
}
