/**
 * The label remap of `SGNHeadOne.save_pred`: nineteen in-place statements
 * `y_pred[y_pred == from] = to` turn SemanticKITTI training class ids
 * 0..19 into raw label ids (the inverse learning map). Because the
 * statements run one after another on the same array, an element rewritten
 * by one statement could be caught again by a later one; the order chosen
 * (classes 10..19 first, then 1..9) prevents that.
 */
module Remap {

  /** One statement `y_pred[y_pred == from] = to`. */
  datatype Assign = Assign(from: int, to: int)

  /** The statements of `save_pred`, in the order they run. */
  const SavePredSteps: seq<Assign> := [
    Assign(10, 44), Assign(11, 48), Assign(12, 49), Assign(13, 50), Assign(14, 51),
    Assign(15, 70), Assign(16, 71), Assign(17, 72), Assign(18, 80), Assign(19, 81),
    Assign(1, 10), Assign(2, 11), Assign(3, 15), Assign(4, 18), Assign(5, 20),
    Assign(6, 30), Assign(7, 31), Assign(8, 32), Assign(9, 40)
  ]

  /** `learning_map_inv` as the doc-comment of `save_pred` tabulates it. */
  const LearningMapInv: map<int, int> := map[
    0 := 0, 1 := 10, 2 := 11, 3 := 15, 4 := 18, 5 := 20, 6 := 30, 7 := 31, 8 := 32, 9 := 40,
    10 := 44, 11 := 48, 12 := 49, 13 := 50, 14 := 51, 15 := 70, 16 := 71, 17 := 72, 18 := 80, 19 := 81
  ]

  /** The raw label ids that appear in the table. */
  const RawIds: set<int> := {0, 10, 11, 15, 18, 20, 30, 31, 32, 40, 44, 48, 49, 50, 51, 70, 71, 72, 80, 81}

  /** The table applied once to one value; values outside it are left alone. */
  function RawLabel(c: int): int
  {
    if c in LearningMapInv then LearningMapInv[c] else c
  }

  /** The effect of one statement on one element. */
  function ApplyAssign(a: Assign, v: int): int
  {
    if v == a.from then a.to else v
  }

  /** The effect of running the statements in order on one element. */
  function ApplyAll(steps: seq<Assign>, v: int): int
  {
    if |steps| == 0 then v
    else ApplyAssign(steps[|steps| - 1], ApplyAll(steps[..|steps| - 1], v))
  }

  /** How many of the statements select (and write) the element. */
  function Writes(steps: seq<Assign>, v: int): nat
  {
    if |steps| == 0 then 0
    else
      var n := |steps| - 1;
      Writes(steps[..n], v) + (if ApplyAll(steps[..n], v) == steps[n].from then 1 else 0)
  }

  ghost predicate IsKey(steps: seq<Assign>, v: int)
  {
    exists i :: 0 <= i < |steps| && steps[i].from == v
  }

  /**
   * No statement selects a value that an earlier statement selected or
   * wrote: the condition under which the order of the statements is harmless.
   */
  ghost predicate NoChain(steps: seq<Assign>)
  {
    forall i, j :: 0 <= i < j < |steps| ==> steps[j].from != steps[i].from && steps[j].from != steps[i].to
  }

  /** A value that no statement selects passes through unchanged and unwritten. */
  lemma {:induction false} ApplyNonKey(steps: seq<Assign>, v: int)
    requires !IsKey(steps, v)
    ensures ApplyAll(steps, v) == v && Writes(steps, v) == 0
  {
    if |steps| > 0 {
      var n := |steps| - 1;
      assert steps[n].from != v;
      assert !IsKey(steps[..n], v);
      ApplyNonKey(steps[..n], v);
    }
  }

  /**
   * Without chains, a value selected by statement i ends up as that
   * statement's target and is written exactly once.
   */
  lemma {:induction false} ApplyKey(steps: seq<Assign>, i: nat, v: int)
    requires NoChain(steps) && i < |steps| && steps[i].from == v
    ensures ApplyAll(steps, v) == steps[i].to && Writes(steps, v) == 1
  {
    var n := |steps| - 1;
    var prefix := steps[..n];
    assert NoChain(prefix);
    if i == n {
      assert !IsKey(prefix, v);
      ApplyNonKey(prefix, v);
    } else {
      ApplyKey(prefix, i, v);
      assert steps[n].from != steps[i].to;
    }
  }

  /** Without chains, the sequential statements act as one pointwise lookup, each element written at most once. */
  lemma SequentialIsPointwise(steps: seq<Assign>, v: int)
    requires NoChain(steps)
    ensures IsKey(steps, v) ==> Writes(steps, v) == 1
    ensures !IsKey(steps, v) ==> ApplyAll(steps, v) == v && Writes(steps, v) == 0
    ensures forall i :: 0 <= i < |steps| && steps[i].from == v ==> ApplyAll(steps, v) == steps[i].to
  {
    if IsKey(steps, v) {
      var i :| 0 <= i < |steps| && steps[i].from == v;
      ApplyKey(steps, i, v);
    } else {
      ApplyNonKey(steps, v);
    }
  }

  /**
   * The first ten statements select 10..19 and write ids of 44 and above;
   * the last nine select 1..9 and write ids of 10 and above.
   */
  lemma SavePredShape()
    ensures forall i :: 0 <= i < 10 ==> SavePredSteps[i].from == i + 10 && SavePredSteps[i].to >= 44
    ensures forall i :: 10 <= i < |SavePredSteps| ==> SavePredSteps[i].from == i - 9 && SavePredSteps[i].to >= 10
  {
  }

  lemma SavePredNoChain()
    ensures NoChain(SavePredSteps)
  {
    SavePredShape();
  }

  /**
   * The nineteen statements of `save_pred`, run in their order, equal one
   * application of the doc-comment table, and no element is written twice:
   * exactly the classes 1..19 are written, once each.
   */
  lemma SavePredIsLearningMapInv(v: int)
    ensures ApplyAll(SavePredSteps, v) == RawLabel(v)
    ensures Writes(SavePredSteps, v) == (if 1 <= v <= 19 then 1 else 0)
  {
    SavePredNoChain();
    if 10 <= v <= 19 {
      ApplyKey(SavePredSteps, v - 10, v);
    } else if 1 <= v <= 9 {
      ApplyKey(SavePredSteps, v + 9, v);
      assert SavePredSteps[v + 9].to == LearningMapInv[v];
    } else {
      assert !IsKey(SavePredSteps, v);
      ApplyNonKey(SavePredSteps, v);
    }
  }

  lemma {:induction false} ApplyAllAppend(a: seq<Assign>, b: seq<Assign>, v: int)
    ensures ApplyAll(a + b, v) == ApplyAll(b, ApplyAll(a, v))
    ensures Writes(a + b, v) == Writes(a, v) + Writes(b, ApplyAll(a, v))
  {
    if |b| > 0 {
      var n := |b| - 1;
      assert (a + b)[..|a + b| - 1] == a + b[..n];
      ApplyAllAppend(a, b[..n], v);
    } else {
      assert a + b == a;
    }
  }

  /**
   * The order matters: with the statements for 1..9 first, a car (class 1)
   * would be written twice, 1 -> 10 -> 44, and saved as "parking".
   */
  lemma OtherOrderRemapsTwice()
    ensures var swapped := SavePredSteps[10..] + SavePredSteps[..10];
      ApplyAll(swapped, 1) == 44 && Writes(swapped, 1) == 2
  {
    var first, second := SavePredSteps[10..], SavePredSteps[..10];
    SavePredNoChain();
    assert NoChain(first) by {
      forall i, j | 0 <= i < j < |first|
        ensures first[j].from != first[i].from && first[j].from != first[i].to
      {
        assert first[i] == SavePredSteps[i + 10] && first[j] == SavePredSteps[j + 10];
      }
    }
    assert NoChain(second) by {
      forall i, j | 0 <= i < j < |second|
        ensures second[j].from != second[i].from && second[j].from != second[i].to
      {
        assert second[i] == SavePredSteps[i] && second[j] == SavePredSteps[j];
      }
    }
    ApplyKey(first, 0, 1);
    ApplyKey(second, 0, 10);
    ApplyAllAppend(first, second, 1);
  }

  /** SemanticKITTI's learning map restricted to the twenty raw ids of the table. */
  const LearningMap: map<int, int> := map[
    0 := 0, 10 := 1, 11 := 2, 15 := 3, 18 := 4, 20 := 5, 30 := 6, 31 := 7, 32 := 8, 40 := 9,
    44 := 10, 48 := 11, 49 := 12, 50 := 13, 51 := 14, 70 := 15, 71 := 16, 72 := 17, 80 := 18, 81 := 19
  ]

  /** The table leaves 0 and every value outside 1..19 alone. */
  lemma RawLabelFixes(v: int)
    requires !(1 <= v <= 19)
    ensures RawLabel(v) == v
  {
  }

  /** Each class 0..19 goes to a raw id, and the learning map brings it back. */
  lemma RawLabelRoundTrip(c: int)
    requires 0 <= c <= 19
    ensures RawLabel(c) in RawIds && RawLabel(c) in LearningMap && LearningMap[RawLabel(c)] == c
  {
  }

  /** Distinct classes get distinct raw ids. */
  lemma RawLabelInjective(a: int, b: int)
    requires 0 <= a <= 19 && 0 <= b <= 19 && a != b
    ensures RawLabel(a) != RawLabel(b)
  {
    RawLabelRoundTrip(a);
    RawLabelRoundTrip(b);
  }

  /**
   * One statement `y_pred[y_pred == a.from] = a.to`, element by element.
   * The ghost `hit` records which elements the mask selected.
   */
  method AssignWhere(y: array<int>, a: Assign) returns (ghost hit: seq<bool>)
    modifies y
    ensures |hit| == y.Length
    ensures forall i :: 0 <= i < y.Length ==>
      y[i] == ApplyAssign(a, old(y[i])) && (hit[i] <==> old(y[i]) == a.from)
  {
    hit := [];
    for i := 0 to y.Length
      invariant |hit| == i
      invariant forall k :: 0 <= k < i ==>
        y[k] == ApplyAssign(a, old(y[k])) && (hit[k] <==> old(y[k]) == a.from)
      invariant forall k :: i <= k < y.Length ==> y[k] == old(y[k])
    {
      hit := hit + [y[i] == a.from];
      if y[i] == a.from {
        y[i] := a.to;
      }
    }
  }

  /**
   * The remap of `save_pred`: the statements run in order on the prediction
   * array. Afterwards every element is the table applied once to its old
   * value, and the ghost `writes` shows that no element was written twice.
   */
  method RemapToRawLabels(y: array<int>) returns (ghost writes: seq<nat>)
    modifies y
    ensures |writes| == y.Length
    ensures forall i :: 0 <= i < y.Length ==> y[i] == RawLabel(old(y[i]))
    ensures forall i :: 0 <= i < y.Length ==>
      writes[i] == (if 1 <= old(y[i]) <= 19 then 1 else 0)
  {
    ghost var y0 := y[..];
    writes := seq(y.Length, _ => 0);
    for s := 0 to |SavePredSteps|
      invariant |writes| == y.Length
      invariant forall i :: 0 <= i < y.Length ==>
        y[i] == ApplyAll(SavePredSteps[..s], y0[i]) && writes[i] == Writes(SavePredSteps[..s], y0[i])
    {
      ghost var hit := AssignWhere(y, SavePredSteps[s]);
      writes := seq(y.Length, i requires 0 <= i < y.Length && |writes| == y.Length && |hit| == y.Length =>
        writes[i] + if hit[i] then 1 else 0);
      assert SavePredSteps[..s + 1][..s] == SavePredSteps[..s];
    }
    assert SavePredSteps[..|SavePredSteps|] == SavePredSteps;
    forall i | 0 <= i < y.Length
      ensures y[i] == RawLabel(y0[i])
      ensures writes[i] == (if 1 <= y0[i] <= 19 then 1 else 0)
    {
      SavePredIsLearningMapInv(y0[i]);
    }
  }
}
