/** The exact skeleton of `class_balanced_cross_entropy_loss`: masking of
    ignored pixels, the class counts, the class-balanced combination of the
    two weighted sums, and the final normalisation. Tensors are flat
    sequences in row-major order; the per-element cross-entropy term is the
    parameter `bce`, applied to a (score, label) pair. */
module BalancedLoss {
  import opened Results

  /** Label value marking a pixel that takes no part in the loss. */
  const Ignore: real := 255.0

  /** Failures of the computation: the mask does not fit the score tensor,
      the retained pixels cannot be viewed as [batch, -1] (both raised by
      the tensor library), or no pixel is retained, so that `num_total` is
      zero and the loss is the floating-point 0/0 (not a number). */
  datatype LossError = ShapeMismatch | ViewMismatch | Undefined

  /** Number of positions whose label is not the ignore value. */
  function RetainedCount(labels: seq<real>): (n: nat)
    ensures n <= |labels|
  {
    if |labels| == 0 then 0
    else (if labels[0] == Ignore then 0 else 1) + RetainedCount(labels[1..])
  }

  /** `output[mask]` and `label[mask]`: the scores and labels at retained
      positions, in their original order. */
  function Mask(output: seq<real>, labels: seq<real>): (r: (seq<real>, seq<real>))
    requires |output| == |labels|
    ensures |r.0| == |r.1| == RetainedCount(labels)
    ensures forall i :: 0 <= i < |r.1| ==> r.1[i] != Ignore && r.1[i] in labels
    ensures forall v :: v != Ignore ==> multiset(r.1)[v] == multiset(labels)[v]
  {
    if |labels| == 0 then ([], [])
    else
      var rest := Mask(output[1..], labels[1..]);
      assert labels == [labels[0]] + labels[1..];
      if labels[0] == Ignore then rest
      else ([output[0]] + rest.0, [labels[0]] + rest.1)
  }

  /** Labels that are all 0 or 1, the case the loss is designed for. */
  predicate Binary(labels: seq<real>)
  {
    forall i :: 0 <= i < |labels| ==> labels[i] == 0.0 || labels[i] == 1.0
  }

  /** Number of labels equal to `v`. */
  function Occurrences(labels: seq<real>, v: real): nat
  {
    if |labels| == 0 then 0
    else (if labels[0] == v then 1 else 0) + Occurrences(labels[1..], v)
  }

  /** `num_labels_pos`: the sum of the labels; for 0/1 labels it lies
      between 0 and the number of labels. */
  function NumPos(labels: seq<real>): (n: real)
    ensures Binary(labels) ==> 0.0 <= n <= |labels| as real
  {
    if |labels| == 0 then 0.0 else labels[0] + NumPos(labels[1..])
  }

  /** `num_labels_neg`: the sum of one minus each label; for 0/1 labels it
      lies between 0 and the number of labels. */
  function NumNeg(labels: seq<real>): (n: real)
    ensures Binary(labels) ==> 0.0 <= n <= |labels| as real
  {
    if |labels| == 0 then 0.0 else (1.0 - labels[0]) + NumNeg(labels[1..])
  }

  /** `loss_pos`: minus the label-weighted sum of the per-element terms. A
      pixel labelled 0 adds nothing to it (`AllNegative`). */
  function LossPos(output: seq<real>, labels: seq<real>, bce: (real, real) -> real): real
    requires |output| == |labels|
  {
    if |labels| == 0 then 0.0
    else -(labels[0] * bce(output[0], labels[0])) + LossPos(output[1..], labels[1..], bce)
  }

  /** `loss_neg`: minus the (1 - label)-weighted sum of the per-element
      terms. A pixel labelled 1 adds nothing to it (`AllPositive`). */
  function LossNeg(output: seq<real>, labels: seq<real>, bce: (real, real) -> real): real
    requires |output| == |labels|
  {
    if |labels| == 0 then 0.0
    else -((1.0 - labels[0]) * bce(output[0], labels[0])) + LossNeg(output[1..], labels[1..], bce)
  }

  /** The sum of the per-element terms, unweighted. */
  function TermSum(output: seq<real>, labels: seq<real>, bce: (real, real) -> real): real
    requires |output| == |labels|
  {
    if |labels| == 0 then 0.0
    else bce(output[0], labels[0]) + TermSum(output[1..], labels[1..], bce)
  }

  lemma WeightSplit(l: real, b: real)
    ensures -(l * b) + -((1.0 - l) * b) == -b
  {
  }

  /** The two weighted sums share out every per-element term between them,
      whatever the label values: together they are minus the plain sum. */
  lemma {:induction false} LossSplit(output: seq<real>, labels: seq<real>, bce: (real, real) -> real)
    requires |output| == |labels|
    ensures LossPos(output, labels, bce) + LossNeg(output, labels, bce) == -TermSum(output, labels, bce)
  {
    if |labels| > 0 {
      LossSplit(output[1..], labels[1..], bce);
      WeightSplit(labels[0], bce(output[0], labels[0]));
    }
  }

  /** Whatever the labels values, the two counts add up to the number of
      labels, so `num_total` is the retained element count. */
  lemma {:induction false} CountsCoverLabels(labels: seq<real>)
    ensures NumPos(labels) + NumNeg(labels) == |labels| as real
  {
    if |labels| > 0 {
      CountsCoverLabels(labels[1..]);
    }
  }

  /** For 0/1 labels the two counts are the numbers of positive and of
      negative pixels. */
  lemma {:induction false} PixelCounts(labels: seq<real>)
    requires Binary(labels)
    ensures NumPos(labels) == Occurrences(labels, 1.0) as real
    ensures NumNeg(labels) == Occurrences(labels, 0.0) as real
  {
    if |labels| > 0 {
      PixelCounts(labels[1..]);
    }
  }

  lemma ShareArith(p: real, q: real, total: real, w: (real, real))
    requires total > 0.0 && p + q == total
    requires w == (q / (p + q), p / (p + q))
    ensures w.0 + w.1 == 1.0
    ensures w.0 * total == q && w.1 * total == p
    ensures 0.0 <= p && 0.0 <= q ==> 0.0 <= w.0 <= 1.0 && 0.0 <= w.1 <= 1.0
  {
  }

  /** The two balance weights `num_labels_neg / num_total` (on the positive
      sum) and `num_labels_pos / num_total` (on the negative sum). */
  function BalanceWeights(labels: seq<real>): (real, real)
    requires |labels| > 0
  {
    CountsCoverLabels(labels);
    var total := NumPos(labels) + NumNeg(labels);
    (NumNeg(labels) / total, NumPos(labels) / total)
  }

  /** The balance weights sum to 1; each, times the pixel count, is the
      count of the opposite class; for 0/1 labels both lie in [0, 1]. */
  lemma {:induction false} BalanceWeightsShare(labels: seq<real>)
    requires |labels| > 0
    ensures BalanceWeights(labels).0 + BalanceWeights(labels).1 == 1.0
    ensures BalanceWeights(labels).0 * |labels| as real == NumNeg(labels)
    ensures BalanceWeights(labels).1 * |labels| as real == NumPos(labels)
    ensures Binary(labels) ==>
      0.0 <= BalanceWeights(labels).0 <= 1.0 && 0.0 <= BalanceWeights(labels).1 <= 1.0
  {
    CountsCoverLabels(labels);
    ShareArith(NumPos(labels), NumNeg(labels), |labels| as real, BalanceWeights(labels));
  }

  /** `final_loss` before normalisation, over the retained elements. */
  function Balanced(output: seq<real>, labels: seq<real>, bce: (real, real) -> real): real
    requires |output| == |labels| && |labels| > 0
  {
    var w := BalanceWeights(labels);
    w.0 * LossPos(output, labels, bce) + w.1 * LossNeg(output, labels, bce)
  }

  /** `final_loss` before normalisation, computed from the full tensors: the
      retained pixels number `RetainedCount(labels)`, which is both
      `num_total` and the element count of the [batch, -1] view. */
  function MaskedBalanced(output: seq<real>, labels: seq<real>, bce: (real, real) -> real): real
    requires |output| == |labels| && RetainedCount(labels) > 0
  {
    var kept := Mask(output, labels);
    Balanced(kept.0, kept.1, bce)
  }

  /** `class_balanced_cross_entropy_loss(output, label, size_average,
      batch_average)` for score and label tensors of `batch` rows. */
  function ClassBalancedLoss(output: seq<real>, labels: seq<real>, batch: nat,
                             bce: (real, real) -> real,
                             sizeAverage: bool := true, batchAverage: bool := true)
    : (r: Result<real, LossError>)
    ensures |output| != |labels| ==> r == Err(ShapeMismatch)
    ensures |output| == |labels| ==>
      (r == Err(ViewMismatch) <==> batch == 0 || RetainedCount(labels) % batch != 0)
    ensures r == Err(Undefined) <==>
      |output| == |labels| && batch > 0 && RetainedCount(labels) == 0
    ensures r.Ok? <==> |output| == |labels| && batch > 0 && RetainedCount(labels) > 0
                       && RetainedCount(labels) % batch == 0
    ensures r.Ok? ==>
      r.value == MaskedBalanced(output, labels, bce) / Divisor(labels, batch, sizeAverage, batchAverage) as real
  {
    if |output| != |labels| then Err(ShapeMismatch)
    else if batch == 0 || RetainedCount(labels) % batch != 0 then Err(ViewMismatch)
    else if RetainedCount(labels) == 0 then Err(Undefined)
    else
      var finalLoss := MaskedBalanced(output, labels, bce);
      if sizeAverage then Ok(finalLoss / RetainedCount(labels) as real)
      else if batchAverage then Ok(finalLoss / batch as real)
      else Ok(finalLoss)
  }

  /** What the final loss is divided by: the element count of the masked
      label tensor (`np.prod(label.size())`, the retained pixels), else its
      first dimension (the batch size), else nothing. */
  function Divisor(labels: seq<real>, batch: nat, sizeAverage: bool, batchAverage: bool): nat
  {
    if sizeAverage then RetainedCount(labels) else if batchAverage then batch else 1
  }

  /** The normalisations differ only by a positive factor: the normalised
      loss is the unnormalised loss divided by a positive divisor (the
      retained count for the per-pixel mean, the batch size for the
      per-image mean, 1 otherwise). */
  lemma {:induction false} NormalisationsAgree(output: seq<real>, labels: seq<real>, batch: nat,
                            sizeAverage: bool, batchAverage: bool, bce: (real, real) -> real)
    requires ClassBalancedLoss(output, labels, batch, bce, false, false).Ok?
    ensures ClassBalancedLoss(output, labels, batch, bce, sizeAverage, batchAverage).Ok?
    ensures Divisor(labels, batch, sizeAverage, batchAverage) > 0
    ensures ClassBalancedLoss(output, labels, batch, bce, sizeAverage, batchAverage).value
         == ClassBalancedLoss(output, labels, batch, bce, false, false).value
            / Divisor(labels, batch, sizeAverage, batchAverage) as real
  {
    NormalisedValue(output, labels, batch, bce, sizeAverage, batchAverage);
    NormalisedValue(output, labels, batch, bce, false, false);
    DivOne(MaskedBalanced(output, labels, bce));
  }

  lemma DivOne(x: real)
    ensures x / 1 as real == x
  {
  }

  /** Whether the loss is defined does not depend on the flags; when it is,
      it is the masked balanced loss over the flags' divisor. */
  lemma {:induction false} NormalisedValue(output: seq<real>, labels: seq<real>, batch: nat,
                                           bce: (real, real) -> real, sizeAverage: bool, batchAverage: bool)
    requires ClassBalancedLoss(output, labels, batch, bce, false, false).Ok?
    ensures Divisor(labels, batch, sizeAverage, batchAverage) > 0
    ensures ClassBalancedLoss(output, labels, batch, bce, sizeAverage, batchAverage)
         == Ok(MaskedBalanced(output, labels, bce) / Divisor(labels, batch, sizeAverage, batchAverage) as real)
  {
  }

  // ---------------------------------------------------------------------
  // Masking keeps every retained pair, in place and in order.

  /** The retained pixel at position `i` lands at index
      `RetainedCount(labels[..i])` of both masked tensors, that is after the
      retained pixels before it, with its own score and label. */
  lemma {:induction false} MaskPosition(output: seq<real>, labels: seq<real>, i: nat)
    requires |output| == |labels| && i < |labels| && labels[i] != Ignore
    ensures RetainedCount(labels[..i]) < |Mask(output, labels).0|
    ensures Mask(output, labels).0[RetainedCount(labels[..i])] == output[i]
    ensures Mask(output, labels).1[RetainedCount(labels[..i])] == labels[i]
  {
    if i == 0 {
      assert labels[..i] == [];
    } else {
      var k := RetainedCount(labels[1..][..i - 1]);
      MaskPosition(output[1..], labels[1..], i - 1);
      assert labels[..i][1..] == labels[1..][..i - 1];
      assert RetainedCount(labels[..i]) == (if labels[0] == Ignore then 0 else 1) + k;
      var r, rest := Mask(output, labels), Mask(output[1..], labels[1..]);
      if labels[0] == Ignore {
        assert r == rest;
      } else {
        assert r.0 == [output[0]] + rest.0 && r.1 == [labels[0]] + rest.1;
      }
    }
  }

  /** `MaskPosition` for every retained pixel at once. */
  lemma MaskPositions(output: seq<real>, labels: seq<real>)
    requires |output| == |labels|
    ensures forall i :: 0 <= i < |labels| && labels[i] != Ignore ==>
      RetainedCount(labels[..i]) < |Mask(output, labels).0|
      && Mask(output, labels).0[RetainedCount(labels[..i])] == output[i]
      && Mask(output, labels).1[RetainedCount(labels[..i])] == labels[i]
  {
    forall i | 0 <= i < |labels| && labels[i] != Ignore
      ensures RetainedCount(labels[..i]) < |Mask(output, labels).0|
      ensures Mask(output, labels).0[RetainedCount(labels[..i])] == output[i]
      ensures Mask(output, labels).1[RetainedCount(labels[..i])] == labels[i]
    {
      MaskPosition(output, labels, i);
    }
  }

  /** Retained pixels keep their relative order: a retained pixel has fewer
      retained pixels before it than any later pixel. */
  lemma RetainedOrder(labels: seq<real>, i: nat, j: nat)
    requires i < j <= |labels| && labels[i] != Ignore
    ensures RetainedCount(labels[..i]) < RetainedCount(labels[..j])
  {
    assert labels[..j] == labels[..i] + labels[i..j];
    RetainedCountAppend(labels[..i], labels[i..j]);
  }

  // ---------------------------------------------------------------------
  // Masking: an ignored pixel has no influence on anything.

  lemma {:induction false} RetainedCountAppend(l1: seq<real>, l2: seq<real>)
    ensures RetainedCount(l1 + l2) == RetainedCount(l1) + RetainedCount(l2)
  {
    if |l1| == 0 {
      assert l1 + l2 == l2;
    } else {
      assert (l1 + l2)[0] == l1[0];
      assert (l1 + l2)[1..] == l1[1..] + l2;
      RetainedCountAppend(l1[1..], l2);
    }
  }

  lemma {:induction false} MaskAppend(o1: seq<real>, o2: seq<real>, l1: seq<real>, l2: seq<real>)
    requires |o1| == |l1| && |o2| == |l2|
    ensures Mask(o1 + o2, l1 + l2)
         == (Mask(o1, l1).0 + Mask(o2, l2).0, Mask(o1, l1).1 + Mask(o2, l2).1)
  {
    if |l1| == 0 {
      assert o1 + o2 == o2 && l1 + l2 == l2;
      assert Mask(o1, l1) == ([], []);
      assert [] + Mask(o2, l2).0 == Mask(o2, l2).0 && [] + Mask(o2, l2).1 == Mask(o2, l2).1;
    } else {
      assert (o1 + o2)[0] == o1[0] && (l1 + l2)[0] == l1[0];
      assert (o1 + o2)[1..] == o1[1..] + o2;
      assert (l1 + l2)[1..] == l1[1..] + l2;
      MaskAppend(o1[1..], o2, l1[1..], l2);
      var r1, r2 := Mask(o1[1..], l1[1..]), Mask(o2, l2);
      assert Mask(o1 + o2, l1 + l2) ==
        if l1[0] == Ignore then (r1.0 + r2.0, r1.1 + r2.1)
        else ([o1[0]] + (r1.0 + r2.0), [l1[0]] + (r1.1 + r2.1));
      assert [o1[0]] + (r1.0 + r2.0) == ([o1[0]] + r1.0) + r2.0;
      assert [l1[0]] + (r1.1 + r2.1) == ([l1[0]] + r1.1) + r2.1;
    }
  }

  /** Inserting a pixel labelled with the ignore value, whatever its score,
      anywhere in the tensors leaves the loss exactly as it was. */
  lemma {:induction false} IgnoredPixelIsInert(o1: seq<real>, o2: seq<real>, l1: seq<real>, l2: seq<real>,
                            score: real, batch: nat, sizeAverage: bool, batchAverage: bool,
                            bce: (real, real) -> real)
    requires |o1| == |l1| && |o2| == |l2|
    ensures RetainedCount(l1 + [Ignore] + l2) == RetainedCount(l1 + l2)
    ensures ClassBalancedLoss(o1 + [score] + o2, l1 + [Ignore] + l2, batch, bce, sizeAverage, batchAverage)
         == ClassBalancedLoss(o1 + o2, l1 + l2, batch, bce, sizeAverage, batchAverage)
  {
    RetainedCountAppend(l1 + [Ignore], l2);
    RetainedCountAppend(l1, [Ignore]);
    RetainedCountAppend(l1, l2);
    MaskAppend(o1 + [score], o2, l1 + [Ignore], l2);
    MaskAppend(o1, [score], l1, [Ignore]);
    MaskAppend(o1, o2, l1, l2);
    assert Mask([score], [Ignore]) == ([], []);
    assert Mask(o1, l1).0 + [] == Mask(o1, l1).0;
    assert Mask(o1, l1).1 + [] == Mask(o1, l1).1;
  }

  // ---------------------------------------------------------------------
  // A single class among the retained pixels: the balanced loss vanishes.

  lemma {:induction false} AllPositive(output: seq<real>, labels: seq<real>, bce: (real, real) -> real)
    requires |output| == |labels|
    requires forall i :: 0 <= i < |labels| ==> labels[i] == 1.0
    ensures NumNeg(labels) == 0.0 && LossNeg(output, labels, bce) == 0.0
  {
    if |labels| > 0 {
      AllPositive(output[1..], labels[1..], bce);
    }
  }

  lemma {:induction false} AllNegative(output: seq<real>, labels: seq<real>, bce: (real, real) -> real)
    requires |output| == |labels|
    requires forall i :: 0 <= i < |labels| ==> labels[i] == 0.0
    ensures NumPos(labels) == 0.0 && LossPos(output, labels, bce) == 0.0
  {
    if |labels| > 0 {
      AllNegative(output[1..], labels[1..], bce);
    }
  }

  lemma {:induction false} SingleClassBalancedZero(output: seq<real>, labels: seq<real>,
                                bce: (real, real) -> real, cls: real)
    requires |output| == |labels| && |labels| > 0
    requires cls == 0.0 || cls == 1.0
    requires forall i :: 0 <= i < |labels| ==> labels[i] == cls
    ensures Balanced(output, labels, bce) == 0.0
  {
    var w := BalanceWeights(labels);
    var n := |labels| as real;
    BalanceWeightsShare(labels);
    if cls == 1.0 {
      AllPositive(output, labels, bce);
      assert w.0 * n == 0.0;
      assert w.0 == 0.0;
    } else {
      AllNegative(output, labels, bce);
      assert w.1 * n == 0.0;
      assert w.1 == 0.0;
    }
  }

  /** When every retained label is 1, or every retained label is 0, each
      term's weight or sum is zero and the loss is 0 under every
      normalisation. */
  lemma {:induction false} SingleClassLossVanishes(output: seq<real>, labels: seq<real>, batch: nat,
                                sizeAverage: bool, batchAverage: bool,
                                bce: (real, real) -> real, cls: real)
    requires cls == 0.0 || cls == 1.0
    requires forall i :: 0 <= i < |labels| ==> labels[i] == cls || labels[i] == Ignore
    ensures ClassBalancedLoss(output, labels, batch, bce, sizeAverage, batchAverage).Ok? ==>
      ClassBalancedLoss(output, labels, batch, bce, sizeAverage, batchAverage).value == 0.0
  {
    if |output| == |labels| && RetainedCount(labels) > 0 {
      var kept := Mask(output, labels);
      assert forall i :: 0 <= i < |kept.1| ==> kept.1[i] == cls;
      SingleClassBalancedZero(kept.0, kept.1, bce, cls);
      assert MaskedBalanced(output, labels, bce) == 0.0;
      var r := ClassBalancedLoss(output, labels, batch, bce, sizeAverage, batchAverage);
      if r.Ok? {
        if sizeAverage {
          assert r.value == 0.0 / RetainedCount(labels) as real;
        } else if batchAverage {
          assert r.value == 0.0 / batch as real;
        }
      }
    }
  }

  /** A worked example: scores [2, -2, 0.5, -0.5] with labels [1, 0, 1, 255]
      keep the first three pixels. */
  lemma ExampleMask()
    ensures Mask([2.0, -2.0, 0.5, -0.5], [1.0, 0.0, 1.0, Ignore]) == ([2.0, -2.0, 0.5], [1.0, 0.0, 1.0])
  {
    var o, l := [2.0, -2.0, 0.5, -0.5], [1.0, 0.0, 1.0, Ignore];
    assert o[1..] == [-2.0, 0.5, -0.5] && l[1..] == [0.0, 1.0, Ignore];
    assert o[2..] == [0.5, -0.5] && l[2..] == [1.0, Ignore];
    assert o[3..] == [-0.5] && l[3..] == [Ignore];
    assert o[1..][1..] == o[2..] && l[1..][1..] == l[2..];
    assert o[2..][1..] == o[3..] && l[2..][1..] == l[3..];
    assert o[2..][0] == 0.5 && l[2..][0] == 1.0 && o[1..][0] == -2.0 && l[1..][0] == 0.0;
    assert Mask(o[3..], l[3..]) == ([], []);
    assert [0.5] + [] == [0.5] && [1.0] + [] == [1.0];
    assert Mask(o[2..], l[2..]) == ([0.5], [1.0]);
    assert [-2.0] + [0.5] == [-2.0, 0.5] && [0.0] + [1.0] == [0.0, 1.0];
    assert Mask(o[1..], l[1..]) == ([-2.0, 0.5], [0.0, 1.0]);
    assert [2.0] + [-2.0, 0.5] == [2.0, -2.0, 0.5] && [1.0] + [0.0, 1.0] == [1.0, 0.0, 1.0];
  }

  /** The retained labels of the worked example, [1, 0, 1], hold two
      positives and one negative, so the positive sum is weighted 1/3 and
      the negative sum 2/3. */
  lemma ExampleCounts()
    ensures NumPos([1.0, 0.0, 1.0]) == 2.0 && NumNeg([1.0, 0.0, 1.0]) == 1.0
    ensures BalanceWeights([1.0, 0.0, 1.0]) == (1.0 / 3.0, 2.0 / 3.0)
  {
    var k := [1.0, 0.0, 1.0];
    assert k[1..] == [0.0, 1.0] && k[1..][1..] == [1.0];
    BalanceWeightsShare(k);
  }
}
