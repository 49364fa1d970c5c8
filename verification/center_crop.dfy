/** Pad amounts of `center_crop`: the four amounts handed to the padding
    primitive so that the last two (spatial) axes of a 4-D tensor reach a
    target size, the existing content centred. A negative amount crops. */
module CenterCrop {

  /** Shape of a 4-D tensor [batch, channels, height, width]. */
  datatype Shape4 = Shape4(batch: nat, channels: nat, height: nat, width: nat)

  /** Amounts in the order the padding primitive takes them: the last axis
      first (left, right), then the one before it (top, bottom). */
  datatype Pads = Pads(left: int, right: int, top: int, bottom: int)

  /** Ceiling of a real, through the built-in floor. */
  function Ceil(x: real): (c: int)
    ensures c as real - 1.0 < x <= c as real
  {
    -((-x).Floor)
  }

  /** The half-difference as `center_crop` computes it: the current size minus
      the target, divided by -2, in (exact) real arithmetic. */
  function HalfDiff(current: nat, target: nat): real
  {
    (current as real - target as real) / (-2.0)
  }

  /** The pair (ceil, floor) of the half-difference for one axis: the amount
      added before and the amount added after the content. */
  function AxisAmounts(current: nat, target: nat): (r: (int, int))
    ensures current + r.0 + r.1 == target
    ensures 0 <= r.0 - r.1 <= 1
    ensures r.0 - r.1 == (target - current) % 2
    ensures current == target ==> r == (0, 0)
  {
    var half := HalfDiff(current, target);
    var d := target - current;
    assert half == d as real / 2.0;
    assert half.Floor == d / 2 by {
      var q, m := d / 2, d % 2;
      assert d == 2 * q + m && 0 <= m < 2;
      assert half == q as real + m as real / 2.0;
    }
    (Ceil(half), half.Floor)
  }

  /** The four amounts `center_crop` pads `x` with to reach (height, width). */
  function PadAmounts(x: Shape4, height: nat, width: nat): (p: Pads)
    ensures x.width + p.left + p.right == width
    ensures x.height + p.top + p.bottom == height
    ensures 0 <= p.left - p.right <= 1 && 0 <= p.top - p.bottom <= 1
    ensures x.height == height && x.width == width ==> p == Pads(0, 0, 0, 0)
  {
    var (l, r) := AxisAmounts(x.width, width);
    var (t, b) := AxisAmounts(x.height, height);
    Pads(l, r, t, b)
  }

  /** Shape after padding one axis of size n by `before` and `after`. */
  function PaddedExtent(n: nat, before: int, after: int): int
  {
    n + before + after
  }

  /** Shape of `center_crop(x, height, width)`: batch and channels kept, the
      spatial size exactly the target. */
  function CenterCropShape(x: Shape4, height: nat, width: nat): (y: Shape4)
    ensures y == Shape4(x.batch, x.channels, height, width)
  {
    var p := PadAmounts(x, height, width);
    Shape4(x.batch, x.channels,
           PaddedExtent(x.height, p.top, p.bottom),
           PaddedExtent(x.width, p.left, p.right))
  }

  /** The amounts of one axis are the only split of the size change into two
      integers whose difference is 0 or 1 (the odd unit going first). */
  lemma AxisAmountsUnique(current: nat, target: nat, before: int, after: int)
    requires current + before + after == target
    requires 0 <= before - after <= 1
    ensures (before, after) == AxisAmounts(current, target)
  {
    var r := AxisAmounts(current, target);
    assert before + after == r.0 + r.1;
  }

  /** Padding an axis to a size and then cropping it back: the second call's
      amounts are the first call's negated with their roles swapped, so the
      content returns shifted by (target - current) % 2 positions. */
  lemma {:induction false} CropBackShift(current: nat, target: nat)
    ensures AxisAmounts(target, current) ==
      (-AxisAmounts(current, target).1, -AxisAmounts(current, target).0)
    ensures AxisAmounts(current, target).0 + AxisAmounts(target, current).0
      == (target - current) % 2
  {
    var there := AxisAmounts(current, target);
    var back := AxisAmounts(target, current);
    assert (current - target) % 2 == (target - current) % 2;
    AxisAmountsUnique(target, current, -there.1, -there.0);
  }
}
