/** `interp_surgery`: writes the bilinear kernel into the diagonal channel
    blocks of a deconvolution weight tensor [m, k, h, w]. */
module Surgery {
  import opened Results
  import Upsample

  /** A square (or rectangular) filter block, row by row. */
  type Block = seq<seq<real>>

  /** A 4-D weight tensor with its dimensions [m, k, h, w] kept explicitly,
      so that the shape survives when an outer dimension is zero. */
  datatype Tensor4 = Tensor4(m: nat, k: nat, h: nat, w: nat, data: seq<seq<Block>>)
  {
    predicate Valid()
    {
      && |data| == m
      && (forall a :: 0 <= a < m ==> |data[a]| == k)
      && (forall a, b :: 0 <= a < m && 0 <= b < k ==> BlockShape(data[a][b], h, w))
    }
  }

  predicate BlockShape(blk: Block, h: nat, w: nat)
  {
    |blk| == h && forall r :: 0 <= r < h ==> |blk[r]| == w
  }

  /** The two errors the surgery raises before touching the weights. */
  datatype SurgeryError = ChannelMismatch | NonSquareFilter

  /** Reference definition of a successful surgery: every diagonal block
      [i, i] replaced by `filt`, every other block as it was. */
  function WithDiagonal(t: Tensor4, filt: Block): (u: Tensor4)
    requires t.Valid()
  {
    t.(data := seq(t.m, a requires 0 <= a < t.m =>
                 seq(t.k, b requires 0 <= b < t.k =>
                   if a == b then filt else t.data[a][b])))
  }

  /** `interp_surgery(lay)`. `after` is the weight tensor once the call has
      returned or raised; `r` is what it returns or the error it raises. */
  method InterpSurgery(t: Tensor4) returns (after: Tensor4, r: Result<Tensor4, SurgeryError>)
    requires t.Valid()
    ensures t.m != t.k ==> r == Err(ChannelMismatch) && after == t
    ensures t.m == t.k && t.h != t.w ==> r == Err(NonSquareFilter) && after == t
    ensures t.m == t.k && t.h == t.w ==> r == Ok(after)
    ensures after.Valid()
    ensures (after.m, after.k, after.h, after.w) == (t.m, t.k, t.h, t.w)
    ensures r.Ok? ==> forall i :: 0 <= i < t.m ==> after.data[i][i] == Upsample.UpsampleFilt(t.h)
    ensures forall a, b :: 0 <= a < t.m && 0 <= b < t.k && a != b ==>
      after.data[a][b] == t.data[a][b]
    ensures r.Ok? ==> after == WithDiagonal(t, Upsample.UpsampleFilt(t.h))
  {
    if t.m != t.k {
      return t, Err(ChannelMismatch);
    }
    if t.h != t.w {
      return t, Err(NonSquareFilter);
    }
    var filt := Upsample.UpsampleFilt(t.h);
    var data := t.data;
    var i := 0;
    while i < t.m
      invariant 0 <= i <= t.m
      invariant |data| == t.m
      invariant forall a :: 0 <= a < t.m ==> |data[a]| == t.k
      invariant forall a, b :: 0 <= a < t.m && 0 <= b < t.k ==>
        data[a][b] == if a == b && a < i then filt else t.data[a][b]
    {
      data := data[i := data[i][i := filt]];
      i := i + 1;
    }
    after := t.(data := data);
    ghost var expected := WithDiagonal(t, filt);
    assert forall a :: 0 <= a < t.m ==> data[a] == expected.data[a];
    assert after == expected;
    r := Ok(after);
  }

  /** The surgery is idempotent: writing the same filter twice leaves the
      tensor as writing it once. */
  lemma WithDiagonalIdempotent(t: Tensor4, filt: Block)
    requires t.Valid() && BlockShape(filt, t.h, t.w)
    ensures WithDiagonal(t, filt).Valid()
    ensures WithDiagonal(WithDiagonal(t, filt), filt) == WithDiagonal(t, filt)
  {
    var once := WithDiagonal(t, filt);
    var twice := WithDiagonal(once, filt);
    assert forall a :: 0 <= a < t.m ==> twice.data[a] == once.data[a];
  }
}
