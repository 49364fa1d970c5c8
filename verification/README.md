# OSVOS layer helpers in Dafny

This project models the numeric helpers that the OSVOS one-shot video
segmentation network uses for training and for initialising its layers. All
of them live in `layers/osvos_layers.py`:

- `center_crop` (module `CenterCrop`). It computes the four amounts handed
  to the padding primitive so that the spatial axes of a 4-D tensor
  `[batch, channels, height, width]` reach a target size with the content
  centred. A negative amount crops. The model keeps `center_crop`'s formula:
  `(current - target) / -2`, then the ceiling for the amount before the
  content and the floor for the amount after it.
- `upsample_filt` (module `Upsample`). It builds the `size x size` bilinear
  interpolation kernel. Each entry is the product of two 1-D triangle
  weights `1 - |i - center| / factor`.
- `interp_surgery` (module `Surgery`). It checks that the weight tensor
  `[m, k, h, w]` of a transposed convolution has `m == k` and `h == w`. It
  then writes the bilinear kernel into every diagonal block `[i, i]` and
  leaves the other blocks as they were.
- `class_balanced_cross_entropy_loss` (module `BalancedLoss`). The model
  covers its whole skeleton:
  - the pixels labelled 255 are masked out;
  - the positive count (sum of labels) and the negative count (sum of
    one minus each label) are formed;
  - the two weighted sums of per-pixel terms are combined with the weights
    `num_neg / total` and `num_pos / total`;
  - the result is normalised per pixel, per image, or not at all.

  Tensors are flat sequences in row-major order. The per-pixel
  cross-entropy term is a function parameter `bce`.

The module `Results` holds the `Result` datatype used for the error paths.

All arithmetic is exact, over `real` and `int`. The Python code computes in
float32 and float64. Every statement in this project is about the exact
values that those computations approximate.

Two consequences of the loss code are stated and proved because they are
easy to get wrong when reading it:

- If every retained label is 1, then `num_labels_neg` is 0, so the weight
  on `loss_pos` is 0, and `loss_neg` is 0 as well. The loss is therefore
  exactly 0, not the plain unweighted cross-entropy. The same holds with the
  roles swapped when every label is 0. `BalancedLoss.SingleClassLossVanishes`
  proves this.
- For labels `[1, 0, 1, 255]` the code counts two positives and one
  negative, because it sums the retained labels `[1, 0, 1]`.
  `BalancedLoss.ExampleMask` and `BalancedLoss.ExampleCounts` prove these
  counts and the resulting weights.

## Model

| member | source | states |
|---|---|---|
| CenterCrop.AxisAmounts | layers/osvos_layers.py:55-60 | The ceiling and floor of `(current - target) / -2` add up to the size change. The amount before the content exceeds the amount after by `(target - current) % 2`, which is 0 or 1. Equal sizes give no padding. |
| CenterCrop.PadAmounts | layers/osvos_layers.py:55-61 | The amounts are passed in the order (left, right, top, bottom): the width axis first, then the height axis. Padding by them makes the width exactly `width` and the height exactly `height`. Each axis is split evenly, with any odd unit going before the content. A tensor that already has the target size gets zero padding. |
| CenterCrop.CenterCropShape | layers/osvos_layers.py:54-61 | The padded tensor keeps its batch and channel sizes, and its spatial size is exactly the requested (height, width). |
| CenterCrop.AxisAmountsUnique | layers/osvos_layers.py:55-60 | The split into amounts is the only integer split of the size change whose before-minus-after difference is 0 or 1. The choice in `center_crop` is therefore the unique centred one. |
| CenterCrop.CropBackShift | layers/osvos_layers.py:55-60 | Cropping back to the original size uses the first call's amounts, negated and swapped. The content comes back shifted by `(target - current) % 2` positions. |
| Upsample.UpsampleFilt | layers/osvos_layers.py:64-72 | By definition, entry `[i][j]` is the product of the triangle weights of taps `i` and `j` (`Outer(Taps(size))`). The contract states that the kernel is `size x size` and symmetric under transposition. It is unchanged by reflecting the rows. Every entry lies in (0, 1]. For odd sizes the centre entry is exactly 1. Size 2 gives the all-0.25 kernel. |
| Upsample.CenterIsMidpoint | layers/osvos_layers.py:65-69 | The centre chosen for odd sizes (`factor - 1`) and for even sizes (`factor - 0.5`) is in both cases the midpoint `(size - 1) / 2` of the taps. |
| Upsample.TapTotal | layers/osvos_layers.py:64-72 | The 1-D triangle weights of a non-empty kernel sum to `factor`. |
| Upsample.KernelTotal | layers/osvos_layers.py:64-72 | The kernel, which is the outer product of the 1-D weights, sums to `factor * factor`. |
| Surgery.InterpSurgery | layers/osvos_layers.py:77-90 | `m != k` raises the channel error and `h != w` raises the square-filter error, checked in that order, with the weights untouched in both cases. Otherwise every diagonal block `[i, i]` is the bilinear kernel of size `h` and every off-diagonal block is unchanged. The shape is kept, and the returned tensor is the updated weight tensor. |
| Surgery.WithDiagonalIdempotent | layers/osvos_layers.py:87-88 | Writing the diagonal blocks a second time changes nothing, so repeating the surgery is harmless. |
| BalancedLoss.Mask | layers/osvos_layers.py:29-31 | Masking keeps one score and one label per pixel whose label is not 255. No kept label is 255. Every label value other than 255 is kept exactly as often as it occurs. Where each pair lands is stated by `MaskPosition`. |
| BalancedLoss.MaskPosition | layers/osvos_layers.py:29-31 | The retained pixel at position `i` lands at index `RetainedCount(labels[..i])` of both masked tensors, the number of retained pixels before it. The masked score there is `output[i]` and the masked label is `labels[i]`, so scores and labels stay paired. |
| BalancedLoss.MaskPositions | layers/osvos_layers.py:29-31 | The same placement, for every retained pixel at once. |
| BalancedLoss.RetainedOrder | layers/osvos_layers.py:29-31 | A retained pixel's index in the masked tensors is smaller than the index of any later retained pixel. Together with `MaskPosition`, the masked tensors list the retained pixels in their original order. |
| BalancedLoss.NumPos | layers/osvos_layers.py:33 | For 0/1 labels, `num_labels_pos` lies between 0 and the number of labels. |
| BalancedLoss.NumNeg | layers/osvos_layers.py:34 | For 0/1 labels, `num_labels_neg` lies between 0 and the number of labels. |
| BalancedLoss.PixelCounts | layers/osvos_layers.py:33-34 | For 0/1 labels, `num_labels_pos` is the number of labels equal to 1 and `num_labels_neg` the number equal to 0. |
| BalancedLoss.CountsCoverLabels | layers/osvos_layers.py:33-35 | `num_labels_pos + num_labels_neg` equals the number of retained pixels, whatever the label values. |
| BalancedLoss.LossSplit | layers/osvos_layers.py:41-42 | Whatever the label values, `loss_pos + loss_neg` is minus the plain sum of the per-pixel terms: the label weight and the one-minus-label weight share out each term. |
| BalancedLoss.AllPositive | layers/osvos_layers.py:34-42 | If every label is 1, `num_labels_neg` and `loss_neg` are both 0. |
| BalancedLoss.AllNegative | layers/osvos_layers.py:33-41 | If every label is 0, `num_labels_pos` and `loss_pos` are both 0. |
| BalancedLoss.SingleClassBalancedZero | layers/osvos_layers.py:44 | `final_loss` before normalisation (`Balanced`) is 0 when all labels are 1 or all are 0. |
| BalancedLoss.BalanceWeightsShare | layers/osvos_layers.py:44 | The two balance weights sum to 1. Each weight times the pixel count is the count of the opposite class. For 0/1 labels both weights lie in [0, 1]. |
| BalancedLoss.ClassBalancedLoss | layers/osvos_layers.py:19-51 | Both flags default to true, as in the Python signature. The three failures are stated as if-and-only-if conditions. A mask that does not fit the scores is an error. Retained pixels that cannot be viewed as `[batch, -1]` (including a batch of 0) are an error. If no pixel is retained the result is undefined (0/0). Otherwise the loss is the class-balanced sum over the retained pixels divided by `Divisor`: the retained count under `size_average`, else the batch size under `batch_average`, else 1. |
| BalancedLoss.NormalisationsAgree | layers/osvos_layers.py:46-49 | The flags never decide whether the loss is defined. The normalised loss is the unnormalised loss divided by a positive divisor: the retained count for the per-pixel mean, the batch size for the per-image mean, and 1 otherwise. |
| BalancedLoss.IgnoredPixelIsInert | layers/osvos_layers.py:29-31 | Inserting a pixel labelled 255 anywhere, with any score, leaves the loss unchanged under every flag setting, error results included. |
| BalancedLoss.SingleClassLossVanishes | layers/osvos_layers.py:41-49 | If every retained label is 1, or every retained label is 0, then any successful result is exactly 0. |
| BalancedLoss.ExampleMask | layers/osvos_layers.py:29-31 | Scores `[2, -2, 0.5, -0.5]` with labels `[1, 0, 1, 255]` keep the first three scores and labels. |
| BalancedLoss.ExampleCounts | layers/osvos_layers.py:33-44 | The retained labels `[1, 0, 1]` give 2 positives and 1 negative, so the positive sum is weighted 1/3 and the negative sum 2/3. |

## Left out

- `logit` and `sigmoid_np` (lines 11-16): numpy helpers outside the loss. The demo block calls `logit` (line 100); nothing in the file calls `sigmoid_np`. Their logarithm and exponential are not part of the loss's structure.
- The per-pixel cross-entropy expression (lines 37-39) is the parameter `bce`. Its logarithm and exponential of floats have no exact counterpart, and every property above holds for any such term.
- Floating-point rounding. This covers the float32 `FloatTensor` holding the half-difference in `center_crop`, the float64 kernel copied into a float32 weight, and float32 accumulation in the sums. The model computes exact values.
- The data movement done by `F.pad` and the copy into the weight tensor. Only the amounts, the shapes and the written blocks are modelled. `F.pad`'s own rejection of a non-positive resulting size is not modelled.
- Tensor broadcasting and the `.view` reshaping. Only their failure conditions are kept: a mask whose length differs from the scores, and a retained count that `batch` does not divide or a batch of 0.
- Autograd (`Variable`), CUDA placement and the in-place `.data` mutation of the layer. The surgery is a function from the old weight tensor to the new one.
- The `print` messages that accompany the two `ValueError`s of `interp_surgery`. Only the errors themselves are modelled.
- The `__main__` demo (lines 93-108), which reads images from disk.
- BalancedLoss.ClassBalancedLoss: the NaN that 0/0 produces when no pixel is retained is represented as the error `Undefined`, because exact reals have no NaN.
