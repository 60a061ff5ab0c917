# ImageAndExposure in Dafny

A model of DSO's `ImageAndExposure` (`src/util/ImageAndExposure.h`). This class
carries a stereo pair of irradiance images through the visual-odometry system.
It owns two sample buffers, `imageL` and `imageR`, of `w * h` samples each. It
also holds the width `w`, the height `h`, a `timestamp`, an `exposure_time` and
a stereo `baseline` (baseline times focal length).

- `memory.dfy` (module `Memory`) models the sample type and `memcpy`.
  `CopyPrefix` is the value a buffer has after its first `n` samples are copied
  from another buffer. `Memcpy` is the element-wise copy loop on arrays, proved
  against `CopyPrefix`.
- `image_and_exposure.dfy` (module `Dso`) holds the class `ImageAndExposure`.
  It has the two buffers as `array`s and the scalar fields. `Valid()` is the
  buffer-size invariant: `imageL` and `imageR` each hold `w * h` samples and are
  two separate arrays. `Snapshot()` gives the value an instance holds as a
  `Frame`. The value-level functions `CopyMeta` and `DeepCopy` specify
  `copyMetaTo` and `getDeepCopy`, and the class methods are proved against them.

Names follow Dafny style: `copyMetaTo` is `CopyMetaTo`, `getDeepCopy` is
`GetDeepCopy` and `exposure_time` is `exposureTime`.

Samples, `timestamp`, `exposure_time` and `baseline` are never computed on. They
are modelled as `real` values that are only stored and copied.

`getDeepCopy` builds its copy with the constructor, which never sets `baseline`.
It then copies `exposure_time` and both buffers, but not `baseline`. So the
copy's baseline is whatever the new instance happened to hold. `DeepCopy` takes
that new instance (`blank`) as a parameter, and `GetDeepCopy` returns it as a
ghost out-parameter. The model promises that the copy equals the original in
everything except the baseline. `DeepCopyMayDropBaseline` shows that the two
baselines can differ.

The constructor does not check its dimensions. The model requires `w` and `h`
to be non-negative (see "## Left out") and allows zero-sized images. Nothing
checks that the exposure time is positive, and the model does not assume it.

## Model

| member | source | states |
|---|---|---|
| `Memory.CopyPrefix` | src/util/ImageAndExposure.h:89-90 | copying `n` samples keeps the target's length; its first `n` samples are the source's and the rest keep their old values |
| `Memory.CopyPrefixWhole` | src/util/ImageAndExposure.h:89-90 | copying all `w*h` samples into a buffer of equal length makes it equal to the source buffer |
| `Memory.Memcpy` | src/util/ImageAndExposure.h:89-90 | the in-place copy loop leaves the target array equal to `CopyPrefix` of its old contents; the source array is not modified |
| `Dso.CopyMeta` | src/util/ImageAndExposure.h:77-80 | the target takes the source's exposure time and keeps its buffers, `w`, `h`, `timestamp` and `baseline` |
| `Dso.CopyMetaIdempotent` | src/util/ImageAndExposure.h:77-80 | copying the metadata twice has the same effect as once; copying onto itself is a no-op; the target stays well-formed |
| `Dso.DeepCopy` | src/util/ImageAndExposure.h:85-92 | the copy is well-formed and equals the original in both buffers, `w`, `h`, `timestamp` and exposure time; its baseline is the new instance's, not the original's |
| `Dso.DeepCopyMayDropBaseline` | src/util/ImageAndExposure.h:87-90 | for every well-formed original, some new instance gives a copy whose baseline differs from the original's |
| `Dso.CopyMetaAfterDeepCopy` | src/util/ImageAndExposure.h:77-92 | copying the metadata from the original onto its deep copy changes nothing |
| `Dso.ImageAndExposure.Snapshot` | src/util/ImageAndExposure.h:46-51 | the value of a valid instance is well-formed: both buffers hold `w*h` samples |
| `Dso.ImageAndExposure.constructor` | src/util/ImageAndExposure.h:57-62 | two fresh, distinct buffers of `w*h` samples; `w`, `h` and `timestamp` as given, with `timestamp` defaulting to 0; exposure time 1; contents and baseline unspecified |
| `Dso.ImageAndExposure.CopyMetaTo` | src/util/ImageAndExposure.h:77-80 | may write only `other`'s exposure time and sets it to this instance's; `other`'s buffers and their contents, `w`, `h`, `timestamp` and `baseline` are unchanged; this instance is unchanged, even when `other` is this instance |
| `Dso.ImageAndExposure.GetDeepCopy` | src/util/ImageAndExposure.h:85-92 | returns a fresh valid instance with fresh buffers whose value is `DeepCopy` of this one; this instance is unchanged |
| `Dso.WriteToDeepCopy` | src/util/ImageAndExposure.h:83-91 | after a deep copy, a write into sample `i` of the copy's left buffer leaves the copy equal to the original except for that sample and the baseline, and leaves the original unchanged |

## Left out

- The destructor and its `delete[]` (src/util/ImageAndExposure.h:68-72). Dafny is garbage-collected, so "freed exactly once" has no meaning here.
- `EIGEN_MAKE_ALIGNED_OPERATOR_NEW` (src/util/ImageAndExposure.h:45). This is only a memory-alignment detail.
- Floating-point semantics of the samples, `exposure_time`, `timestamp` and `baseline`. Nothing computes on them, so they are `real` values that are only stored and copied.
- The "irradiance between 0 and 256" range (src/util/ImageAndExposure.h:46-47). It is only a comment and the code never enforces it, so the model has no such invariant.
- The row-major layout with stride `w`. No operation here indexes by row and column.
- Overflow of `w*h` in `int`, and allocation failure (`std::bad_alloc`). The code handles neither. The model uses mathematical integers.
- Dso.ImageAndExposure.constructor: requires `w >= 0` and `h >= 0`, so it excludes negative dimensions whose product is not negative, such as `(0, -5)` (a buffer of 0 samples) or `(-2, -3)` (6 samples), which the code accepts; the buffer-size invariant `Valid()` keeps both dimensions non-negative.
- The byte count `w*h*sizeof(float)` in `memcpy`. It is modelled as copying `w*h` elements.
- Concurrent access. The class has no synchronisation, and the model is single-threaded.
