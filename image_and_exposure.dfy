/** The `ImageAndExposure` container of DSO: a stereo pair of irradiance buffers
    with their width, height, timestamp, exposure time and stereo baseline. */
module Dso {
  import opened Memory

  /** The value an `ImageAndExposure` holds at one moment: the contents of its two
      buffers and its five scalar fields. */
  datatype Frame = Frame(
    left: seq<Sample>,
    right: seq<Sample>,
    w: int,
    h: int,
    timestamp: real,
    exposureTime: real,
    baseline: real)

  /** Both buffers hold exactly `w * h` samples. */
  ghost predicate WellFormed(f: Frame)
  {
    0 <= f.w && 0 <= f.h && |f.left| == f.w * f.h && |f.right| == f.w * f.h
  }

  /** `f` is what the constructor leaves behind for `(w, h, timestamp)`: the
      dimensions and timestamp as given, an exposure time of 1, and two buffers of
      `w * h` samples whose contents, like the baseline, are left unspecified. */
  ghost predicate IsNewFrame(f: Frame, w: int, h: int, timestamp: real)
  {
    f.w == w && f.h == h && f.timestamp == timestamp && f.exposureTime == 1.0
    && |f.left| == w * h && |f.right| == w * h
  }

  /** `src.copyMetaTo(dst)`, the specification of `ImageAndExposure.CopyMetaTo`: the target takes over the exposure time of the source
      and keeps everything else, its buffers and baseline included. */
  function CopyMeta(src: Frame, dst: Frame): (r: Frame)
    ensures r.exposureTime == src.exposureTime
    ensures r.left == dst.left && r.right == dst.right
    ensures r.w == dst.w && r.h == dst.h
    ensures r.timestamp == dst.timestamp && r.baseline == dst.baseline
  {
    dst.(exposureTime := src.exposureTime)
  }

  /** Copying the metadata a second time, or from an instance onto itself, changes
      nothing, and a well-formed target stays well-formed. */
  lemma CopyMetaIdempotent(src: Frame, dst: Frame)
    ensures CopyMeta(src, CopyMeta(src, dst)) == CopyMeta(src, dst)
    ensures CopyMeta(src, src) == src
    ensures WellFormed(dst) ==> WellFormed(CopyMeta(src, dst))
  {
  }

  /** `f.getDeepCopy()`, the specification of `ImageAndExposure.GetDeepCopy`, written as the program builds it: a new instance `blank`
      for `f`'s dimensions and timestamp, the exposure time copied onto it with
      `copyMetaTo`'s assignment, then both buffers filled by `memcpy` of `w * h`
      samples. The result equals `f` in everything except the baseline, which is
      never copied: the copy keeps whatever baseline the new instance had. */
  function DeepCopy(f: Frame, blank: Frame): (c: Frame)
    requires WellFormed(f)
    requires IsNewFrame(blank, f.w, f.h, f.timestamp)
    ensures WellFormed(c)
    ensures c == f.(baseline := blank.baseline)
  {
    var n := f.w * f.h;
    CopyPrefixWhole(blank.left, f.left);
    CopyPrefixWhole(blank.right, f.right);
    var m := blank.(exposureTime := f.exposureTime);
    m.(left := CopyPrefix(m.left, f.left, n), right := CopyPrefix(m.right, f.right, n))
  }

  /** The deep copy promises nothing about the baseline: for every well-formed
      frame some new instance makes the copy's baseline differ from the original's. */
  lemma DeepCopyMayDropBaseline(f: Frame)
    requires WellFormed(f)
    ensures exists blank :: IsNewFrame(blank, f.w, f.h, f.timestamp)
                            && DeepCopy(f, blank).baseline != f.baseline
  {
    var blank := Frame(f.left, f.right, f.w, f.h, f.timestamp, 1.0, f.baseline + 1.0);
    assert DeepCopy(f, blank).baseline != f.baseline;
  }

  /** A deep copy already carries the original's exposure time, so copying the
      metadata onto it afterwards leaves it as it is. */
  lemma CopyMetaAfterDeepCopy(f: Frame, blank: Frame)
    requires WellFormed(f)
    requires IsNewFrame(blank, f.w, f.h, f.timestamp)
    ensures CopyMeta(f, DeepCopy(f, blank)) == DeepCopy(f, blank)
  {
  }

  class ImageAndExposure {
    var imageL: array<Sample>   // left irradiance image, row-major, w columns and h rows
    var imageR: array<Sample>   // right irradiance image, same layout
    var w: int
    var h: int
    var timestamp: real
    var exposureTime: real
    var baseline: real          // baseline times focal length

    /** Both buffers hold exactly `w * h` samples and are two separate arrays. */
    ghost predicate Valid()
      reads this
    {
      0 <= w && 0 <= h && imageL.Length == w * h && imageR.Length == w * h
      && imageL != imageR
    }

    /** The value this instance holds in the current state. */
    ghost function Snapshot(): (f: Frame)
      reads this, imageL, imageR
      ensures Valid() ==> WellFormed(f)
    {
      Frame(imageL[..], imageR[..], w, h, timestamp, exposureTime, baseline)
    }

    /** Allocates two separate buffers of `w * h` samples and sets the exposure time
        to 1; the buffer contents and the baseline are left unspecified. */
    constructor (w: int, h: int, timestamp: real := 0.0)
      requires 0 <= w && 0 <= h
      ensures Valid()
      ensures fresh(imageL) && fresh(imageR)
      ensures IsNewFrame(Snapshot(), w, h, timestamp)
    {
      this.w, this.h, this.timestamp := w, h, timestamp;
      imageL := new Sample[w * h];
      imageR := new Sample[w * h];
      exposureTime := 1.0;
    }

    /** Copies this instance's exposure time into `other` and nothing else. */
    method CopyMetaTo(other: ImageAndExposure)
      modifies other`exposureTime
      ensures other.Snapshot() == CopyMeta(old(Snapshot()), old(other.Snapshot()))
      ensures Snapshot() == old(Snapshot())
      ensures other.imageL == old(other.imageL) && other.imageR == old(other.imageR)
      ensures old(other.Valid()) ==> other.Valid()
    {
      other.exposureTime := exposureTime;
    }

    /** A new instance with buffers of its own whose contents, dimensions,
        timestamp and exposure time equal this one's. `blank` is the new instance
        as its constructor left it; its baseline is the copy's baseline. */
    method GetDeepCopy() returns (img: ImageAndExposure, ghost blank: Frame)
      requires Valid()
      ensures fresh(img) && fresh(img.imageL) && fresh(img.imageR)
      ensures img.Valid()
      ensures IsNewFrame(blank, w, h, timestamp)
      ensures img.Snapshot() == DeepCopy(Snapshot(), blank)
      ensures Snapshot() == old(Snapshot())
    {
      img := new ImageAndExposure(w, h, timestamp);
      blank := img.Snapshot();
      img.exposureTime := exposureTime;
      Memcpy(img.imageL, imageL, w * h);
      Memcpy(img.imageR, imageR, w * h);
    }
  }

  /** A write into a deep copy's buffer leaves the original untouched, since the
      copy's storage is disjoint from the original's. */
  method WriteToDeepCopy(src: ImageAndExposure, i: nat, v: Sample)
      returns (copy: ImageAndExposure)
    requires src.Valid() && i < src.w * src.h
    ensures fresh(copy) && copy.Valid() && copy.imageL.Length == src.imageL.Length
    ensures copy.imageL[i] == v
    ensures forall j :: 0 <= j < copy.imageL.Length && j != i ==> copy.imageL[j] == src.imageL[j]
    ensures copy.Snapshot() == src.Snapshot().(left := src.imageL[..][i := v], baseline := copy.baseline)
    ensures src.Snapshot() == old(src.Snapshot())
  {
    ghost var blank;
    copy, blank := src.GetDeepCopy();
    copy.imageL[i] := v;
  }
}
