/** Per-tag selection and numbering: the loop of `process_tag`
    (main.py:49-66). The shuffled `photos` list is an input; only its first
    `MAX_IMAGES_BY_TAG` entries are looked at, each is kept or skipped by a
    size rule and an aspect-ratio rule, and every kept photo becomes a job
    numbered from 1 upwards. */
module Selection {
  import opened Wrappers
  import opened Records

  /** `MAX_IMAGES_BY_TAG` (main.py:21). */
  const MaxImagesByTag: nat := 30

  /** `photos[0:MAX_IMAGES_BY_TAG]`: the cut happens before any filtering. */
  function Examined(photos: seq<Photo>): (e: seq<Photo>)
    ensures |e| == if |photos| < MaxImagesByTag then |photos| else MaxImagesByTag
    ensures forall i :: 0 <= i < |e| ==> e[i] == photos[i]
  {
    if |photos| < MaxImagesByTag then photos else photos[..MaxImagesByTag]
  }

  /** Smaller than the canvas in both dimensions (main.py:55). */
  predicate TooSmall(p: Photo) {
    p.width < CanvasWidth && p.height < CanvasHeight
  }

  /** The photo passes the size test and then divides by a zero height
      (main.py:59), which raises `ZeroDivisionError`. */
  predicate RaisesDivision(p: Photo) {
    !TooSmall(p) && p.height == 0
  }

  /** `ratio_screen` (main.py:60), as an exact rational. */
  const ScreenRatio: real := (CanvasWidth as real) / (CanvasHeight as real)

  /** The photo's ratio is not rejected by main.py:62; the comparison is
      exact here, on rationals rather than on doubles. */
  predicate RatioInRange(p: Photo)
    requires p.height != 0
  {
    var ratio := (p.width as real) / (p.height as real);
    !(ratio < ScreenRatio * 0.75 || ratio > ScreenRatio * 1.25)
  }

  /** The photo reaches `tasks.append` (main.py:65). */
  predicate Accepted(p: Photo) {
    !TooSmall(p) && p.height != 0 && RatioInRange(p)
  }

  /** The acceptance rule in integer arithmetic: the canvas ratio is 16/9,
      so the bounds are 4/3 and 20/9, and both are inclusive. */
  predicate IntegerRule(p: Photo) {
    && (p.width >= 1920 || p.height >= 1080)
    && p.height > 0
    && 3 * p.width >= 4 * p.height
    && 9 * p.width <= 20 * p.height
  }

  /** With `r` the ratio `w / h` and positive `h`, `b`: comparing `r` with
      `a / b` is comparing `b * w` with `a * h`. */
  lemma RatioBelow(w: real, h: real, r: real, a: real, b: real)
    requires h > 0.0 && b > 0.0 && r * h == w
    ensures r < a / b <==> b * w < a * h
  {
  }

  /** The upper-bound counterpart of `RatioBelow`. */
  lemma RatioAbove(w: real, h: real, r: real, a: real, b: real)
    requires h > 0.0 && b > 0.0 && r * h == w
    ensures r > a / b <==> b * w > a * h
  {
  }

  /** The source's rational test and the integer cross-multiplied test
      accept exactly the same photos, including a negative height. */
  lemma AcceptedIffIntegerRule(p: Photo)
    ensures Accepted(p) <==> IntegerRule(p)
  {
    assert ScreenRatio * 0.75 == 4.0 / 3.0;
    assert ScreenRatio * 1.25 == 20.0 / 9.0;
    if !TooSmall(p) && p.height != 0 {
      var w := p.width as real;
      var h := p.height as real;
      var ratio := w / h;
      if p.height > 0 {
        assert ratio * h == w;
        RatioBelow(w, h, ratio, 4.0, 3.0);
        RatioAbove(w, h, ratio, 20.0, 9.0);
      } else {
        assert p.width >= 1920;
        assert ratio * h == w;
        assert ratio < 0.0;
      }
    }
  }

  /** A photo record of the given size whose other fields do not matter
      to the selection. */
  function Sized(w: int, h: int): Photo {
    Photo(w, h, "", None, None, None, "", "")
  }

  /** Both ratio bounds are inclusive: 1440x1080 is exactly 0.75 times the
      canvas ratio and 2400x1080 exactly 1.25 times, and one pixel beyond
      either is rejected. A zero height raises only once the size test is
      passed. */
  lemma AcceptanceBoundaries()
    ensures Accepted(Sized(1440, 1080)) && !Accepted(Sized(1439, 1080))
    ensures Accepted(Sized(2400, 1080)) && !Accepted(Sized(2401, 1080))
    ensures RaisesDivision(Sized(1920, 0)) && !RaisesDivision(Sized(1919, 0))
  {
  }

  /** The photos of `ps` that are accepted, in their original order: the
      reference definition of what the loop keeps. */
  function Survivors(ps: seq<Photo>): (s: seq<Photo>)
    ensures |s| <= |ps|
    decreases |ps|
  {
    if |ps| == 0 then []
    else
      var init := Survivors(ps[..|ps| - 1]);
      if Accepted(ps[|ps| - 1]) then init + [ps[|ps| - 1]] else init
  }

  /** A survivor is exactly a photo of the list that is accepted. */
  lemma {:induction false} SurvivorsMembers(ps: seq<Photo>, p: Photo)
    ensures p in Survivors(ps) <==> p in ps && Accepted(p)
    decreases |ps|
  {
    if |ps| > 0 {
      var init := ps[..|ps| - 1];
      SurvivorsMembers(init, p);
      assert ps == init + [ps[|ps| - 1]];
    }
  }

  /** Survivors are exactly the accepted positions of `ps`, in input
      order: `idx` lists, strictly increasing, the position of each
      survivor, and every accepted position is listed. */
  lemma {:induction false} SurvivorsInOrder(ps: seq<Photo>) returns (idx: seq<nat>)
    ensures |idx| == |Survivors(ps)|
    ensures forall k :: 0 <= k < |idx| ==> idx[k] < |ps| && Survivors(ps)[k] == ps[idx[k]]
    ensures forall k, l :: 0 <= k < l < |idx| ==> idx[k] < idx[l]
    ensures forall i :: 0 <= i < |ps| && Accepted(ps[i]) ==> i in idx
    decreases |ps|
  {
    if |ps| == 0 {
      idx := [];
    } else {
      var init := ps[..|ps| - 1];
      idx := SurvivorsInOrder(init);
      assert forall i :: 0 <= i < |init| ==> init[i] == ps[i];
      if Accepted(ps[|ps| - 1]) {
        idx := idx + [|ps| - 1];
      }
    }
  }

  /** The number of accepted photos in `ps`. */
  function CountAccepted(ps: seq<Photo>): nat
    decreases |ps|
  {
    if |ps| == 0 then 0
    else CountAccepted(ps[1..]) + (if Accepted(ps[0]) then 1 else 0)
  }

  lemma {:induction false} CountAcceptedAppend(ps: seq<Photo>, p: Photo)
    ensures CountAccepted(ps + [p]) == CountAccepted(ps) + (if Accepted(p) then 1 else 0)
    decreases |ps|
  {
    if |ps| > 0 {
      assert (ps + [p])[1..] == ps[1..] + [p];
      CountAcceptedAppend(ps[1..], p);
    }
  }

  /** As many photos survive as there are accepted photos, duplicates
      included. */
  lemma {:induction false} SurvivorsCount(ps: seq<Photo>)
    ensures |Survivors(ps)| == CountAccepted(ps)
    decreases |ps|
  {
    if |ps| > 0 {
      var init := ps[..|ps| - 1];
      SurvivorsCount(init);
      CountAcceptedAppend(init, ps[|ps| - 1]);
      assert init + [ps[|ps| - 1]] == ps;
    }
  }

  /** `ZeroDivisionError` at main.py:59, with the position (in the examined
      prefix) of the photo that raised it. */
  datatype SelectError = DivisionByZero(position: nat)

  /** `jobs` are the photos `ps` numbered densely from 1, all under `tag`. */
  predicate Numbered(tag: string, jobs: seq<Job>, ps: seq<Photo>) {
    && |jobs| == |ps|
    && forall k :: 0 <= k < |jobs| ==> jobs[k] == Job(tag, k + 1, ps[k])
  }

  /** The loop of `process_tag` (main.py:52-66). It fails exactly when an
      examined photo divides by zero (the first such photo is reported;
      since the coroutines are only gathered after the loop, no job of the
      tag runs, and the uncaught exception goes on to end the run);
      otherwise the jobs are the survivors of the examined
      prefix, numbered 1, 2, ... with no index spent on a skipped photo. */
  method ProcessTag(tag: string, photos: seq<Photo>) returns (r: Result<seq<Job>, SelectError>)
    ensures r.Failure? <==>
      exists k :: 0 <= k < |Examined(photos)| && RaisesDivision(Examined(photos)[k])
    ensures r.Failure? ==>
      && r.error.position < |Examined(photos)|
      && RaisesDivision(Examined(photos)[r.error.position])
      && forall j :: 0 <= j < r.error.position ==> !RaisesDivision(Examined(photos)[j])
    ensures r.Success? ==> Numbered(tag, r.value, Survivors(Examined(photos)))
  {
    var examined := Examined(photos);
    var jobs: seq<Job> := [];
    var i := 1;
    var k := 0;
    while k < |examined|
      invariant 0 <= k <= |examined|
      invariant forall j :: 0 <= j < k ==> !RaisesDivision(examined[j])
      invariant Numbered(tag, jobs, Survivors(examined[..k]))
      invariant i == |jobs| + 1
    {
      var photo := examined[k];
      assert examined[..k + 1][..k] == examined[..k];
      if photo.width < CanvasWidth && photo.height < CanvasHeight {
        // too small: skipped without consuming an index
      } else if photo.height == 0 {
        return Failure(DivisionByZero(k));
      } else {
        var ratioPhoto := (photo.width as real) / (photo.height as real);
        var ratioScreen := (CanvasWidth as real) / (CanvasHeight as real);
        if ratioPhoto < ratioScreen * 0.75 || ratioPhoto > ratioScreen * 1.25 {
          // ratio too different from the canvas: skipped
        } else {
          jobs := jobs + [Job(tag, i, photo)];
          i := i + 1;
        }
      }
      k := k + 1;
    }
    assert examined[..k] == examined;
    r := Success(jobs);
  }

  /** The set of indices used by a list of jobs. */
  function Indices(jobs: seq<Job>): set<nat> {
    set j | j in jobs :: j.index
  }

  /** The jobs of one tag carry the indices 1..|jobs|, each exactly once:
      no gap and no reuse. */
  lemma NumberedIndicesDense(tag: string, jobs: seq<Job>, ps: seq<Photo>)
    requires Numbered(tag, jobs, ps)
    ensures forall x :: x in Indices(jobs) <==> 1 <= x <= |jobs|
    ensures forall k, l :: 0 <= k < l < |jobs| ==> jobs[k].index != jobs[l].index
  {
    forall x: nat | 1 <= x <= |jobs|
      ensures x in Indices(jobs)
    {
      assert jobs[x - 1] in jobs;
    }
    forall x | x in Indices(jobs)
      ensures 1 <= x <= |jobs|
    {
      var j :| j in jobs && j.index == x;
      var k :| 0 <= k < |jobs| && jobs[k] == j;
    }
  }

  /** Whatever the input, a tag yields one job per accepted photo among
      the first 30 entries and so at most `MAX_IMAGES_BY_TAG` jobs; every
      job's photo is accepted and lies among those 30 entries. */
  lemma JobsBounded(tag: string, photos: seq<Photo>, jobs: seq<Job>)
    requires Numbered(tag, jobs, Survivors(Examined(photos)))
    ensures |jobs| == CountAccepted(Examined(photos))
    ensures |jobs| <= MaxImagesByTag
    ensures forall k :: 0 <= k < |jobs| ==> Accepted(jobs[k].photo)
    ensures forall k :: 0 <= k < |jobs| ==>
      exists i :: 0 <= i < MaxImagesByTag && i < |photos| && photos[i] == jobs[k].photo
  {
    var e := Examined(photos);
    SurvivorsCount(e);
    var idx := SurvivorsInOrder(e);
    forall k | 0 <= k < |jobs|
      ensures Accepted(jobs[k].photo)
      ensures exists i :: 0 <= i < MaxImagesByTag && i < |photos| && photos[i] == jobs[k].photo
    {
      SurvivorsMembers(e, jobs[k].photo);
      assert jobs[k].photo == Survivors(e)[k];
      assert photos[idx[k]] == jobs[k].photo;
    }
  }
}
