/** Run-level facts about `beautiful_slideshow` (main.py:23-32): the fixed
    tag list, and the consequence the concurrent fan-out relies on, namely
    that no two compositing jobs of a run write the same file. */
module Slideshow {
  import opened Wrappers
  import opened Records
  import opened Selection
  import opened Compositor

  /** `TAGS` (main.py:16). */
  const Tags: seq<string> := ["graffiti", "streetart", "nature", "city", "travel", "art"]

  /** The configured tags are pairwise different. */
  lemma TagsDistinct()
    ensures forall a, b :: 0 <= a < b < |Tags| ==> Tags[a] != Tags[b]
  {
  }

  /** The jobs of a whole run: `jobsByTag[t]` are the jobs `process_tag`
      created for `Tags[t]`, numbered from 1. */
  predicate RunJobs(jobsByTag: seq<seq<Job>>) {
    && |jobsByTag| == |Tags|
    && forall t, k :: 0 <= t < |jobsByTag| && 0 <= k < |jobsByTag[t]| ==>
         jobsByTag[t][k].tag == Tags[t] && jobsByTag[t][k].index == k + 1
  }

  function OutputFile(job: Job): string {
    Filename(job.tag, job.index)
  }

  /** The jobs `ProcessTag` returns for each configured tag, over any
      search results, form the jobs of a run. */
  lemma NumberedTagsFormRun(jobsByTag: seq<seq<Job>>, photosByTag: seq<seq<Photo>>)
    requires |jobsByTag| == |Tags| && |photosByTag| == |Tags|
    requires forall t :: 0 <= t < |Tags| ==>
      Numbered(Tags[t], jobsByTag[t], Survivors(Examined(photosByTag[t])))
    ensures RunJobs(jobsByTag)
  {
  }

  /** Every job of a run writes its own file, across tags as well as within
      one tag, so the concurrent writes never collide. */
  lemma RunFilenamesDistinct(jobsByTag: seq<seq<Job>>)
    requires RunJobs(jobsByTag)
    ensures forall t1, k1, t2, k2 ::
      (0 <= t1 < |jobsByTag| && 0 <= k1 < |jobsByTag[t1]| &&
       0 <= t2 < |jobsByTag| && 0 <= k2 < |jobsByTag[t2]| &&
       (t1 != t2 || k1 != k2)) ==>
      OutputFile(jobsByTag[t1][k1]) != OutputFile(jobsByTag[t2][k2])
  {
    TagsDistinct();
    forall t1, k1, t2, k2 |
      0 <= t1 < |jobsByTag| && 0 <= k1 < |jobsByTag[t1]| &&
      0 <= t2 < |jobsByTag| && 0 <= k2 < |jobsByTag[t2]| &&
      (t1 != t2 || k1 != k2)
      ensures OutputFile(jobsByTag[t1][k1]) != OutputFile(jobsByTag[t2][k2])
    {
      var j1 := jobsByTag[t1][k1];
      var j2 := jobsByTag[t2][k2];
      FilenameDistinct(j1.tag, j1.index, j2.tag, j2.index);
    }
  }

  /** A search result of five photos for `nature`: one too small, one at the
      canvas size, one too wide, one exactly at the 0.75 ratio bound and one
      a pixel narrower. */
  const NaturePhotos: seq<Photo> := [
    Photo(1000, 500, "small", None, None, None, "photo/1", "img/1"),
    Photo(1920, 1080, "canvas", None, None, None, "photo/2", "img/2"),
    Photo(3000, 1000, "wide", None, None, None, "photo/3", "img/3"),
    Photo(1440, 1080, "narrowest", None, None, None, "photo/4", "img/4"),
    Photo(1439, 1080, "too narrow", None, None, None, "photo/5", "img/5")
  ]

  /** Exactly two of the five pass, and they are written to `nature_1.jpg`
      and `nature_2.jpg` in input order. */
  lemma NatureScenario(jobs: seq<Job>)
    requires Numbered("nature", jobs, Survivors(Examined(NaturePhotos)))
    ensures |jobs| == 2
    ensures jobs[0].photo == NaturePhotos[1] && jobs[1].photo == NaturePhotos[3]
    ensures OutputFile(jobs[0]) == "output/nature_1.jpg"
    ensures OutputFile(jobs[1]) == "output/nature_2.jpg"
  {
    var ps := NaturePhotos;
    assert Examined(ps) == ps;
    AcceptedIffIntegerRule(ps[1]);
    AcceptedIffIntegerRule(ps[2]);
    AcceptedIffIntegerRule(ps[3]);
    AcceptedIffIntegerRule(ps[4]);
    assert ps[..1] == [ps[0]];
    assert ps[..2][..1] == ps[..1];
    assert ps[..3][..2] == ps[..2];
    assert ps[..4][..3] == ps[..3];
    assert ps[..5][..4] == ps[..4];
    assert ps[..5] == ps;
    assert Survivors(ps[..1]) == [];
    assert Survivors(ps[..2]) == [ps[1]];
    assert Survivors(ps[..3]) == [ps[1]];
    assert Survivors(ps[..4]) == [ps[1], ps[3]];
    assert Survivors(ps) == [ps[1], ps[3]];
  }
}
