/**
 * The reveal latch of `src/components/VideoSection.tsx`: two flags, one per
 * video, that start hidden and are switched on by a reduced-motion
 * preference, a narrow viewport, or the video's title passing the middle of
 * the viewport. Each `check` call is one transition over a snapshot of the
 * window and title positions.
 */
module RevealLatch {
  import opened Options

  /** `video1Revealed` and `video2Revealed`. */
  datatype Reveal = Reveal(video1: bool, video2: bool)

  /** The two videos of the section. */
  datatype Video = First | Second

  /**
   * What `check` reads from the page: the viewport size and, for each title
   * whose ref is attached, the top of its bounding box (`None` while the ref
   * is null).
   */
  datatype Observation = Observation(innerWidth: int, innerHeight: int, title1Top: Option<real>, title2Top: Option<real>)

  /** The width from which the layout is `lg` and reveals are scroll-driven. */
  const LgBreakpoint: int := 1024

  const Hidden := Reveal(false, false)

  function Flag(s: Reveal, v: Video): bool {
    match v
    case First => s.video1
    case Second => s.video2
  }

  function TitleTop(o: Observation, v: Video): Option<real> {
    match v
    case First => o.title1Top
    case Second => o.title2Top
  }

  /** `o` with the title of video `v` at `top` instead (`None`: its ref is detached). */
  function WithTitleTop(o: Observation, v: Video, top: Option<real>): Observation {
    match v
    case First => o.(title1Top := top)
    case Second => o.(title2Top := top)
  }

  /** `halfway`: half the viewport height. */
  function Halfway(o: Observation): real {
    (o.innerHeight as real) * 0.5
  }

  /** The observation reveals video `v`: the viewport is narrow, or the title's top is above the middle. */
  predicate Fires(o: Observation, v: Video) {
    o.innerWidth < LgBreakpoint || (TitleTop(o, v).Some? && TitleTop(o, v).value < Halfway(o))
  }

  /**
   * `check`: a narrow viewport reveals both videos; otherwise each title
   * whose ref is attached and whose video is still hidden is compared
   * against the middle of the viewport.
   */
  function Check(s: Reveal, o: Observation): (r: Reveal)
    ensures forall v :: Flag(r, v) <==> Flag(s, v) || Fires(o, v)
  {
    var isLgUp := o.innerWidth >= LgBreakpoint;
    if !isLgUp then Reveal(true, true)
    else
      var halfway := Halfway(o);
      var video1 :=
        if o.title1Top.Some? && !s.video1 then (if o.title1Top.value < halfway then true else s.video1) else s.video1;
      var video2 :=
        if o.title2Top.Some? && !s.video2 then (if o.title2Top.value < halfway then true else s.video2) else s.video2;
      Reveal(video1, video2)
  }

  /** The effect's own run: reduced motion reveals both at once; otherwise the initial `check()`. */
  function Effect(s: Reveal, reduceMotion: bool, o: Observation): (r: Reveal)
    ensures reduceMotion ==> r == Reveal(true, true)
    ensures !reduceMotion ==> r == Check(s, o)
  {
    if reduceMotion then Reveal(true, true) else Check(s, o)
  }

  /**
   * `check` applied to a series of observations (the initial call, then
   * scroll and resize events): the latch never hides a revealed video.
   */
  function Run(s: Reveal, obs: seq<Observation>): (r: Reveal)
    ensures forall v :: Flag(s, v) ==> Flag(r, v)
    decreases |obs|
  {
    if |obs| == 0 then s else Run(Check(s, obs[0]), obs[1..])
  }

  /**
   * A page visit from hidden videos: with reduced motion both are shown and
   * no listener is installed; otherwise every observation runs `check`.
   */
  function Session(reduceMotion: bool, obs: seq<Observation>): (r: Reveal)
    ensures forall v :: Flag(r, v) <==> reduceMotion || exists i :: 0 <= i < |obs| && Fires(obs[i], v)
  {
    if reduceMotion then Reveal(true, true)
    else
      RunReveals(Hidden, obs, First);
      RunReveals(Hidden, obs, Second);
      Run(Hidden, obs)
  }

  /* ---------------- Lemmas ---------------- */

  /** No transition hides a revealed video. */
  lemma CheckMonotone(s: Reveal, o: Observation, v: Video)
    ensures Flag(s, v) ==> Flag(Check(s, o), v)
  {
  }

  /** A viewport narrower than 1024 reveals both videos, whatever the titles. */
  lemma NarrowRevealsBoth(s: Reveal, o: Observation)
    requires o.innerWidth < LgBreakpoint
    ensures Check(s, o) == Reveal(true, true)
  {
  }

  /** On a wide viewport a hidden video is revealed exactly when its attached title's top is above the middle. */
  lemma WideRevealsByTitle(s: Reveal, o: Observation, v: Video)
    requires o.innerWidth >= LgBreakpoint && !Flag(s, v)
    ensures Flag(Check(s, o), v) <==> TitleTop(o, v).Some? && TitleTop(o, v).value < o.innerHeight as real / 2.0
  {
  }

  /**
   * Each title test touches only its own flag: the first video's flag after
   * `check` does not depend on the second title or flag, and vice versa.
   */
  lemma CheckIndependent(s1: Reveal, s2: Reveal, o1: Observation, o2: Observation, v: Video)
    requires Flag(s1, v) == Flag(s2, v)
    requires o1.innerWidth == o2.innerWidth && o1.innerHeight == o2.innerHeight
    requires TitleTop(o1, v) == TitleTop(o2, v)
    ensures Flag(Check(s1, o1), v) == Flag(Check(s2, o2), v)
  {
  }

  /** A revealed video is not re-tested: its title's position no longer matters. */
  lemma RevealedNotRetested(s: Reveal, o: Observation, v: Video, top: Option<real>)
    requires Flag(s, v)
    ensures Flag(Check(s, o), v) && Check(s, WithTitleTop(o, v, top)) == Check(s, o)
  {
  }

  /** Checking the same observation twice changes nothing the second time. */
  lemma CheckIdempotent(s: Reveal, o: Observation)
    ensures Check(Check(s, o), o) == Check(s, o)
  {
    var r := Check(s, o);
    assert Flag(Check(r, o), First) == Flag(r, First);
    assert Flag(Check(r, o), Second) == Flag(r, Second);
  }

  /** After a series of checks a video is revealed exactly when it was before, or some observation fired for it. */
  lemma {:induction false} RunReveals(s: Reveal, obs: seq<Observation>, v: Video)
    ensures Flag(Run(s, obs), v) <==> Flag(s, v) || exists i :: 0 <= i < |obs| && Fires(obs[i], v)
    decreases |obs|
  {
    if |obs| > 0 {
      RunReveals(Check(s, obs[0]), obs[1..], v);
      if exists i :: 0 <= i < |obs| && Fires(obs[i], v) {
        var i :| 0 <= i < |obs| && Fires(obs[i], v);
        if i > 0 {
          assert obs[1..][i - 1] == obs[i];
        }
      }
      if exists i :: 0 <= i < |obs| - 1 && Fires(obs[1..][i], v) {
        var i :| 0 <= i < |obs| - 1 && Fires(obs[1..][i], v);
        assert obs[i + 1] == obs[1..][i];
      }
    }
  }
}
