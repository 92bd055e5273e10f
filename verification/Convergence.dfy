/** The convergence detector: what recent error contexts say about the progress of a story. */
module Convergence {
  import opened Options

  datatype ErrorContext = ErrorContext(fingerprint: string)

  datatype Verdict = Progressing | Oscillating | Stuck | Diverging

  datatype Action = Continue | EnrichContext | Replan | Escalate

  /** The parameters of the detector; the source takes any integers. */
  datatype Settings = Settings(windowSize: int, stuckThreshold: int)

  const DEFAULTS := Settings(4, 3)

  function Recommended(v: Verdict): Action {
    match v
    case Progressing => Continue
    case Oscillating => EnrichContext
    case Stuck => Replan
    case Diverging => Escalate
  }

  /** The error contexts of the iterations of a story, oldest first. */
  type Errors = seq<Option<ErrorContext>>

  /** Where the slice `[-n:]` of a list of this length starts: a negative `n` counts from the front. */
  function SliceStart(length: nat, n: int): (start: nat)
    ensures start <= length
    ensures 0 < n <= length ==> length - start == n
  {
    if n > length then 0
    else if n > 0 then length - n
    else if -n > length then length
    else -n
  }

  function FromEnd(errors: Errors, n: int): Errors {
    errors[SliceStart(|errors|, n)..]
  }

  function CountErrors(errors: Errors): nat {
    if errors == [] then 0
    else CountErrors(errors[..|errors| - 1]) + if errors[|errors| - 1].Some? then 1 else 0
  }

  // ---- the verdict without counters and loops -----------------------------------------------------

  /** Two iterations of the window failed with the same, non-empty fingerprint. */
  predicate Repeats(window: Errors) {
    exists i, j :: 0 <= i < j < |window| && window[i].Some? && window[j] == window[i]
      && window[i].value.fingerprint != ""
  }

  predicate LastAllFailed(window: Errors, n: int) {
    |window| >= n && forall e :: e in FromEnd(window, n) ==> e.Some?
  }

  predicate MoreErrorsLately(window: Errors) {
    var mid := |window| / 2;
    |window| >= 2 && CountErrors(window[mid..]) > CountErrors(window[..mid])
  }

  function Classify(cfg: Settings, errors: Errors): Verdict {
    var window := FromEnd(errors, cfg.windowSize);
    if errors == [] then Progressing
    else if Repeats(window) then Oscillating
    else if LastAllFailed(window, cfg.stuckThreshold) then Stuck
    else if MoreErrorsLately(window) then Diverging
    else Progressing
  }

  lemma {:induction false} NoErrorsCount(errors: Errors)
    requires forall i :: 0 <= i < |errors| ==> errors[i].None?
    ensures CountErrors(errors) == 0
  {
    if errors == [] {
    } else {
      NoErrorsCount(errors[..|errors| - 1]);
    }
  }

  predicate NoErrors(errors: Errors) {
    forall i :: 0 <= i < |errors| ==> errors[i].None?
  }

  /** Under these settings a story none of whose iterations carries an error context counts as progressing. */
  predicate Sensible(cfg: Settings) {
    cfg.stuckThreshold >= 1 || (cfg.stuckThreshold == 0 && cfg.windowSize >= 0)
  }

  lemma NoErrorsProgress(cfg: Settings, errors: Errors)
    requires NoErrors(errors) && Sensible(cfg)
    ensures Classify(cfg, errors) == Progressing
  {
    var window := FromEnd(errors, cfg.windowSize);
    if |window| >= 2 {
      NoErrorsCount(window[|window| / 2..]);
    }
    if errors != [] && |window| >= cfg.stuckThreshold {
      var recent := FromEnd(window, cfg.stuckThreshold);
      assert recent != [] && recent[0].None? && recent[0] in recent;
    }
  }

  /** Exactly the settings under which no such story is ever reported, the defaults among them. */
  lemma NoErrorsProgressIff(cfg: Settings)
    ensures (forall errors :: NoErrors(errors) ==> Classify(cfg, errors) == Progressing) <==> Sensible(cfg)
    ensures Sensible(DEFAULTS)
  {
    if Sensible(cfg) {
      forall errors | NoErrors(errors)
        ensures Classify(cfg, errors) == Progressing
      {
        NoErrorsProgress(cfg, errors);
      }
    } else {
      var once: Errors := [None];
      assert NoErrors(once);
      assert FromEnd(FromEnd(once, cfg.windowSize), cfg.stuckThreshold) == [];
      assert !Repeats(FromEnd(once, cfg.windowSize));
    }
  }

  /** The iterations between two positions that failed. */
  ghost function FailedIn(errors: Errors, lo: nat, hi: nat): set<nat>
    requires hi <= |errors|
  {
    set i: nat | lo <= i < hi && errors[i].Some?
  }

  lemma {:induction false} CountIsCardinality(errors: Errors, lo: nat, hi: nat)
    requires lo <= hi <= |errors|
    ensures CountErrors(errors[lo..hi]) == |FailedIn(errors, lo, hi)|
    decreases hi
  {
    if lo == hi {
      assert FailedIn(errors, lo, hi) == {};
    } else {
      CountIsCardinality(errors, lo, hi - 1);
      assert errors[lo..hi][..|errors[lo..hi]| - 1] == errors[lo..hi - 1];
      assert FailedIn(errors, lo, hi) ==
             FailedIn(errors, lo, hi - 1) + if errors[hi - 1].Some? then {hi - 1} else {};
    }
  }

  /** Two iterations from position `lo` on failed with the same, non-empty fingerprint. */
  ghost predicate RepeatsFrom(errors: Errors, lo: nat) {
    exists i, j :: lo <= i < j < |errors| && errors[i].Some? && errors[j] == errors[i]
                   && errors[i].value.fingerprint != ""
  }

  /**
    The verdict in terms of positions, for a window and a threshold of at least one: a repeated
    error in the window comes first, then a run of failures at its end, then more failures in its
    second half than in its first.
  */
  lemma VerdictInPositions(cfg: Settings, errors: Errors)
    requires cfg.windowSize >= 1 && cfg.stuckThreshold >= 1
    ensures var n, w, t := |errors|, cfg.windowSize, cfg.stuckThreshold;
      var lo := if n <= w then 0 else n - w;
      var mid := lo + (n - lo) / 2;
      Classify(cfg, errors) ==
      if RepeatsFrom(errors, lo) then Oscillating
      else if t <= n - lo && forall i :: n - t <= i < n ==> errors[i].Some? then Stuck
      else if n - lo >= 2 && |FailedIn(errors, lo, mid)| < |FailedIn(errors, mid, n)| then Diverging
      else Progressing
  {
    var n, w, t := |errors|, cfg.windowSize, cfg.stuckThreshold;
    var lo := if n <= w then 0 else n - w;
    assert FromEnd(errors, w) == errors[lo..];
    hide FromEnd, Repeats, RepeatsFrom, LastAllFailed, MoreErrorsLately, FailedIn;
    WindowRepeats(errors, lo);
    WindowStuck(errors, lo, t);
    WindowWorse(errors, lo);
  }

  lemma WindowStuck(errors: Errors, lo: nat, t: int)
    requires lo <= |errors| && t >= 1
    ensures LastAllFailed(errors[lo..], t) <==>
            t <= |errors| - lo && forall i :: |errors| - t <= i < |errors| ==> errors[i].Some?
  {
    var n := |errors|;
    if t <= n - lo {
      assert FromEnd(errors[lo..], t) == errors[n - t..];
      SliceElements(errors, n - t);
    }
  }

  lemma WindowWorse(errors: Errors, lo: nat)
    requires lo <= |errors|
    ensures var n, mid := |errors|, lo + (|errors| - lo) / 2;
      MoreErrorsLately(errors[lo..]) <==> n - lo >= 2 && |FailedIn(errors, lo, mid)| < |FailedIn(errors, mid, n)|
  {
    var n, mid := |errors|, lo + (|errors| - lo) / 2;
    var window := errors[lo..];
    assert window[..|window| / 2] == errors[lo..mid] && window[|window| / 2..] == errors[mid..n];
    CountIsCardinality(errors, lo, mid);
    CountIsCardinality(errors, mid, n);
  }

  lemma WindowRepeats(errors: Errors, lo: nat)
    requires lo <= |errors|
    ensures Repeats(errors[lo..]) <==> RepeatsFrom(errors, lo)
  {
    var window := errors[lo..];
    if Repeats(window) {
      var i, j :| 0 <= i < j < |window| && window[i].Some? && window[j] == window[i]
                  && window[i].value.fingerprint != "";
      assert errors[lo + i] == window[i] && errors[lo + j] == window[j];
    }
    if RepeatsFrom(errors, lo) {
      var i, j :| lo <= i < j < |errors| && errors[i].Some? && errors[j] == errors[i]
                  && errors[i].value.fingerprint != "";
      assert window[i - lo] == errors[i] && window[j - lo] == errors[j];
    }
  }

  // ---- the detector ---------------------------------------------------------------------------------

  function Occurrences(fingerprints: seq<string>, f: string): nat {
    if fingerprints == [] then 0
    else Occurrences(fingerprints[..|fingerprints| - 1], f) + if fingerprints[|fingerprints| - 1] == f then 1 else 0
  }

  /** The non-empty fingerprints of the failed iterations, in order. */
  function Fingerprints(window: Errors): seq<string> {
    if window == [] then []
    else
      var last := window[|window| - 1];
      Fingerprints(window[..|window| - 1]) +
      if last.Some? && last.value.fingerprint != "" then [last.value.fingerprint] else []
  }

  lemma {:induction false} OccurrencesCount(window: Errors, f: string)
    requires f != ""
    ensures Occurrences(Fingerprints(window), f) >= 1 <==> Some(ErrorContext(f)) in window
    ensures Occurrences(Fingerprints(window), f) >= 2 <==>
            exists i, j :: 0 <= i < j < |window| && window[i] == window[j] == Some(ErrorContext(f))
  {
    if window == [] {
    } else {
      var front, last := window[..|window| - 1], window[|window| - 1];
      var fs := Fingerprints(front);
      OccurrencesCount(front, f);
      assert window == front + [last];
      if last.Some? && last.value.fingerprint != "" {
        assert (fs + [last.value.fingerprint])[..|fs|] == fs;
      } else {
        assert fs + [] == fs;
      }
      if last == Some(ErrorContext(f)) && last in front {
        var i :| 0 <= i < |front| && front[i] == last;
        assert window[i] == window[|front|];
      }
      if i, j :| 0 <= i < j < |front| && front[i] == front[j] == Some(ErrorContext(f)) {
        assert window[i] == window[j];
      }
    }
  }

  lemma {:induction false} FingerprintsNonEmpty(window: Errors)
    ensures "" !in Fingerprints(window)
  {
    if window == [] {
    } else {
      FingerprintsNonEmpty(window[..|window| - 1]);
    }
  }

  lemma {:induction false} OccursIn(fs: seq<string>, f: string)
    ensures Occurrences(fs, f) >= 1 <==> f in fs
  {
    if fs == [] {
    } else {
      OccursIn(fs[..|fs| - 1], f);
      assert fs == fs[..|fs| - 1] + [fs[|fs| - 1]];
    }
  }

  method CheckOscillation(fingerprints: seq<string>) returns (found: bool)
    ensures found <==> exists f :: Occurrences(fingerprints, f) >= 2
  {
    if |fingerprints| < 2 {
      forall f
        ensures Occurrences(fingerprints, f) < 2
      {
        assert |fingerprints| == 1 ==> fingerprints[..0] == [];
      }
      return false;
    }
    var counts: map<string, nat> := map[];
    for i := 0 to |fingerprints|
      invariant forall f :: (if f in counts then counts[f] else 0) == Occurrences(fingerprints[..i], f)
    {
      var f := fingerprints[i];
      assert fingerprints[..i + 1][..i] == fingerprints[..i];
      counts := counts[f := (if f in counts then counts[f] else 0) + 1];
    }
    assert fingerprints[..|fingerprints|] == fingerprints;
    found := exists f :: f in counts && counts[f] >= 2;
  }

  method Check(cfg: Settings, errors: Errors) returns (verdict: Verdict)
    ensures verdict == Classify(cfg, errors)
  {
    if errors == [] {
      return Progressing;
    }
    var window := FromEnd(errors, cfg.windowSize);
    var fingerprints: seq<string> := [];
    var errorCounts: seq<bool> := [];
    for i := 0 to |window|
      invariant fingerprints == Fingerprints(window[..i])
      invariant |errorCounts| == i && forall k :: 0 <= k < i ==> errorCounts[k] == window[k].Some?
    {
      assert window[..i + 1][..i] == window[..i];
      if window[i].Some? {
        if window[i].value.fingerprint != "" {
          fingerprints := fingerprints + [window[i].value.fingerprint];
        }
        errorCounts := errorCounts + [true];
      } else {
        errorCounts := errorCounts + [false];
      }
    }
    assert window[..|window|] == window;
    var oscillating := CheckOscillation(fingerprints);
    RepeatsIffCounted(window);
    if oscillating {
      return Oscillating;
    }
    if CheckStuck(cfg.stuckThreshold, window, errorCounts) {
      return Stuck;
    }
    if CheckDiverging(window, errorCounts) {
      return Diverging;
    }
    return Progressing;
  }

  lemma RepeatsIffCounted(window: Errors)
    ensures Repeats(window) <==> exists f :: Occurrences(Fingerprints(window), f) >= 2
  {
    if Repeats(window) {
      var i, j :| 0 <= i < j < |window| && window[i].Some? && window[j] == window[i]
               && window[i].value.fingerprint != "";
      assert window[i] == Some(ErrorContext(window[i].value.fingerprint));
      OccurrencesCount(window, window[i].value.fingerprint);
    }
    if f :| Occurrences(Fingerprints(window), f) >= 2 {
      FingerprintsNonEmpty(window);
      OccursIn(Fingerprints(window), f);
      OccurrencesCount(window, f);
    }
  }

  lemma SliceElements(window: Errors, start: nat)
    requires start <= |window|
    ensures (forall e :: e in window[start..] ==> e.Some?) <==> forall k :: start <= k < |window| ==> window[k].Some?
  {
    if forall e :: e in window[start..] ==> e.Some? {
      forall k | start <= k < |window|
        ensures window[k].Some?
      {
        assert window[start..][k - start] == window[k];
      }
    }
  }

  /** `_check_stuck` on the list of error flags. */
  predicate CheckStuck(threshold: int, ghost window: Errors, counts: seq<bool>): (stuck: bool)
    requires |counts| == |window| && forall k :: 0 <= k < |window| ==> counts[k] == window[k].Some?
    ensures stuck <==> LastAllFailed(window, threshold)
  {
    var start := SliceStart(|counts|, threshold);
    SliceElements(window, start);
    |counts| >= threshold && forall k :: start <= k < |counts| ==> counts[k]
  }

  function Sum(counts: seq<bool>): nat {
    if counts == [] then 0 else Sum(counts[..|counts| - 1]) + if counts[|counts| - 1] then 1 else 0
  }

  lemma {:induction false} SumCounts(window: Errors, counts: seq<bool>)
    requires |counts| == |window| && forall k :: 0 <= k < |window| ==> counts[k] == window[k].Some?
    ensures Sum(counts) == CountErrors(window)
  {
    if counts == [] {
    } else {
      SumCounts(window[..|window| - 1], counts[..|counts| - 1]);
    }
  }

  /** `_check_diverging` on the list of error flags. */
  predicate CheckDiverging(ghost window: Errors, counts: seq<bool>): (diverging: bool)
    requires |counts| == |window| && forall k :: 0 <= k < |window| ==> counts[k] == window[k].Some?
    ensures diverging <==> MoreErrorsLately(window)
  {
    var mid := |counts| / 2;
    SumCounts(window[mid..], counts[mid..]);
    SumCounts(window[..mid], counts[..mid]);
    |counts| >= 2 && Sum(counts[mid..]) > Sum(counts[..mid])
  }
}
