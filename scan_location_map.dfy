/**
 * The score helpers of the scan-location map: clamping a score into
 * 0..100, classifying it, and the marker colour of each classification.
 * Scores are whole numbers here.
 */
module ScanLocationMap {
  import opened UrlRisk

  /** `clampScore`: `Math.min(100, Math.max(0, score))`. */
  function ClampScore(score: int): (r: int)
    ensures 0 <= r <= 100
    ensures 0 <= score <= 100 ==> r == score
    ensures score < 0 ==> r == 0
    ensures score > 100 ==> r == 100
  {
    Clamp(score, 0, 100)
  }

  /** `classifyScore`: the classification of the clamped score. */
  function ClassifyScore(score: int): (c: Classification)
    ensures c == Safe <==> score <= 20
    ensures c == Suspicious <==> 21 <= score <= 50
    ensures c == Dangerous <==> score >= 51
  {
    var s := ClampScore(score);
    if s <= 20 then Safe
    else if s <= 50 then Suspicious
    else Dangerous
  }

  /** `markerColorHsl`: one theme colour token per classification. */
  function MarkerColorHsl(c: Classification): (color: string)
    ensures StartsWithHsl(color)
  {
    match c
    case Safe => "hsl(var(--success))"
    case Suspicious => "hsl(var(--warning))"
    case Dangerous => "hsl(var(--destructive))"
  }

  predicate StartsWithHsl(color: string) {
    |color| >= 4 && color[..4] == "hsl("
  }

  /** The map's classification is the scorer's classification of the clamped score, and clamping never changes it. */
  lemma ClassifyScoreAgrees(score: int)
    ensures ClassifyScore(score) == Classify(Clamp(score, 0, 100))
    ensures ClassifyScore(score) == Classify(score)
  {
  }

  /** Clamping twice is clamping once. */
  lemma ClampScoreIdempotent(score: int)
    ensures ClampScore(ClampScore(score)) == ClampScore(score)
  {
  }

  /** Different classifications get different colours. */
  lemma MarkerColorsDistinct(a: Classification, b: Classification)
    requires a != b
    ensures MarkerColorHsl(a) != MarkerColorHsl(b)
  {
    var ca, cb := MarkerColorHsl(a), MarkerColorHsl(b);
    match a
    case Safe => assert ca[10] != cb[10];
    case Suspicious => assert ca[10] != cb[10];
    case Dangerous => assert ca[10] != cb[10];
  }

  lemma ClampScoreExamples()
    ensures ClampScore(-1) == 0 && ClampScore(-999) == 0
    ensures ClampScore(101) == 100 && ClampScore(999) == 100
    ensures ClampScore(0) == 0 && ClampScore(20) == 20 && ClampScore(50) == 50 && ClampScore(100) == 100
  {
  }

  lemma ClassifyScoreExamples()
    ensures ClassifyScore(0) == Safe && ClassifyScore(20) == Safe && ClassifyScore(-5) == Safe
    ensures ClassifyScore(21) == Suspicious && ClassifyScore(50) == Suspicious
    ensures ClassifyScore(51) == Dangerous && ClassifyScore(100) == Dangerous && ClassifyScore(250) == Dangerous
  {
  }

  lemma MarkerColorExamples()
    ensures MarkerColorHsl(Safe) == "hsl(var(--success))"
    ensures MarkerColorHsl(Suspicious) == "hsl(var(--warning))"
    ensures MarkerColorHsl(Dangerous) == "hsl(var(--destructive))"
  {
  }
}
