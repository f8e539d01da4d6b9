/**
 * The expression classifier of `FaceDetector` (src/face_detector.py).
 *
 * The face-mesh provider is external: a frame reaches the model as the list
 * of faces it found, each a sequence of normalised landmark points, together
 * with the frame's pixel height and width. Float arithmetic is modelled
 * exactly over `real`.
 */
module FaceDetection {
  import opened Wrappers

  // The four labels the classifier can produce.
  const HappyLabel: string := "happy"
  const SadLabel: string := "sad"
  const SurprisedLabel: string := "surprised"
  const NeutralLabel: string := "neutral"

  predicate IsExpressionLabel(s: string) {
    s == HappyLabel || s == SadLabel || s == SurprisedLabel || s == NeutralLabel
  }

  /** A normalised face-mesh landmark (x, y in image fractions). */
  datatype Point = Point(x: real, y: real)

  // Face-mesh indices of the landmarks the classifier reads.
  const MouthLeft: nat := 61
  const MouthRight: nat := 291
  const UpperLip: nat := 13
  const LowerLip: nat := 14
  const LeftEyebrowInner: nat := 70
  const RightEyebrowInner: nat := 300
  const LeftEyeTop: nat := 159
  const LeftEyeBottom: nat := 145
  const RightEyeTop: nat := 386
  const RightEyeBottom: nat := 374

  /** Shortest landmark list that holds every index above (the mesh supplies 478). */
  const LandmarkCount: nat := 387

  /** Added to the mouth width so that the aspect ratio is always defined. */
  const Epsilon: real := 0.000001

  /** The diagnostic metrics computed once per classification. */
  datatype Metrics = Metrics(mar: real, smile: real, eyeHeight: real, eyebrowHeight: real, mouthHeight: real)

  function Abs(x: real): (r: real)
    ensures r >= 0.0 && (r == x || r == -x)
  {
    if x < 0.0 then -x else x
  }

  /**
   * Mouth aspect ratio, smile, eye opening and eyebrow raise. Heights are in
   * pixels (scaled by `h`), the mouth width by `w`; the smile metric alone is
   * left in normalised units.
   */
  function ComputeMetrics(lm: seq<Point>, h: nat, w: nat): (m: Metrics)
    requires |lm| >= LandmarkCount
    ensures m.mar >= 0.0 && m.eyeHeight >= 0.0 && m.mouthHeight >= 0.0
    ensures m.mar * (Abs(lm[MouthRight].x - lm[MouthLeft].x) * w as real + Epsilon) == m.mouthHeight
    ensures m.smile == (lm[UpperLip].y + lm[LowerLip].y) / 2.0 - (lm[MouthLeft].y + lm[MouthRight].y) / 2.0
  {
    var mouthHeight := Abs(lm[LowerLip].y - lm[UpperLip].y) * h as real;
    var mouthWidth := Abs(lm[MouthRight].x - lm[MouthLeft].x) * w as real;
    var mar := mouthHeight / (mouthWidth + Epsilon);
    var mouthCenterY := (lm[UpperLip].y + lm[LowerLip].y) / 2.0;
    var leftCornerDiff := lm[MouthLeft].y - mouthCenterY;
    var rightCornerDiff := lm[MouthRight].y - mouthCenterY;
    var smile := -(leftCornerDiff + rightCornerDiff) / 2.0;
    var leftEyeHeight := Abs(lm[LeftEyeTop].y - lm[LeftEyeBottom].y) * h as real;
    var rightEyeHeight := Abs(lm[RightEyeTop].y - lm[RightEyeBottom].y) * h as real;
    var leftEyebrowHeight := (lm[LeftEyeTop].y - lm[LeftEyebrowInner].y) * h as real;
    var rightEyebrowHeight := (lm[RightEyeTop].y - lm[RightEyebrowInner].y) * h as real;
    Metrics(mar, smile, (leftEyeHeight + rightEyeHeight) / 2.0,
            (leftEyebrowHeight + rightEyebrowHeight) / 2.0, mouthHeight)
  }

  // The three rules of the decision chain, in priority order.

  predicate SurprisedRule(m: Metrics) {
    m.mar > 0.4 && m.eyebrowHeight > 15.0 && m.eyeHeight > 8.0
  }

  predicate HappyRule(m: Metrics) {
    m.smile > 0.003 && m.mar > 0.15
  }

  predicate SadRule(m: Metrics) {
    m.smile < -0.002 && m.eyebrowHeight < 12.0
  }

  /** The first-match-wins chain: surprised, then happy, then sad, else neutral. */
  function Classify(m: Metrics): (expression: string)
    ensures IsExpressionLabel(expression)
    ensures expression == SurprisedLabel <==> SurprisedRule(m)
    ensures expression == HappyLabel <==> !SurprisedRule(m) && HappyRule(m)
    ensures expression == SadLabel <==> !SurprisedRule(m) && !HappyRule(m) && SadRule(m)
    ensures expression == NeutralLabel <==> !SurprisedRule(m) && !HappyRule(m) && !SadRule(m)
  {
    if SurprisedRule(m) then SurprisedLabel
    else if HappyRule(m) then HappyLabel
    else if SadRule(m) then SadLabel
    else NeutralLabel
  }

  /** Whether the rule that yields `expression` fires; the fallback expression never fires. */
  predicate Fires(expression: string, m: Metrics) {
    if expression == SurprisedLabel then SurprisedRule(m)
    else if expression == HappyLabel then HappyRule(m)
    else if expression == SadLabel then SadRule(m)
    else false
  }

  /** The rule order of the decision chain. */
  const RulePriority: seq<string> := [SurprisedLabel, HappyLabel, SadLabel]

  /**
   * A generic reading of "first match wins": the earliest expression of `rules`
   * whose rule fires, or neutral when none does.
   */
  function FirstMatch(rules: seq<string>, m: Metrics): (expression: string)
    ensures expression == NeutralLabel || expression in rules
  {
    if rules == [] then NeutralLabel
    else if Fires(rules[0], m) then rules[0]
    else FirstMatch(rules[1..], m)
  }

  /** `FirstMatch` returns a firing rule with no firing rule before it, and neutral only when none fires. */
  lemma {:induction false} FirstMatchIsFirst(rules: seq<string>, m: Metrics)
    requires NeutralLabel !in rules
    ensures var expression := FirstMatch(rules, m);
      (expression == NeutralLabel <==> forall i | 0 <= i < |rules| :: !Fires(rules[i], m)) &&
      (expression != NeutralLabel ==>
         (exists k :: 0 <= k < |rules| && rules[k] == expression && Fires(expression, m) &&
                      forall i | 0 <= i < k :: !Fires(rules[i], m)))
  {
    if rules != [] {
      FirstMatchIsFirst(rules[1..], m);
      var expression := FirstMatch(rules, m);
      if Fires(rules[0], m) {
        assert rules[0] != NeutralLabel;
      } else if expression != NeutralLabel {
        var k :| 0 <= k < |rules[1..]| && rules[1..][k] == expression && Fires(expression, m) &&
                 forall i | 0 <= i < k :: !Fires(rules[1..][i], m);
        assert rules[k + 1] == expression;
        assert forall i | 0 <= i < k + 1 :: !Fires(rules[i], m) by {
          forall i | 0 <= i < k + 1 ensures !Fires(rules[i], m) {
            if i > 0 { assert rules[i] == rules[1..][i - 1]; }
          }
        }
      } else {
        assert forall i | 0 <= i < |rules| :: !Fires(rules[i], m) by {
          forall i | 0 <= i < |rules| ensures !Fires(rules[i], m) {
            if i > 0 { assert rules[i] == rules[1..][i - 1]; }
          }
        }
      }
    }
  }

  /** The if/elif chain is exactly first-match-wins over the rule priority list. */
  lemma ClassifyIsFirstMatch(m: Metrics)
    ensures Classify(m) == FirstMatch(RulePriority, m)
  {
    var afterSurprised, afterHappy := [HappyLabel, SadLabel], [SadLabel];
    assert RulePriority[1..] == afterSurprised && afterSurprised[1..] == afterHappy && afterHappy[1..] == [];
    assert FirstMatch(afterHappy, m) == if SadRule(m) then SadLabel else NeutralLabel;
    assert FirstMatch(afterSurprised, m) == if HappyRule(m) then HappyLabel else FirstMatch(afterHappy, m);
  }

  /** Surprise wins whatever the smile metric says, so it overrides a smile. */
  lemma SurprisedOverridesSmile(m: Metrics)
    requires SurprisedRule(m) && HappyRule(m)
    ensures Classify(m) == SurprisedLabel
  {
  }

  /** The happy and sad smile conditions can never hold together. */
  lemma HappySadExclusive(m: Metrics)
    ensures !(HappyRule(m) && SadRule(m))
  {
  }

  /** The smile metric ignores the frame size; the other metrics scale with it. */
  lemma SmileIgnoresFrameSize(lm: seq<Point>, h1: nat, w1: nat, h2: nat, w2: nat)
    requires |lm| >= LandmarkCount
    ensures ComputeMetrics(lm, h1, w1).smile == ComputeMetrics(lm, h2, w2).smile
  {
  }

  /** Eye and eyebrow heights are proportional to the frame height. */
  lemma HeightsScaleWithFrame(lm: seq<Point>, h: nat, k: nat, w: nat)
    requires |lm| >= LandmarkCount
    ensures ComputeMetrics(lm, k * h, w).eyeHeight == k as real * ComputeMetrics(lm, h, w).eyeHeight
    ensures ComputeMetrics(lm, k * h, w).eyebrowHeight == k as real * ComputeMetrics(lm, h, w).eyebrowHeight
  {
    var a := Abs(lm[LeftEyeTop].y - lm[LeftEyeBottom].y);
    var b := Abs(lm[RightEyeTop].y - lm[RightEyeBottom].y);
    var c := lm[LeftEyeTop].y - lm[LeftEyebrowInner].y;
    var d := lm[RightEyeTop].y - lm[RightEyebrowInner].y;
    assert (k * h) as real == k as real * h as real;
    assert (a * (k as real * h as real) + b * (k as real * h as real)) / 2.0
        == k as real * ((a * h as real + b * h as real) / 2.0);
    assert (c * (k as real * h as real) + d * (k as real * h as real)) / 2.0
        == k as real * ((c * h as real + d * h as real) / 2.0);
  }

  /** The expression of one frame: neutral when no face was found, else the first face's classification. */
  function DetectedLabel(faces: seq<seq<Point>>, h: nat, w: nat): (expression: string)
    requires faces != [] ==> |faces[0]| >= LandmarkCount
    ensures IsExpressionLabel(expression)
    ensures faces == [] ==> expression == NeutralLabel
  {
    if faces == [] then NeutralLabel else Classify(ComputeMetrics(faces[0], h, w))
  }

  /** The advice shown for a target; unknown keys get a generic prompt. */
  const DefaultTip: string := "Tunjukkan ekspresi yang diminta!"

  const Tips: map<string, string> := map[
    HappyLabel := "\U{1F60A} SENYUM LEBAR! Angkat sudut bibir ke atas!",
    SadLabel := "\U{1F622} CEMBERUT! Turunkan sudut bibir & rileks wajah",
    SurprisedLabel := "\U{1F632} KAGET! Buka mulut lebar & angkat alis!",
    NeutralLabel := "\U{1F610} WAJAH DATAR! Rileks & jangan ekspresikan apa-apa"
  ]

  function ExpressionTips(target: string): (tip: string)
    ensures IsExpressionLabel(target) ==> tip == Tips[target] && tip != DefaultTip
    ensures !IsExpressionLabel(target) ==> tip == DefaultTip
  {
    if target in Tips then Tips[target] else DefaultTip
  }

  /** The detector object; its only state is the last metrics kept for diagnostics. */
  class FaceDetector {
    var debugMode: bool
    var lastMetrics: Option<Metrics>

    constructor (debugMode: bool := false)
      ensures this.debugMode == debugMode && lastMetrics == None
    {
      this.debugMode := debugMode;
      lastMetrics := None;
    }

    /** Computes the metrics, records them, and classifies. */
    method AnalyzeLandmarks(lm: seq<Point>, h: nat, w: nat) returns (expression: string)
      requires |lm| >= LandmarkCount
      modifies this
      ensures lastMetrics == Some(ComputeMetrics(lm, h, w))
      ensures debugMode == old(debugMode)
      ensures expression == Classify(ComputeMetrics(lm, h, w))
    {
      var m := ComputeMetrics(lm, h, w);
      lastMetrics := Some(m);
      expression := Classify(m);
    }

    /** Classifies the first face of a frame; with no face, neutral and no metrics update. */
    method DetectExpression(faces: seq<seq<Point>>, h: nat, w: nat) returns (expression: string)
      requires faces != [] ==> |faces[0]| >= LandmarkCount
      modifies this
      ensures expression == DetectedLabel(faces, h, w)
      ensures debugMode == old(debugMode)
      ensures faces == [] ==> lastMetrics == old(lastMetrics)
      ensures faces != [] ==> lastMetrics == Some(ComputeMetrics(faces[0], h, w))
    {
      if faces == [] {
        return NeutralLabel;
      }
      expression := AnalyzeLandmarks(faces[0], h, w);
    }
  }
}
