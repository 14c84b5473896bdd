/**
 * `predict_moods` of backend/utils.py: every segment gets a mood (hype,
 * calm or neutral) and a confidence from a score over its own text and,
 * when they are given, its own prosody and visual features.
 */
module Mood {
  import opened Common
  import opened Text
  import Segmenter

  datatype Mood = Hype | Calm | Neutral

  /** The prosody features of one segment; a missing key reads as 0. */
  datatype Prosody = Prosody(energy: Option<real>, pitchVar: Option<real>)

  /** The visual features of one segment; a missing key reads as 0. */
  datatype Visual = Visual(brightness: Option<real>, edgeDensity: Option<real>)

  /** One entry of the result: the segment's interval, its mood and the rounded confidence. */
  datatype Prediction = Prediction(t0: real, t1: real, mood: Mood, confidence: real)

  /** A mood with its confidence before rounding. */
  datatype Verdict = Verdict(mood: Mood, confidence: real)

  /** `d.get(key, 0)`. */
  function ValueOr0(o: Option<real>): real
  {
    if o.Some? then o.value else 0.0
  }

  /**
   * The fire emoji as the source file spells it: its four UTF-8 bytes read
   * as Windows-1252 (`ð`, `Ÿ`, `”`, `¥`).
   */
  const Fire: string := "\U{f0}\U{178}\U{201d}\U{a5}"

  const ExcitedKeywords: seq<string> :=
    ["wow", "amazing", "insane", "incredible", "hype", "excited", "epic", "banger", "!", Fire, "exciting"]

  const CalmKeywords: seq<string> := ["relax", "calm", "chill", "soft", "gentle", "quiet", "peace"]

  /** `sum(1 for k in keywords if k in t)`: how many of the keywords occur in `t`. */
  function KeywordHits(keywords: seq<string>, t: string): (n: nat)
    ensures n <= |keywords|
  {
    if keywords == [] then 0
    else (if Contains(t, keywords[0]) then 1 else 0) + KeywordHits(keywords[1..], t)
  }

  function Max(a: real, b: real): real
  {
    if a >= b then a else b
  }

  function Min(a: real, b: real): real
  {
    if a <= b then a else b
  }

  /** More capitals than `max(5, 0.2 * len(text))`. */
  predicate Shouting(text: string)
  {
    UpperCount(text) as real > Max(5.0, 0.2 * |text| as real)
  }

  /** The part of the score that comes from the text alone. */
  function LexicalScore(text: string): real
  {
    var t := Lower(text);
    0.6 * (KeywordHits(ExcitedKeywords, t) - KeywordHits(CalmKeywords, t)) as real
    + 0.2 * Count(text, '!') as real
    + (if Shouting(text) then 0.5 else 0.0)
  }

  function ProsodyTerm(p: Prosody): real
  {
    0.004 * (ValueOr0(p.energy) * 1000.0) + 0.3 * ValueOr0(p.pitchVar)
  }

  function VisualTerm(v: Visual): real
  {
    0.002 * ValueOr0(v.brightness) + 0.0005 * ValueOr0(v.edgeDensity)
  }

  /** The features of segment `idx`, when a list is given and is long enough. */
  function FeatureAt<T>(features: Option<seq<T>>, idx: nat): (f: Option<T>)
    ensures f.Some? <==> features.Some? && idx < |features.value|
    ensures f.Some? ==> f.value == features.value[idx]
  {
    if features.Some? && idx < |features.value| then Some(features.value[idx]) else None
  }

  /** The score of one segment from its text and the features at its index. */
  function Score(text: string, p: Option<Prosody>, v: Option<Visual>): real
  {
    LexicalScore(text)
    + (if p.Some? then ProsodyTerm(p.value) else 0.0)
    + (if v.Some? then VisualTerm(v.value) else 0.0)
  }

  /** The thresholds of lines 129-137: strictly above 1 is hype, strictly below -0.5 calm. */
  function Classify(score: real): (v: Verdict)
    ensures v.mood == Hype <==> score > 1.0
    ensures v.mood == Calm <==> score < -0.5
    ensures v.mood == Neutral <==> -0.5 <= score <= 1.0
    ensures 0.5 <= v.confidence <= 0.99
  {
    if score > 1.0 then Verdict(Hype, Min(0.99, 0.5 + (score - 1.0) / 4.0))
    else if score < -0.5 then Verdict(Calm, Min(0.99, 0.5 + (-score) / 4.0))
    else Verdict(Neutral, 0.6)
  }

  /** An integer is even. */
  predicate Even(n: int)
  {
    n % 2 == 0
  }

  /**
   * `round(x, 2)`: the nearest hundredth, ties to the even hundredth.
   */
  function Round2(x: real): (r: real)
    ensures (r * 100.0).Floor as real == r * 100.0
    ensures -0.005 <= r - x <= 0.005
  {
    var n := x * 100.0;
    var f := n.Floor;
    var frac := n - f as real;
    var k := if frac < 0.5 then f else if frac > 0.5 then f + 1 else if Even(f) then f else f + 1;
    k as real / 100.0
  }

  /** What `predict_moods` reports for the segment at index `idx`. */
  function Predict(seg: Segmenter.Segment, idx: nat, prosody: Option<seq<Prosody>>, visual: Option<seq<Visual>>): Prediction
  {
    var v := Classify(Score(seg.text, FeatureAt(prosody, idx), FeatureAt(visual, idx)));
    Prediction(seg.t0, seg.t1, v.mood, Round2(v.confidence))
  }

  /** The whole result list: one prediction per segment, in order. */
  function Predictions(segments: seq<Segmenter.Segment>, prosody: Option<seq<Prosody>>, visual: Option<seq<Visual>>): (ps: seq<Prediction>)
    ensures |ps| == |segments|
  {
    seq(|segments|, i requires 0 <= i < |segments| => Predict(segments[i], i, prosody, visual))
  }

  /**
   * One pass of the loop body, lines 114-138: the score of the segment at
   * `idx` is accumulated term by term and then classified.
   */
  method PredictOne(seg: Segmenter.Segment, idx: nat, prosody: Option<seq<Prosody>>, visual: Option<seq<Visual>>)
    returns (p: Prediction)
    ensures p == Predict(seg, idx, prosody, visual)
  {
    var text := seg.text;
    var score := 0.0;
    var tlower := Lower(text);
    var kwExc: int := KeywordHits(ExcitedKeywords, tlower);
    var kwCalm: int := KeywordHits(CalmKeywords, tlower);
    score := score + 0.6 * (kwExc - kwCalm) as real;
    score := score + 0.2 * Count(text, '!') as real;
    if UpperCount(text) as real > Max(5.0, 0.2 * |text| as real) {
      score := score + 0.5;
    }
    assert score == LexicalScore(text);
    if prosody.Some? && idx < |prosody.value| {
      var pf := prosody.value[idx];
      score := score + 0.004 * (ValueOr0(pf.energy) * 1000.0) + 0.3 * ValueOr0(pf.pitchVar);
    }
    if visual.Some? && idx < |visual.value| {
      var vf := visual.value[idx];
      score := score + 0.002 * ValueOr0(vf.brightness) + 0.0005 * ValueOr0(vf.edgeDensity);
    }
    assert score == Score(text, FeatureAt(prosody, idx), FeatureAt(visual, idx));
    var mood: Mood;
    var conf: real;
    if score > 1.0 {
      mood := Hype;
      conf := Min(0.99, 0.5 + (score - 1.0) / 4.0);
    } else if score < -0.5 {
      mood := Calm;
      conf := Min(0.99, 0.5 + (-score) / 4.0);
    } else {
      mood := Neutral;
      conf := 0.6;
    }
    assert Verdict(mood, conf) == Classify(score);
    p := Prediction(seg.t0, seg.t1, mood, Round2(conf));
  }

  /** The predictions of one more segment extend those of the segments before it. */
  lemma PredictionsSnoc(segments: seq<Segmenter.Segment>, idx: nat, prosody: Option<seq<Prosody>>, visual: Option<seq<Visual>>)
    requires idx < |segments|
    ensures Predictions(segments[..idx + 1], prosody, visual)
         == Predictions(segments[..idx], prosody, visual) + [Predict(segments[idx], idx, prosody, visual)]
  {
    var a := Predictions(segments[..idx + 1], prosody, visual);
    var b := Predictions(segments[..idx], prosody, visual) + [Predict(segments[idx], idx, prosody, visual)];
    forall i | 0 <= i < idx ensures a[i] == b[i] {
      assert segments[..idx + 1][i] == segments[..idx][i];
    }
    assert a[idx] == b[idx] by {
      assert segments[..idx + 1][idx] == segments[idx];
    }
  }

  /** The loop of lines 113-139: one prediction per segment, appended in order. */
  method PredictMoods(segments: seq<Segmenter.Segment>, prosody: Option<seq<Prosody>>, visual: Option<seq<Visual>>)
    returns (results: seq<Prediction>)
    ensures results == Predictions(segments, prosody, visual)
  {
    results := [];
    for idx := 0 to |segments|
      invariant results == Predictions(segments[..idx], prosody, visual)
    {
      var p := PredictOne(segments[idx], idx, prosody, visual);
      PredictionsSnoc(segments, idx, prosody, visual);
      results := results + [p];
    }
    assert segments[..|segments|] == segments;
  }

  /*
   * Properties of the scoring.
   */

  /** No hit means no keyword occurs, and every keyword hit means all occur. */
  lemma {:induction false} KeywordHitsExtremes(keywords: seq<string>, t: string)
    ensures KeywordHits(keywords, t) == 0 <==> forall j :: 0 <= j < |keywords| ==> !Contains(t, keywords[j])
    ensures KeywordHits(keywords, t) == |keywords| <==> forall j :: 0 <= j < |keywords| ==> Contains(t, keywords[j])
    decreases |keywords|
  {
    if keywords != [] {
      var rest := keywords[1..];
      KeywordHitsExtremes(rest, t);
      assert forall j :: 1 <= j < |keywords| ==> keywords[j] == rest[j - 1];
      assert KeywordHits(rest, t) <= |rest|;
    }
  }

  /** The hits of two keyword lists add up. */
  lemma {:induction false} KeywordHitsAppend(a: seq<string>, b: seq<string>, t: string)
    ensures KeywordHits(a + b, t) == KeywordHits(a, t) + KeywordHits(b, t)
    decreases |a|
  {
    if a == [] {
      assert a + b == b;
    } else {
      KeywordHitsAppend(a[1..], b, t);
      assert (a + b)[1..] == a[1..] + b;
    }
  }

  /** A keyword that occurs is counted. */
  lemma KeywordHit(keywords: seq<string>, t: string, j: nat)
    requires j < |keywords| && Contains(t, keywords[j])
    ensures KeywordHits(keywords, t) >= 1
  {
    KeywordHitsExtremes(keywords, t);
  }

  /**
   * Keywords match in any case: where a text holds some spelling `u` of a
   * keyword, capitals included, the lowered text hits that keyword.
   */
  lemma KeywordAnyCase(keywords: seq<string>, text: string, j: nat, u: string, i: int)
    requires j < |keywords| && Lower(u) == keywords[j] && OccursAt(text, u, i)
    ensures KeywordHits(keywords, Lower(text)) >= 1
  {
    LowerOccurs(text, u, i);
    KeywordHit(keywords, Lower(text), j);
  }

  /**
   * The keyword lists are written in lower case, so that matching them in
   * the lowered text ignores case; the one exception is the spelled-out
   * fire keyword, which holds the capital `Ÿ`.
   */
  lemma KeywordsAreLower()
    ensures forall j :: 0 <= j < |CalmKeywords| ==> Lower(CalmKeywords[j]) == CalmKeywords[j]
    ensures forall j :: 0 <= j < |ExcitedKeywords| && j != 9 ==> Lower(ExcitedKeywords[j]) == ExcitedKeywords[j]
    ensures ExcitedKeywords[9] == Fire && Lower(Fire) != Fire
  {
    forall j | 0 <= j < |CalmKeywords| ensures Lower(CalmKeywords[j]) == CalmKeywords[j] {
      var k := CalmKeywords[j];
      assert forall i :: 0 <= i < |k| ==> 'a' <= k[i] <= 'z';
    }
    forall j | 0 <= j < |ExcitedKeywords| && j != 9 ensures Lower(ExcitedKeywords[j]) == ExcitedKeywords[j] {
      var k := ExcitedKeywords[j];
      assert forall i :: 0 <= i < |k| ==> 'a' <= k[i] <= 'z' || k[i] == '!';
    }
    assert Lower(Fire)[1] == '\U{ff}';
  }

  /** A shouted `WOW` hits the excited keyword `wow`. */
  lemma ShoutedWow(text: string, i: int)
    requires OccursAt(text, "WOW", i)
    ensures KeywordHits(ExcitedKeywords, Lower(text)) >= 1
  {
    assert Lower("WOW") == "wow";
    KeywordAnyCase(ExcitedKeywords, text, 0, "WOW", i);
  }

  /** A keyword whose first character is absent from `t` does not occur in it. */
  lemma FirstAbsent(t: string, k: string)
    requires k != [] && k[0] !in t
    ensures !Contains(t, k)
  {
  }

  /**
   * The spelled-out fire keyword never matches: it holds `Ÿ`, which
   * lowering turns into `ÿ`, so no lowered text contains it.
   */
  lemma FireNeverHits(text: string)
    ensures !Contains(Lower(text), Fire)
  {
    var t := Lower(text);
    forall i | 0 <= i <= |t| - 4 ensures !OccursAt(t, Fire, i) {
      assert t[i..i + 4][1] == LowerChar(text[i + 1]);
    }
  }

  /** An exclamation mark counts both as an excited keyword and on its own. */
  lemma ExclamationIsExcited(text: string)
    requires Count(text, '!') >= 1
    ensures KeywordHits(ExcitedKeywords, Lower(text)) >= 1
  {
    var t := Lower(text);
    var i :| 0 <= i < |text| && text[i] == '!';
    assert t[i..i + 1] == "!";
    assert OccursAt(t, "!", i);
    assert ExcitedKeywords[8] == "!";
    KeywordHit(ExcitedKeywords, t, 8);
  }

  /** The thresholds are strict: a score of exactly 1 or -0.5 is neutral with confidence 0.6. */
  lemma ClassifyBoundaries()
    ensures Classify(1.0) == Verdict(Neutral, 0.6)
    ensures Classify(-0.5) == Verdict(Neutral, 0.6)
  {
  }

  /**
   * Hype confidence grows with the score and is capped at 0.99 from a
   * score of 2.96 on; calm confidence is capped from -1.96 down.
   */
  lemma ConfidenceCap(score: real, other: real)
    ensures score > 1.0 ==> (Classify(score).confidence == 0.99 <==> score >= 2.96)
    ensures score < -0.5 ==> (Classify(score).confidence == 0.99 <==> score <= -1.96)
    ensures 1.0 < score <= other ==> Classify(score).confidence <= Classify(other).confidence
    ensures other <= score < -0.5 ==> Classify(score).confidence <= Classify(other).confidence
  {
  }

  /** The nearest hundredth of a confidence in [0.5, 0.99] stays in [0.5, 0.99]. */
  lemma RoundedConfidence(x: real)
    requires 0.5 <= x <= 0.99
    ensures 0.5 <= Round2(x) <= 0.99
  {
    var n := x * 100.0;
    var f := n.Floor;
    assert 50 <= f <= 99;
    assert f == 99 ==> n == 99.0;
  }

  /** A value that already is a whole number of hundredths rounds to itself. */
  lemma RoundHundredths(k: int)
    ensures Round2(k as real / 100.0) == k as real / 100.0
  {
    var n := (k as real / 100.0) * 100.0;
    assert n == k as real;
    assert n.Floor == k;
  }

  /** Every prediction has the mood its score calls for and a confidence in [0.5, 0.99]. */
  lemma PredictionShape(seg: Segmenter.Segment, idx: nat, prosody: Option<seq<Prosody>>, visual: Option<seq<Visual>>)
    ensures var p := Predict(seg, idx, prosody, visual);
      var score := Score(seg.text, FeatureAt(prosody, idx), FeatureAt(visual, idx));
      && p.t0 == seg.t0 && p.t1 == seg.t1
      && (p.mood == Hype <==> score > 1.0)
      && (p.mood == Calm <==> score < -0.5)
      && (p.mood == Neutral ==> p.confidence == 0.6)
      && 0.5 <= p.confidence <= 0.99
  {
    var score := Score(seg.text, FeatureAt(prosody, idx), FeatureAt(visual, idx));
    RoundedConfidence(Classify(score).confidence);
    if Classify(score).mood == Neutral {
      RoundHundredths(60);
    }
  }

  /**
   * Each feature list is used or skipped on its own: a list too short for the index
   * scores as if it were absent, whatever the other list is.
   */
  lemma ShortListIsAbsent(seg: Segmenter.Segment, idx: nat, prosody: Option<seq<Prosody>>, visual: Option<seq<Visual>>)
    ensures prosody.Some? && idx >= |prosody.value| ==> Predict(seg, idx, prosody, visual) == Predict(seg, idx, None, visual)
    ensures visual.Some? && idx >= |visual.value| ==> Predict(seg, idx, prosody, visual) == Predict(seg, idx, prosody, None)
  {
    if prosody.Some? && idx >= |prosody.value| {
      assert FeatureAt(prosody, idx) == FeatureAt(None, idx);
    }
    if visual.Some? && idx >= |visual.value| {
      assert FeatureAt(visual, idx) == FeatureAt(None, idx);
    }
  }

  /**
   * Each result depends on its own segment only: the segments around it
   * do not change it.
   */
  lemma PredictionsLocal(a: seq<Segmenter.Segment>, b: seq<Segmenter.Segment>, i: nat,
                         prosody: Option<seq<Prosody>>, visual: Option<seq<Visual>>)
    requires i < |a| && i < |b| && a[i] == b[i]
    ensures Predictions(a, prosody, visual)[i] == Predictions(b, prosody, visual)[i]
  {
  }

  /** The results of a prefix of the segments are a prefix of the results. */
  lemma PredictionsPrefix(a: seq<Segmenter.Segment>, b: seq<Segmenter.Segment>,
                          prosody: Option<seq<Prosody>>, visual: Option<seq<Visual>>)
    ensures Predictions(a + b, prosody, visual)[..|a|] == Predictions(a, prosody, visual)
  {
    var ps := Predictions(a + b, prosody, visual);
    forall i | 0 <= i < |a| ensures ps[i] == Predictions(a, prosody, visual)[i] {
      assert (a + b)[i] == a[i];
    }
  }

  /** A caption of `n` exclamation marks. */
  function Bangs(n: nat): (t: string)
    ensures |t| == n && forall i :: 0 <= i < n ==> t[i] == '!'
  {
    seq(n, i => '!')
  }

  lemma {:induction false} CountBangs(n: nat)
    ensures Count(Bangs(n), '!') == n
    decreases n
  {
    if n > 0 {
      assert Bangs(n)[1..] == Bangs(n - 1);
      CountBangs(n - 1);
    }
  }

  /** In a text of exclamation marks, no keyword that starts with another character hits. */
  lemma {:induction false} MissBangs(keywords: seq<string>, t: string)
    requires forall i :: 0 <= i < |t| ==> t[i] == '!'
    requires forall j :: 0 <= j < |keywords| ==> keywords[j] != [] && keywords[j][0] != '!'
    ensures KeywordHits(keywords, t) == 0
    decreases |keywords|
  {
    if keywords != [] {
      FirstAbsent(t, keywords[0]);
      assert forall j :: 0 <= j < |keywords| - 1 ==> keywords[1..][j] == keywords[j + 1];
      MissBangs(keywords[1..], t);
    }
  }

  /** Of all keywords, only `!` occurs in a caption of exclamation marks. */
  lemma BangsHits(n: nat)
    requires n >= 1
    ensures KeywordHits(ExcitedKeywords, Bangs(n)) == 1
    ensures KeywordHits(CalmKeywords, Bangs(n)) == 0
  {
    var t := Bangs(n);
    var head := ["wow", "amazing", "insane", "incredible", "hype", "excited", "epic", "banger"];
    var tail := [Fire, "exciting"];
    assert ExcitedKeywords == head + ["!"] + tail;
    assert KeywordHits(head, t) == 0 by {
      MissBangs(head, t);
    }
    assert KeywordHits(tail, t) == 0 by {
      MissBangs(tail, t);
    }
    assert KeywordHits(CalmKeywords, t) == 0 by {
      MissBangs(CalmKeywords, t);
    }
    assert KeywordHits(["!"], t) == 1 by {
      assert t[0..1] == "!";
      assert OccursAt(t, "!", 0);
    }
    KeywordHitsAppend(head + ["!"], tail, t);
    KeywordHitsAppend(head, ["!"], t);
  }

  /** `n` exclamation marks score 0.6 for the keyword `!` and 0.2 for each mark. */
  lemma BangsScore(n: nat)
    requires n >= 1
    ensures LexicalScore(Bangs(n)) == 0.6 + 0.2 * n as real
  {
    var t := Bangs(n);
    assert Lower(t) == t;
    assert UpperCount(t) == 0;
    CountBangs(n);
    BangsHits(n);
  }

  /**
   * A segment of `n` exclamation marks and no features is hype from three
   * marks on, with a confidence of 0.05 more per mark, capped at 0.99 from
   * twelve marks on; with one or two marks it is neutral.
   */
  lemma BangsPrediction(t0: real, t1: real, n: nat)
    requires n >= 1
    ensures var p := Predict(Segmenter.Segment(t0, t1, Bangs(n)), 0, None, None);
      && p.t0 == t0 && p.t1 == t1
      && p.mood == (if n >= 3 then Hype else Neutral)
      && p.confidence == (if n < 3 then 0.6 else if n < 12 then (40 + 5 * n) as real / 100.0 else 0.99)
  {
    BangsScore(n);
    if n < 3 {
      RoundHundredths(60);
    } else if n < 12 {
      RoundHundredths(40 + 5 * n);
    } else {
      RoundHundredths(99);
    }
  }
}
