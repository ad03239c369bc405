/** The psychometric scorer: reverse-correction of single answers, the rounded
    mean of a trait's item group, and the table of all seven trait results.
    Scores are kept as integer tenths: the mean of a group of size n is
    round(10 * sum / n), and for the group sizes 10, 3 and 7 no mean lies
    exactly half-way between two tenths, so the integer model is exact. */
module Scorer {

  import opened Wrappers
  import opened Constants

  /** A trait score: a whole number of tenths (34 stands for 3.4), or NaN, which
      is what the arithmetic yields when an item of the group has no answer. */
  datatype Score = Tenths(tenths: int) | NaN

  datatype Level = High | Low

  datatype TraitScore = TraitScore(score: Score, level: Level)

  datatype ScorerError = UnknownTrait(name: string)

  /** The answer to item q as it enters the average: inverted on the 1..5 scale
      for reverse items, unchanged otherwise. */
  function ReverseScore(q: int, raw: int): (r: int)
    ensures 1 <= raw <= 5 ==> 1 <= r <= 5
    ensures r == raw || r == 6 - raw
  {
    if q in ReverseItems then 6 - raw else raw
  }

  /** Reverse-correction undoes itself, and it changes an answer exactly when the
      item is in the reverse table and the answer is not the mid-point 3. */
  lemma ReverseScoreInvolution(q: int, raw: int)
    ensures ReverseScore(q, ReverseScore(q, raw)) == raw
    ensures ReverseScore(q, raw) != raw <==> q in ReverseItems && raw != 3
    ensures q in ReverseItems ==> ReverseScore(q, raw) + raw == 6
  {
  }

  /** The sum of the reverse-corrected answers to the given items, or None when
      some item has no answer. */
  function CorrectedSum(items: seq<int>, scores: map<int, int>): (r: Option<int>)
    ensures r.Some? <==> forall q :: q in items ==> q in scores
  {
    if items == [] then Some(0)
    else if items[0] !in scores then
      var first := items[0];
      assert first in items;
      assert (forall q :: q in items ==> q in scores) ==> first in scores;
      None
    else
      var rest := CorrectedSum(items[1..], scores);
      assert forall q :: q in items <==> q == items[0] || q in items[1..];
      match rest
      case None => None
      case Some(v) => Some(ReverseScore(items[0], scores[items[0]]) + v)
  }

  /** For answers within 1..5 the corrected sum lies between n and 5n. */
  lemma {:induction false} CorrectedSumBounds(items: seq<int>, scores: map<int, int>)
    requires CorrectedSum(items, scores).Some?
    ensures (forall q :: q in items ==> 1 <= scores[q] <= 5) ==>
              |items| <= CorrectedSum(items, scores).value <= 5 * |items|
  {
    if items != [] && forall q :: q in items ==> 1 <= scores[q] <= 5 {
      assert items[0] in items;
      assert forall q :: q in items[1..] ==> q in items;
      CorrectedSumBounds(items[1..], scores);
      CorrectedSumCons(items, scores);
    }
  }

  function Sum(xs: seq<int>): int {
    if xs == [] then 0 else xs[0] + Sum(xs[1..])
  }

  /** When item i's recorded answer, reverse-corrected, is cs[i], the corrected
      sum over the items is the sum of cs. */
  lemma {:induction false} CorrectedSumOf(items: seq<int>, cs: seq<int>, scores: map<int, int>)
    requires |items| == |cs|
    requires forall i :: 0 <= i < |items| ==> items[i] in scores && ReverseScore(items[i], scores[items[i]]) == cs[i]
    ensures CorrectedSum(items, scores) == Some(Sum(cs))
  {
    if items != [] {
      assert items[0] in scores;
      assert forall i :: 0 <= i < |items| - 1 ==> items[1..][i] == items[i + 1] && cs[1..][i] == cs[i + 1];
      CorrectedSumOf(items[1..], cs[1..], scores);
      CorrectedSumCons(items, scores);
    }
  }

  /** One step of the corrected sum: the first item's corrected answer plus the
      sum over the rest. */
  lemma CorrectedSumCons(items: seq<int>, scores: map<int, int>)
    requires items != [] && items[0] in scores && CorrectedSum(items[1..], scores).Some?
    ensures CorrectedSum(items, scores)
         == Some(ReverseScore(items[0], scores[items[0]]) + CorrectedSum(items[1..], scores).value)
  {
  }

  /** Math.round(10 * sum / n): the nearest whole number of tenths, halves rounded
      up. The two bounds say that r is the integer nearest to 10 * sum / n; a
      mean of answers within 1..5 rounds to 1.0..5.0. */
  function RoundTenths(sum: int, n: int): (r: int)
    requires n > 0
    ensures n * (2 * r - 1) <= 20 * sum < n * (2 * r + 1)
    ensures n <= sum <= 5 * n ==> 10 <= r <= 50
  {
    var q := (20 * sum + n) / (2 * n);
    var rem := (20 * sum + n) % (2 * n);
    assert 20 * sum + n == 2 * n * q + rem;
    QuotientRange(sum, n, q, rem);
    q
  }

  /** The rounded quotient of a mean within 1..5 lies within 10..50. */
  lemma QuotientRange(sum: int, n: int, q: int, rem: int)
    requires n > 0 && 0 <= rem < 2 * n && 20 * sum + n == 2 * n * q + rem
    ensures n <= sum <= 5 * n ==> 10 <= q <= 50
  {
    if n <= sum <= 5 * n {
      assert n * (2 * q) < n * 102;
      assert n * 19 < n * (2 * q);
      MulStrictCancel(n, 2 * q, 102);
      MulStrictCancel(n, 19, 2 * q);
    }
  }

  /** r is 10 * sum / n rounded half up: the integer nearest to it, halves
      going up. */
  predicate IsRoundedTenths(sum: int, n: int, r: int) {
    n * (2 * r - 1) <= 20 * sum < n * (2 * r + 1)
  }

  /** The bounds of RoundTenths determine its result. */
  lemma RoundTenthsUnique(sum: int, n: int, r: int)
    requires n > 0
    requires n * (2 * r - 1) <= 20 * sum < n * (2 * r + 1)
    ensures r == RoundTenths(sum, n)
  {
    var r' := RoundTenths(sum, n);
    MulStrictCancel(n, 2 * r - 1, 2 * r' + 1);
    MulStrictCancel(n, 2 * r' - 1, 2 * r + 1);
  }

  lemma MulStrictCancel(n: int, a: int, b: int)
    requires n > 0 && n * a < n * b
    ensures a < b
  {
  }

  /** The rounded mean of the reverse-corrected answers to a non-empty item
      list, or NaN when an item has no answer. */
  function GroupScore(items: seq<int>, scores: map<int, int>): (r: Score)
    requires |items| > 0
    ensures r.NaN? <==> exists q :: q in items && q !in scores
    ensures (forall q :: q in items ==> q in scores && 1 <= scores[q] <= 5) ==>
              r.Tenths? && 10 <= r.tenths <= 50
  {
    match CorrectedSum(items, scores)
    case None => NaN
    case Some(sum) =>
      CorrectedSumBounds(items, scores);
      Tenths(RoundTenths(sum, |items|))
  }

  /** With every item answered, the group score is the mean of the
      reverse-corrected answers cs, times ten, rounded half up. */
  lemma GroupScoreIsRoundedMean(items: seq<int>, scores: map<int, int>, cs: seq<int>)
    requires |items| == |cs| > 0
    requires forall i :: 0 <= i < |cs| ==>
      items[i] in scores && ReverseScore(items[i], scores[items[i]]) == cs[i]
    ensures GroupScore(items, scores).Tenths?
    ensures IsRoundedTenths(Sum(cs), |cs|, GroupScore(items, scores).tenths)
  {
    CorrectedSumOf(items, cs, scores);
    assert GroupScore(items, scores) == Tenths(RoundTenths(Sum(cs), |cs|));
    RoundTenthsAt(Sum(cs), |cs|, GroupScore(items, scores).tenths);
  }

  /** The score of one trait: the rounded mean of its reverse-corrected answers
      over the trait's whole fixed item list. */
  function TraitScoreOf(t: Trait, scores: map<int, int>): (r: Score)
    ensures r.NaN? <==> exists q :: q in TraitQuestions(t) && q !in scores
    ensures (forall q :: q in TraitQuestions(t) ==> q in scores && 1 <= scores[q] <= 5) ==>
              r.Tenths? && 10 <= r.tenths <= 50
  {
    TraitGroupNonEmpty(t);
    GroupScore(TraitQuestions(t), scores)
  }

  lemma TraitGroupNonEmpty(t: Trait)
    ensures |TraitQuestions(t)| > 0
  {
    TraitGroupSizes();
  }

  /** With every item of the trait answered, the trait's score is the mean of
      the reverse-corrected answers cs, times ten, rounded half up. */
  lemma TraitScoreIsRoundedMean(t: Trait, scores: map<int, int>, cs: seq<int>)
    requires |cs| == |TraitQuestions(t)|
    requires forall i :: 0 <= i < |cs| ==>
      TraitQuestions(t)[i] in scores && ReverseScore(TraitQuestions(t)[i], scores[TraitQuestions(t)[i]]) == cs[i]
    ensures TraitScoreOf(t, scores).Tenths?
    ensures IsRoundedTenths(Sum(cs), |cs|, TraitScoreOf(t, scores).tenths)
  {
    TraitGroupNonEmpty(t);
    GroupScoreIsRoundedMean(TraitQuestions(t), scores, cs);
  }

  lemma RoundTenthsAt(sum: int, n: int, r: int)
    requires n > 0 && r == RoundTenths(sum, n)
    ensures IsRoundedTenths(sum, n, r)
  {
  }

  /** The score of a trait named by its key; a name that is not a trait key is
      an error. */
  function CalcTraitScore(name: string, scores: map<int, int>): (r: Result<Score, ScorerError>)
    ensures r.Failure? <==> forall t :: Key(t) != name
    ensures r.Failure? ==> r.error == UnknownTrait(name)
    ensures forall t :: Key(t) == name ==> r == Success(TraitScoreOf(t, scores))
  {
    match TraitOfKey(name)
    case None => Failure(UnknownTrait(name))
    case Some(t) => Success(TraitScoreOf(t, scores))
  }

  /** With every item answered within 1..5, every trait score lies in 1.0..5.0. */
  lemma {:induction false} ScoresInRange(scores: map<int, int>, t: Trait)
    requires forall q :: q in AllItems ==> q in scores && 1 <= scores[q] <= 5
    ensures TraitScoreOf(t, scores).Tenths?
    ensures 10 <= TraitScoreOf(t, scores).tenths <= 50
  {
    GroupsAreRuns(t);
  }

  /** The level used when the model text names none: HIGH exactly for a score of
      at least 3.0 (a NaN score compares false, so it is LOW). */
  function FallbackLevel(s: Score): (l: Level)
    ensures l == High <==> s.Tenths? && s.tenths >= 30
  {
    if s.Tenths? && s.tenths >= 30 then High else Low
  }

  /** The entry for one trait: its score, and the level named in the model text
      when there is one, else the fallback. */
  function TraitEntry(t: Trait, scores: map<int, int>, traits: map<string, Level>): TraitScore {
    var s := TraitScoreOf(t, scores);
    TraitScore(s, if Key(t) in traits then traits[Key(t)] else FallbackLevel(s))
  }

  /** The seven trait keys. */
  const TraitKeys: set<string> :=
    {"extraversion", "agreeableness", "conscientiousness", "emotionality",
     "openness", "honesty_humility", "curiosity"}

  /** The trait keys are exactly the keys of the seven traits. */
  lemma TraitKeysAreKeys()
    ensures forall t :: Key(t) in TraitKeys
    ensures forall k :: k in TraitKeys ==> TraitOfKey(k).Some?
    ensures |TraitKeys| == 7
  {
    forall t ensures Key(t) in TraitKeys {
      KeyInTraitKeys(t);
    }
    forall k | k in TraitKeys ensures TraitOfKey(k).Some? {
      TraitKeyNamesTrait(k);
    }
    TraitKeysCount();
  }

  lemma KeyInTraitKeys(t: Trait)
    ensures Key(t) in TraitKeys
  {
    match t
    case Extraversion =>
    case Agreeableness =>
    case Conscientiousness =>
    case Emotionality =>
    case Openness =>
    case HonestyHumility =>
    case Curiosity =>
  }

  lemma TraitKeyNamesTrait(k: string)
    requires k in TraitKeys
    ensures TraitOfKey(k).Some?
  {
    assert k == "extraversion" || k == "agreeableness" || k == "conscientiousness" || k == "emotionality"
      || k == "openness" || k == "honesty_humility" || k == "curiosity";
  }

  lemma TraitKeysCount()
    ensures |TraitKeys| == 7
  {
  }

  /** Scores and levels for all seven traits, keyed by trait key. */
  function CalcAllTraitScores(scores: map<int, int>, traits: map<string, Level>): (r: map<string, TraitScore>)
    ensures r.Keys == TraitKeys && |r| == 7
    ensures forall t :: r[Key(t)] == TraitEntry(t, scores, traits)
  {
    TraitKeysAreKeys();
    var r := map k | k in TraitKeys :: TraitEntry(TraitOfKey(k).value, scores, traits);
    assert r.Keys == TraitKeys;
    forall t ensures r[Key(t)] == TraitEntry(t, scores, traits) {
      assert TraitOfKey(Key(t)) == Some(t);
    }
    r
  }

  /** Each trait's entry: the score is the rounded group mean, the level is the
      one named in the model text if any, and otherwise HIGH exactly when the
      score is at least 3.0. */
  lemma CalcAllTraitScoresEntry(scores: map<int, int>, traits: map<string, Level>, t: Trait)
    ensures Key(t) in CalcAllTraitScores(scores, traits)
    ensures CalcAllTraitScores(scores, traits)[Key(t)].score == TraitScoreOf(t, scores)
    ensures Key(t) in traits ==> CalcAllTraitScores(scores, traits)[Key(t)].level == traits[Key(t)]
    ensures Key(t) !in traits ==>
              (CalcAllTraitScores(scores, traits)[Key(t)].level == High <==>
               TraitScoreOf(t, scores).Tenths? && TraitScoreOf(t, scores).tenths >= 30)
  {
    TraitKeysAreKeys();
  }
}
