/** The questionnaire's static tables: which of the 60 items are reverse-scored,
    how the items are grouped into the seven traits, and the minimum corpus
    length the monthly batch analyses. */
module Constants {

  import opened Wrappers

  /** Number of questionnaire items. */
  const TotalQuestions: int := 60

  /** Corpora shorter than this (in UTF-16 code units) are not analysed. */
  const MinTextLength: int := 50

  /** Items whose raw 1..5 answer is inverted (6 - raw) before averaging,
      listed per trait in the order extraversion, agreeableness,
      conscientiousness, emotionality, openness, honesty-humility. */
  const ReverseItems: seq<int> :=
    [ 2, 4, 6, 8, 10,
      12, 14, 16, 18,
      22, 24, 26, 28,
      32, 34, 39,
      42, 44, 46,
      51, 52, 53 ]

  /** The seven trait dimensions. */
  datatype Trait =
    | Extraversion
    | Agreeableness
    | Conscientiousness
    | Emotionality
    | Openness
    | HonestyHumility
    | Curiosity

  /** The traits in the key order of the trait table. */
  const Traits: seq<Trait> :=
    [Extraversion, Agreeableness, Conscientiousness, Emotionality, Openness, HonestyHumility, Curiosity]

  /** The string key under which a trait is stored. */
  function Key(t: Trait): string {
    match t
    case Extraversion => "extraversion"
    case Agreeableness => "agreeableness"
    case Conscientiousness => "conscientiousness"
    case Emotionality => "emotionality"
    case Openness => "openness"
    case HonestyHumility => "honesty_humility"
    case Curiosity => "curiosity"
  }

  /** Looks a trait up by its key; the key of no trait gives None. */
  function TraitOfKey(k: string): (r: Option<Trait>)
    ensures r.Some? ==> Key(r.value) == k
    ensures forall t :: Key(t) == k ==> r == Some(t)
  {
    if k == "extraversion" then Some(Extraversion)
    else if k == "agreeableness" then Some(Agreeableness)
    else if k == "conscientiousness" then Some(Conscientiousness)
    else if k == "emotionality" then Some(Emotionality)
    else if k == "openness" then Some(Openness)
    else if k == "honesty_humility" then Some(HonestyHumility)
    else if k == "curiosity" then Some(Curiosity)
    else None
  }

  /** The fixed item list of each trait. */
  function TraitQuestions(t: Trait): seq<int> {
    match t
    case Extraversion => [1, 2, 3, 4, 5, 6, 7, 8, 9, 10]
    case Agreeableness => [11, 12, 13, 14, 15, 16, 17, 18, 19, 20]
    case Conscientiousness => [21, 22, 23, 24, 25, 26, 27, 28, 29, 30]
    case Emotionality => [31, 32, 33, 34, 35, 36, 37, 38, 39, 40]
    case Openness => [41, 42, 43, 44, 45, 46, 47, 48, 49, 50]
    case HonestyHumility => [51, 52, 53]
    case Curiosity => [54, 55, 56, 57, 58, 59, 60]
  }

  /** The item numbers 1..TotalQuestions. */
  ghost const AllItems: set<int> := set q | 1 <= q <= TotalQuestions

  /** The integers lo, lo+1, ..., hi-1 in increasing order. */
  function Range(lo: int, hi: int): (r: seq<int>)
    ensures |r| == if lo <= hi then hi - lo else 0
    decreases hi - lo
  {
    if lo >= hi then [] else [lo] + Range(lo + 1, hi)
  }

  lemma {:induction false} RangeMembership(lo: int, hi: int)
    ensures forall q :: q in Range(lo, hi) <==> lo <= q < hi
    decreases hi - lo
  {
    if lo < hi {
      RangeMembership(lo + 1, hi);
    }
  }

  /** The first item of each group and the first item after it. */
  function Bounds(t: Trait): (int, int) {
    match t
    case Extraversion => (1, 11)
    case Agreeableness => (11, 21)
    case Conscientiousness => (21, 31)
    case Emotionality => (31, 41)
    case Openness => (41, 51)
    case HonestyHumility => (51, 54)
    case Curiosity => (54, 61)
  }

  /** Each group is a run of consecutive item numbers. */
  lemma GroupsAreRuns(t: Trait)
    ensures forall q :: q in TraitQuestions(t) <==> Bounds(t).0 <= q < Bounds(t).1
  {
    var (lo, hi) := Bounds(t);
    match t
    case Extraversion => RunMembership(TraitQuestions(Extraversion), lo, hi);
    case Agreeableness => RunMembership(TraitQuestions(Agreeableness), lo, hi);
    case Conscientiousness => RunMembership(TraitQuestions(Conscientiousness), lo, hi);
    case Emotionality => RunMembership(TraitQuestions(Emotionality), lo, hi);
    case Openness => RunMembership(TraitQuestions(Openness), lo, hi);
    case HonestyHumility => RunMembership(TraitQuestions(HonestyHumility), lo, hi);
    case Curiosity => RunMembership(TraitQuestions(Curiosity), lo, hi);
  }

  /** A sequence holding lo, lo+1, ... in order holds exactly lo..hi-1. */
  lemma RunMembership(s: seq<int>, lo: int, hi: int)
    requires |s| == hi - lo
    requires forall i :: 0 <= i < |s| ==> s[i] == lo + i
    ensures forall q :: q in s <==> lo <= q < hi
  {
    forall q | lo <= q < hi ensures q in s {
      assert s[q - lo] == q;
    }
  }

  /** Every item 1..60 belongs to exactly one trait group, and no group holds
      anything else. */
  lemma TraitGroupsPartition()
    ensures forall q :: q in AllItems <==> exists t :: q in TraitQuestions(t)
    ensures forall t1, t2, q :: q in TraitQuestions(t1) && q in TraitQuestions(t2) ==> t1 == t2
    ensures (set t, q | t in Traits && q in TraitQuestions(t) :: q) == AllItems
  {
    forall t ensures forall q :: q in TraitQuestions(t) <==> Bounds(t).0 <= q < Bounds(t).1 {
      GroupsAreRuns(t);
    }
    AllTraitsListed();
    forall q | q in AllItems
      ensures exists t :: t in Traits && q in TraitQuestions(t)
    {
      var t :=
        if q <= 10 then Extraversion
        else if q <= 20 then Agreeableness
        else if q <= 30 then Conscientiousness
        else if q <= 40 then Emotionality
        else if q <= 50 then Openness
        else if q <= 53 then HonestyHumility
        else Curiosity;
      assert q in TraitQuestions(t);
    }
  }

  /** The group sizes 10, 10, 10, 10, 10, 3, 7 add up to the item count. */
  lemma TraitGroupSizes()
    ensures |TraitQuestions(Extraversion)| == 10 && |TraitQuestions(Agreeableness)| == 10
    ensures |TraitQuestions(Conscientiousness)| == 10 && |TraitQuestions(Emotionality)| == 10
    ensures |TraitQuestions(Openness)| == 10 && |TraitQuestions(HonestyHumility)| == 3
    ensures |TraitQuestions(Curiosity)| == 7
    ensures forall t :: |TraitQuestions(t)| > 0
  {
  }

  /** The reverse table holds 22 distinct items, all within 1..60. */
  lemma ReverseItemsWellFormed()
    ensures |ReverseItems| == 22
    ensures forall i :: 0 <= i < |ReverseItems| ==> 1 <= ReverseItems[i] <= TotalQuestions
    ensures forall i, j :: 0 <= i < j < |ReverseItems| ==> ReverseItems[i] != ReverseItems[j]
  {
  }

  /** Each reverse item lies in the trait group its position in the table names;
      every honesty-humility item is reversed and no curiosity item is. */
  lemma ReverseItemsPerTrait()
    ensures forall q :: q in ReverseItems[0..5] ==> q in TraitQuestions(Extraversion)
    ensures forall q :: q in ReverseItems[5..9] ==> q in TraitQuestions(Agreeableness)
    ensures forall q :: q in ReverseItems[9..13] ==> q in TraitQuestions(Conscientiousness)
    ensures forall q :: q in ReverseItems[13..16] ==> q in TraitQuestions(Emotionality)
    ensures forall q :: q in ReverseItems[16..19] ==> q in TraitQuestions(Openness)
    ensures forall q :: q in ReverseItems[19..22] ==> q in TraitQuestions(HonestyHumility)
    ensures forall q :: q in TraitQuestions(HonestyHumility) ==> q in ReverseItems
    ensures forall q :: q in TraitQuestions(Curiosity) ==> q !in ReverseItems
  {
  }

  /** Every trait occurs once in the key-order table, and keys are distinct. */
  lemma TraitsTable()
    ensures |Traits| == 7
    ensures forall t :: t in Traits
    ensures forall i, j :: 0 <= i < j < |Traits| ==> Traits[i] != Traits[j]
    ensures forall t1, t2 :: Key(t1) == Key(t2) ==> t1 == t2
  {
    AllTraitsListed();
  }

  lemma AllTraitsListed()
    ensures forall t :: t in Traits
  {
    forall t ensures t in Traits {
      match t
      case Extraversion => assert Traits[0] == t;
      case Agreeableness => assert Traits[1] == t;
      case Conscientiousness => assert Traits[2] == t;
      case Emotionality => assert Traits[3] == t;
      case Openness => assert Traits[4] == t;
      case HonestyHumility => assert Traits[5] == t;
      case Curiosity => assert Traits[6] == t;
    }
  }
}
