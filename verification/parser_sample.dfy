/** The recogniser applied to text in the shape the questionnaire prompt asks
    for: one "N. SCORE: D" line per item followed by a TRAITS block. Proves
    that such text is read back exactly, and works the sample response of the
    parser's test script through parsing and scoring. */
module ParserSample {

  import opened Wrappers
  import opened Constants
  import opened Scorer
  import opened PersonalityParser

  /** A single decimal digit value. */
  type Digit = d: int | 0 <= d <= 9

  /** A valid questionnaire answer. */
  type Answer = d: Digit | 1 <= d <= 5 witness 1

  function DigitChar(d: Digit): (c: char)
    ensures IsDigit(c) && DigitValue(c) == d
  {
    ('0' as int + d) as char
  }

  /** The decimal numeral of n, without leading zeros. */
  function Decimal(n: nat): (s: string)
    ensures |s| > 0
    ensures forall i :: 0 <= i < |s| ==> IsDigit(s[i])
  {
    if n < 10 then [DigitChar(n)] else Decimal(n / 10) + [DigitChar(n % 10)]
  }

  /** Reading a numeral back gives the number written. */
  lemma {:induction false} DecimalRoundTrip(n: nat)
    ensures DigitsValue(Decimal(n)) == n
  {
    if n >= 10 {
      DecimalRoundTrip(n / 10);
      assert Decimal(n)[..|Decimal(n)| - 1] == Decimal(n / 10);
    }
  }

  /** One item line as the prompt asks for it, without its line break. */
  function ScoreLine(n: nat, d: Digit): string {
    Decimal(n) + ". SCORE: " + [DigitChar(d)]
  }

  lemma {:induction false} DigitRunStopsAt(ds: string, t: string)
    requires forall i :: 0 <= i < |ds| ==> IsDigit(ds[i])
    requires t != [] && !IsDigit(t[0])
    ensures DigitRun(ds + t) == |ds|
  {
    if ds != [] {
      assert (ds + t)[1..] == ds[1..] + t;
      DigitRunStopsAt(ds[1..], t);
    }
  }

  lemma SpaceRunOne(t: string)
    requires |t| >= 2 && IsSpace(t[0]) && !IsSpace(t[1])
    ensures SpaceRun(t) == 1
  {
    assert t[1..][0] == t[1];
  }

  /** The part of an item line after its numeral. */
  lemma ScoreLineTail(c: char, rest: string)
    requires IsDigit(c)
    ensures var tail := ". SCORE: " + [c] + rest;
      && tail[0] == '.'
      && SpaceRun(tail[1..]) == 1
      && tail[2..8] == "SCORE:"
      && SpaceRun(tail[8..]) == 1
      && tail[9] == c
      && |tail| == 10 + |rest|
  {
    var tail := ". SCORE: " + [c] + rest;
    assert tail[1..][0] == ' ' && tail[1..][1] == 'S';
    SpaceRunOne(tail[1..]);
    assert tail[8..][0] == ' ' && tail[8..][1] == c;
    SpaceRunOne(tail[8..]);
  }

  /** Dropping a prefix and then j more characters. */
  lemma DropAfterPrefix(p: string, t: string, j: nat)
    requires j <= |t|
    ensures (p + t)[|p| + j..] == t[j..]
  {
  }

  /** The facts about a numeral followed by the rest of an item line that the
      single-spaced match needs. */
  lemma NumeralThenTailShape(ds: string, tail: string, c: char)
    requires ds != [] && forall i :: 0 <= i < |ds| ==> IsDigit(ds[i])
    requires |tail| >= 10 && tail[0] == '.' && tail[9] == c && IsDigit(c)
    requires SpaceRun(tail[1..]) == 1 && tail[2..8] == "SCORE:" && SpaceRun(tail[8..]) == 1
    ensures var s, k := ds + tail, |ds|;
      && DigitRun(s) == k && k + 10 <= |s| && s[k] == '.' && s[..k] == ds
      && SpaceRun(s[k + 1..]) == 1 && s[k + 2..k + 8] == "SCORE:"
      && SpaceRun(s[k + 8..]) == 1 && s[k + 9] == c
  {
    var s := ds + tail;
    var k := |ds|;
    DigitRunStopsAt(ds, tail);
    DropAfterPrefix(ds, tail, 1);
    DropAfterPrefix(ds, tail, 8);
    assert s[k + 2..k + 8] == tail[2..8];
    assert s[..k] == ds;
  }

  /** A numeral followed by text shaped like the rest of an item line is one
      match covering the numeral and the ten characters after it. */
  lemma NumeralThenTail(ds: string, tail: string, c: char)
    requires ds != [] && forall i :: 0 <= i < |ds| ==> IsDigit(ds[i])
    requires |tail| >= 10 && tail[0] == '.' && tail[9] == c && IsDigit(c)
    requires SpaceRun(tail[1..]) == 1 && tail[2..8] == "SCORE:" && SpaceRun(tail[8..]) == 1
    ensures ScoreMatchAt(ds + tail) == Some((ScoreMatch(DigitsValue(ds), DigitValue(c)), |ds| + 10))
  {
    NumeralThenTailShape(ds, tail, c);
    SingleSpacedNumeral(ds + tail, |ds|, ds, c);
  }

  /** The single-spaced match, stated for a known numeral and score digit. */
  lemma SingleSpacedNumeral(s: string, k: nat, ds: string, c: char)
    requires 0 < k && DigitRun(s) == k && k + 10 <= |s| && s[k] == '.' && s[..k] == ds
    requires SpaceRun(s[k + 1..]) == 1 && s[k + 2..k + 8] == "SCORE:"
    requires SpaceRun(s[k + 8..]) == 1 && s[k + 9] == c && IsDigit(c)
    ensures ScoreMatchAt(s) == Some((ScoreMatch(DigitsValue(ds), DigitValue(c)), k + 10))
  {
    ScoreMatchAtSingleSpaced(s, k);
  }

  /** An item line is recognised as one match that covers exactly that line. */
  lemma ScoreLineMatch(n: nat, d: Digit, rest: string)
    ensures ScoreMatchAt(ScoreLine(n, d) + rest) == Some((ScoreMatch(n, d), |ScoreLine(n, d)|))
  {
    var ds := Decimal(n);
    var c := DigitChar(d);
    var tail := ". SCORE: " + [c] + rest;
    assert ScoreLine(n, d) + rest == ds + tail;
    ScoreLineTail(c, rest);
    NumeralThenTail(ds, tail, c);
    DecimalRoundTrip(n);
  }

  /** The item lines for a list of (item, answer) pairs, each ending in a line break. */
  function RenderScores(ps: seq<(nat, Digit)>): string {
    if ps == [] then [] else ScoreLine(ps[0].0, ps[0].1) + "\n" + RenderScores(ps[1..])
  }

  function AsMatches(ps: seq<(nat, Digit)>): (ms: seq<ScoreMatch>)
    ensures |ms| == |ps|
    ensures forall i :: 0 <= i < |ps| ==> ms[i] == ScoreMatch(ps[i].0, ps[i].1)
  {
    if ps == [] then [] else [ScoreMatch(ps[0].0, ps[0].1)] + AsMatches(ps[1..])
  }

  /** Rendered item lines are recognised as exactly the pairs they were rendered
      from, in order, whatever text follows them. */
  lemma {:induction false} RenderScoresRoundTrip(ps: seq<(nat, Digit)>, rest: string)
    ensures ScoreMatches(RenderScores(ps) + rest) == AsMatches(ps) + ScoreMatches(rest)
  {
    if ps == [] {
      assert RenderScores(ps) + rest == rest;
      assert AsMatches(ps) + ScoreMatches(rest) == ScoreMatches(rest);
    } else {
      var tail := RenderScores(ps[1..]) + rest;
      var m := ScoreMatch(ps[0].0, ps[0].1);
      RenderScoresUnfold(ps, rest);
      ScoreLineThenBreak(ps[0].0, ps[0].1, tail);
      assert ScoreMatches(RenderScores(ps) + rest) == [m] + ScoreMatches(tail);
      RenderScoresRoundTrip(ps[1..], rest);
      AsMatchesUnfold(ps, ScoreMatches(rest));
    }
  }

  lemma RenderScoresUnfold(ps: seq<(nat, Digit)>, rest: string)
    requires ps != []
    ensures RenderScores(ps) + rest == ScoreLine(ps[0].0, ps[0].1) + "\n" + (RenderScores(ps[1..]) + rest)
  {
  }

  lemma AsMatchesUnfold(ps: seq<(nat, Digit)>, more: seq<ScoreMatch>)
    requires ps != []
    ensures AsMatches(ps) + more == [ScoreMatch(ps[0].0, ps[0].1)] + (AsMatches(ps[1..]) + more)
  {
  }

  /** An item line and its line break yield one match, and the scan resumes on
      the next line. */
  lemma ScoreLineThenBreak(n: nat, d: Digit, tail: string)
    ensures ScoreMatches(ScoreLine(n, d) + "\n" + tail) == [ScoreMatch(n, d)] + ScoreMatches(tail)
  {
    var line := ScoreLine(n, d);
    var rest := "\n" + tail;
    var s := line + rest;
    assert line + "\n" + tail == s;
    ScoreLineMatch(n, d, rest);
    ScoreMatchesTake(s, ScoreMatch(n, d), |line|);
    assert s[|line|..] == rest;
    SkipNonDigit('\n', tail);
  }

  /** A character that is not a digit starts no item match. */
  lemma SkipNonDigit(c: char, rest: string)
    requires !IsDigit(c)
    ensures ScoreMatches([c] + rest) == ScoreMatches(rest)
  {
    var s := [c] + rest;
    assert ScoreMatchAt(s) == None;
    ScoreMatchesSkip(s);
    assert s[1..] == rest;
  }

  /** Text without ASCII digits holds no item match. */
  lemma {:induction false} NoDigitsNoScores(s: string)
    requires forall i :: 0 <= i < |s| ==> !IsDigit(s[i])
    ensures ScoreMatches(s) == []
  {
    if s != [] {
      assert s == [s[0]] + s[1..];
      SkipNonDigit(s[0], s[1..]);
      NoDigitsNoScores(s[1..]);
    }
  }

  /** The characters a trait label can start with. */
  predicate LabelInitial(c: char) {
    c == '誠' || c == '情' || c == '外' || c == '協' || c == '開' || c == '好'
  }

  /** Every label starts with one of the initials above. */
  lemma LabelStartsWithInitial(t: Trait)
    ensures |Label(t)| == 3 && LabelInitial(Label(t)[0])
  {
    match t
    case HonestyHumility =>
    case Emotionality =>
    case Extraversion =>
    case Agreeableness =>
    case Conscientiousness =>
    case Openness =>
    case Curiosity =>
  }

  /** No label starts at a character that is no label's initial. */
  lemma NoLabelAt(s: seq<char>)
    requires s != [] && !LabelInitial(s[0])
    ensures LabelAt(s).None?
  {
    forall t ensures !(|s| >= 3 && s[..3] == Label(t)) {
      LabelStartsWithInitial(t);
      if |s| >= 3 {
        assert s[..3][0] == s[0];
      }
    }
  }

  /** The trait scan steps over a leading character that starts no label. */
  lemma SkipNonInitial(pre: string, rest: string)
    requires pre != [] && !LabelInitial(pre[0])
    ensures TraitMatches(pre + rest) == TraitMatches(pre[1..] + rest)
  {
    var s := pre + rest;
    assert s[0] == pre[0];
    NoLabelAt(s);
    TraitMatchesSkip(s);
    assert s[1..] == pre[1..] + rest;
  }

  /** Text in which no label starts contributes no trait match, even as a prefix. */
  lemma {:induction false} NoLabelsNoTraits(pre: string, rest: string)
    requires forall i :: 0 <= i < |pre| ==> !LabelInitial(pre[i])
    ensures TraitMatches(pre + rest) == TraitMatches(rest)
  {
    if pre == [] {
      assert pre + rest == rest;
    } else {
      SkipNonInitial(pre, rest);
      assert forall i :: 0 <= i < |pre[1..]| ==> pre[1..][i] == pre[i + 1];
      NoLabelsNoTraits(pre[1..], rest);
    }
  }

  /** Text that stays on one line and in which no HIGH or LOW can start. */
  predicate PlainFiller(f: string) {
    forall i {:trigger f[i]} :: 0 <= i < |f| ==>
      && !IsLineTerminator(f[i])
      && (f[i] == 'H' || f[i] == 'L' ==> i + 1 < |f| && f[i + 1] != 'I' && f[i + 1] != 'O')
  }

  /** The lazy search skips plain filler and stops at the level word after it. */
  lemma {:induction false} LevelSearchSkipsFiller(f: string, l: Level, rest: string)
    requires PlainFiller(f)
    ensures LevelSearch(f + LevelWord(l) + rest) == Some((l, |f| + |LevelWord(l)|))
  {
    var s := f + LevelWord(l) + rest;
    if f == [] {
      assert s == LevelWord(l) + rest;
      LevelSearchAtWord(l, rest);
    } else {
      PlainFillerTail(f);
      assert s[0] == f[0];
      if f[0] == 'H' || f[0] == 'L' {
        assert s[1] == f[1];
      }
      assert !StartsLevel(s);
      assert s[1..] == f[1..] + LevelWord(l) + rest;
      LevelSearchSkipsFiller(f[1..], l, rest);
      LevelSearchStep(s);
    }
  }

  /** The lazy search stops at a level word at the start. */
  lemma LevelSearchAtWord(l: Level, rest: string)
    ensures LevelSearch(LevelWord(l) + rest) == Some((l, |LevelWord(l)|))
  {
    var s := LevelWord(l) + rest;
    match l
    case High =>
      assert s[..4] == "HIGH";
    case Low =>
      assert s[..3] == "LOW";
      assert s[0] == 'L';
  }

  /** Plain filler stays plain once its first character is dropped. */
  lemma PlainFillerTail(f: string)
    requires f != [] && PlainFiller(f)
    ensures !IsLineTerminator(f[0]) && PlainFiller(f[1..])
    ensures f[0] == 'H' || f[0] == 'L' ==> 1 < |f| && f[1] != 'I' && f[1] != 'O'
  {
    forall i | 0 <= i < |f[1..]| ensures !IsLineTerminator(f[1..][i]) {
      assert f[1..][i] == f[i + 1];
    }
    forall i | 0 <= i < |f[1..]| && (f[1..][i] == 'H' || f[1..][i] == 'L')
      ensures i + 1 < |f[1..]| && f[1..][i + 1] != 'I' && f[1..][i + 1] != 'O'
    {
      assert f[1..][i] == f[i + 1];
      assert 0 <= i + 1 < |f| && (f[i + 1] == 'H' || f[i + 1] == 'L');
      assert i + 2 < |f| && f[i + 2] != 'I' && f[i + 2] != 'O';
      assert f[1..][i + 1] == f[i + 2];
    }
  }

  /** One line of the TRAITS block: label, filler, level word. */
  function TraitLine(t: Trait, f: string, l: Level): string {
    Label(t) + f + LevelWord(l)
  }

  /** A TRAITS line is recognised as one match naming its trait and level. */
  lemma TraitLineMatch(t: Trait, f: string, l: Level, rest: string)
    requires PlainFiller(f)
    ensures TraitMatches(TraitLine(t, f, l) + rest) == [TraitMatch(t, l)] + TraitMatches(rest)
  {
    var s := TraitLine(t, f, l) + rest;
    var after := f + LevelWord(l) + rest;
    assert |Label(t)| == 3 by {
      match t
      case HonestyHumility =>
      case Emotionality =>
      case Extraversion =>
      case Agreeableness =>
      case Conscientiousness =>
      case Openness =>
      case Curiosity =>
    }
    assert s == Label(t) + after;
    assert s[..3] == Label(t);
    assert LabelAt(s) == Some(t) by {
      match t
      case HonestyHumility =>
      case Emotionality =>
      case Extraversion =>
      case Agreeableness =>
      case Conscientiousness =>
      case Openness =>
      case Curiosity =>
    }
    assert s[3..] == after;
    LevelSearchSkipsFiller(f, l, rest);
    assert s[3 + |f| + |LevelWord(l)|..] == rest;
  }

  /** The sample response's answers to each trait's items, in item order. */
  function SampleBlock(t: Trait): (b: seq<Answer>)
    ensures |b| == |TraitQuestions(t)|
  {
    match t
    case Extraversion => [3, 4, 3, 2, 4, 2, 3, 3, 4, 2]
    case Agreeableness => [4, 2, 4, 2, 5, 1, 4, 1, 5, 4]
    case Conscientiousness => [4, 2, 4, 2, 4, 2, 5, 1, 4, 4]
    case Emotionality => [2, 4, 2, 4, 3, 2, 2, 3, 4, 2]
    case Openness => [4, 2, 4, 1, 4, 2, 4, 3, 4, 4]
    case HonestyHumility => [1, 1, 1]
    case Curiosity => [5, 4, 4, 5, 4, 5, 4]
  }

  /** The answers of the sample response, item 1 first. */
  const SampleAnswers: seq<Answer> :=
    SampleBlock(Extraversion) + SampleBlock(Agreeableness) + SampleBlock(Conscientiousness)
    + SampleBlock(Emotionality) + SampleBlock(Openness) + SampleBlock(HonestyHumility)
    + SampleBlock(Curiosity)

  function Numbered(answers: seq<Digit>, from: nat): (ps: seq<(nat, Digit)>)
    ensures |ps| == |answers|
    ensures forall i :: 0 <= i < |ps| ==> ps[i] == (from + i, answers[i])
  {
    if answers == [] then [] else [(from, answers[0])] + Numbered(answers[1..], from + 1)
  }

  const SamplePairs: seq<(nat, Digit)> := Numbered(SampleAnswers, 1)

  /** A TRAITS block: one line per (trait, filler, level) row. */
  function RenderTraits(rows: seq<(Trait, string, Level)>): string {
    if rows == [] then [] else TraitLine(rows[0].0, rows[0].1, rows[0].2) + "\n" + RenderTraits(rows[1..])
  }

  function RowMatches(rows: seq<(Trait, string, Level)>): (ms: seq<TraitMatch>)
    ensures |ms| == |rows|
    ensures forall i :: 0 <= i < |rows| ==> ms[i] == TraitMatch(rows[i].0, rows[i].2)
  {
    if rows == [] then [] else [TraitMatch(rows[0].0, rows[0].2)] + RowMatches(rows[1..])
  }

  /** The text between label and level on each line of the sample's TRAITS block. */
  const Filler0: string := "・謙虚さ (" + "Honesty-" + "Humility" + "): "
  const Filler1: string := " (Emoti" + "onality): "
  const Filler2: string := " (Extra" + "version): "
  const Filler3: string := " (Agree" + "ableness): "
  const Filler4: string := " (Consci" + "entious" + "ness): "
  const Filler5: string := " (Openness" + " to Expe" + "rience): "
  const Filler6: string := "（Curiosity" + " ※Openness" + "のサブ因子）: "

  /** The rows of the sample's TRAITS block. */
  const SampleTraitRows: seq<(Trait, string, Level)> :=
    [ (HonestyHumility, Filler0, High),
      (Emotionality, Filler1, Low),
      (Extraversion, Filler2, High),
      (Agreeableness, Filler3, High),
      (Conscientiousness, Filler4, High),
      (Openness, Filler5, High),
      (Curiosity, Filler6, High) ]

  /** The whole sample response. */
  const SampleText: string := Response(SamplePairs, SampleTraitRows)

  /** Every character is ASCII. */
  predicate Ascii(s: string) {
    forall i :: 0 <= i < |s| ==> s[i] as int < 128
  }

  lemma AsciiConcat(a: string, b: string)
    requires Ascii(a) && Ascii(b)
    ensures Ascii(a + b)
  {
    assert forall i :: 0 <= i < |a + b| ==> (a + b)[i] == if i < |a| then a[i] else b[i - |a|];
  }

  /** Rendered item lines are plain ASCII, so no trait label occurs in them. */
  lemma {:induction false} RenderScoresAscii(ps: seq<(nat, Digit)>)
    ensures Ascii(RenderScores(ps))
  {
    if ps != [] {
      RenderScoresAscii(ps[1..]);
      DecimalAscii(ps[0].0);
      AsciiConcat(". SCORE: ", [DigitChar(ps[0].1)]);
      AsciiConcat(Decimal(ps[0].0), ". SCORE: " + [DigitChar(ps[0].1)]);
      AsciiConcat(ScoreLine(ps[0].0, ps[0].1), "\n");
      AsciiConcat(ScoreLine(ps[0].0, ps[0].1) + "\n", RenderScores(ps[1..]));
    }
  }

  lemma {:induction false} DecimalAscii(n: nat)
    ensures Ascii(Decimal(n))
  {
    if n >= 10 {
      DecimalAscii(n / 10);
      AsciiConcat(Decimal(n / 10), [DigitChar(n % 10)]);
    }
  }

  /** Numbered answers, collected: item q gets the q-th answer. */
  lemma NumberedScores(answers: seq<Digit>)
    requires forall i :: 0 <= i < |answers| ==> 1 <= answers[i] <= 5
    requires |answers| <= TotalQuestions
    ensures var scores := CollectScores(AsMatches(Numbered(answers, 1)));
      forall q :: 1 <= q <= |answers| ==> q in scores && scores[q] == answers[q - 1]
  {
    var ps := Numbered(answers, 1);
    var ms := AsMatches(ps);
    NumberedFields(answers, ps);
    AsMatchesFields(ps, ms);
    CollectAnswers(answers, ms);
  }

  /** Matches numbering the answers 1, 2, ..., collected: item q gets the q-th answer. */
  lemma CollectAnswers(answers: seq<Digit>, ms: seq<ScoreMatch>)
    requires |ms| == |answers| <= TotalQuestions
    requires forall k :: 0 <= k < |ms| ==> ms[k].item == k + 1 && ms[k].score == answers[k]
    requires forall i :: 0 <= i < |answers| ==> 1 <= answers[i] <= 5
    ensures forall q :: 1 <= q <= |answers| ==> q in CollectScores(ms) && CollectScores(ms)[q] == answers[q - 1]
  {
    CollectNumbered(ms);
  }

  /** Matches numbered 1, 2, ..., collected: item q gets the q-th score. */
  lemma CollectNumbered(ms: seq<ScoreMatch>)
    requires |ms| <= TotalQuestions
    requires forall k :: 0 <= k < |ms| ==> ms[k].item == k + 1 && 1 <= ms[k].score <= 5
    ensures forall q :: 1 <= q <= |ms| ==> q in CollectScores(ms) && CollectScores(ms)[q] == ms[q - 1].score
  {
    forall q | 1 <= q <= |ms|
      ensures q in CollectScores(ms) && CollectScores(ms)[q] == ms[q - 1].score
    {
      NumberedScoreAt(ms, q - 1);
    }
  }

  /** In matches numbered 1, 2, ... the score of item j+1 is that of match j. */
  lemma NumberedScoreAt(ms: seq<ScoreMatch>, j: int)
    requires 0 <= j < |ms| <= TotalQuestions
    requires forall k :: 0 <= k < |ms| ==> ms[k].item == k + 1 && 1 <= ms[k].score <= 5
    ensures j + 1 in CollectScores(ms) && CollectScores(ms)[j + 1] == ms[j].score
  {
    forall k | j < k < |ms| && Accepted(ms[k]) ensures ms[k].item != ms[j].item {
    }
    CollectScoresLastWins(ms, j);
  }

  /** Field by field, the matches are the pairs they were made from. */
  lemma AsMatchesFields(ps: seq<(nat, Digit)>, ms: seq<ScoreMatch>)
    requires ms == AsMatches(ps)
    ensures |ms| == |ps|
    ensures forall k :: 0 <= k < |ms| ==> ms[k].item == ps[k].0 && ms[k].score == ps[k].1
  {
  }

  /** Numbering from 1: pair k holds item k+1 and the k-th answer. */
  lemma NumberedFields(answers: seq<Digit>, ps: seq<(nat, Digit)>)
    requires ps == Numbered(answers, 1)
    ensures |ps| == |answers|
    ensures forall k :: 0 <= k < |ps| ==> ps[k].0 == k + 1 && ps[k].1 == answers[k]
  {
  }

  predicate NoDigits(s: string) {
    forall i :: 0 <= i < |s| ==> !IsDigit(s[i])
  }

  lemma NoDigitsConcat(a: string, b: string)
    requires NoDigits(a) && NoDigits(b)
    ensures NoDigits(a + b)
  {
    assert forall i :: 0 <= i < |a + b| ==> (a + b)[i] == if i < |a| then a[i] else b[i - |a|];
  }

  /** A TRAITS block whose fillers hold no digit holds no digit. */
  lemma {:induction false} RenderTraitsNoDigits(rows: seq<(Trait, string, Level)>)
    requires forall i :: 0 <= i < |rows| ==> NoDigits(rows[i].1)
    ensures NoDigits(RenderTraits(rows))
  {
    if rows != [] {
      var t := rows[0].0;
      var l := rows[0].2;
      assert NoDigits(Label(t)) by {
        match t
        case HonestyHumility =>
        case Emotionality =>
        case Extraversion =>
        case Agreeableness =>
        case Conscientiousness =>
        case Openness =>
        case Curiosity =>
      }
      assert NoDigits(LevelWord(l) + "\n") by {
        match l
        case High =>
        case Low =>
      }
      RenderTraitsNoDigits(rows[1..]);
      NoDigitsConcat(Label(t), rows[0].1);
      NoDigitsConcat(Label(t) + rows[0].1, LevelWord(l) + "\n");
      assert TraitLine(t, rows[0].1, l) + "\n" == Label(t) + rows[0].1 + (LevelWord(l) + "\n");
      NoDigitsConcat(TraitLine(t, rows[0].1, l) + "\n", RenderTraits(rows[1..]));
    }
  }

  /** A TRAITS block is recognised as exactly its rows' (trait, level) pairs, in
      order, whatever text follows it. */
  lemma {:induction false} RenderTraitsRoundTrip(rows: seq<(Trait, string, Level)>, rest: string)
    requires forall i :: 0 <= i < |rows| ==> PlainFiller(rows[i].1)
    ensures TraitMatches(RenderTraits(rows) + rest) == RowMatches(rows) + TraitMatches(rest)
  {
    if rows == [] {
      assert RenderTraits(rows) + rest == rest;
      assert RowMatches(rows) + TraitMatches(rest) == TraitMatches(rest);
    } else {
      var tail := RenderTraits(rows[1..]) + rest;
      RenderTraitsUnfold(rows, rest);
      TraitLineMatch(rows[0].0, rows[0].1, rows[0].2, "\n" + tail);
      NoLabelsNoTraits("\n", tail);
      RenderTraitsRoundTrip(rows[1..], rest);
      RowMatchesUnfold(rows, TraitMatches(rest));
    }
  }

  lemma RenderTraitsUnfold(rows: seq<(Trait, string, Level)>, rest: string)
    requires rows != []
    ensures RenderTraits(rows) + rest
         == TraitLine(rows[0].0, rows[0].1, rows[0].2) + ("\n" + (RenderTraits(rows[1..]) + rest))
  {
  }

  lemma RowMatchesUnfold(rows: seq<(Trait, string, Level)>, more: seq<TraitMatch>)
    requires rows != []
    ensures RowMatches(rows) + more == [TraitMatch(rows[0].0, rows[0].2)] + (RowMatches(rows[1..]) + more)
  {
  }

  /** Text fit to be a filler: no digit, and plain in the sense above. */
  predicate Clean(s: string) {
    NoDigits(s) && PlainFiller(s)
  }

  /** Fillers can be checked piece by piece: a plain piece never ends in an H
      or L, so joining two pieces creates no HIGH or LOW. */
  lemma CleanConcat(a: string, b: string)
    requires Clean(a) && Clean(b)
    ensures Clean(a + b)
  {
    NoDigitsConcat(a, b);
    var s := a + b;
    forall i | 0 <= i < |s|
      ensures !IsLineTerminator(s[i])
      ensures s[i] == 'H' || s[i] == 'L' ==> i + 1 < |s| && s[i + 1] != 'I' && s[i + 1] != 'O'
    {
      if i < |a| {
        assert s[i] == a[i];
        if a[i] == 'H' || a[i] == 'L' {
          assert s[i + 1] == a[i + 1];
        }
      } else {
        assert s[i] == b[i - |a|];
        if b[i - |a|] == 'H' || b[i - |a|] == 'L' {
          assert s[i + 1] == b[i + 1 - |a|];
        }
      }
    }
  }

  lemma Filler0Plain()
    ensures NoDigits(Filler0) && PlainFiller(Filler0)
  {
    assert Clean("・謙虚さ (");
    assert Clean("Honesty-");
    assert Clean("Humility");
    assert Clean("): ");
    CleanConcat("・謙虚さ (", "Honesty-");
    CleanConcat("・謙虚さ (" + "Honesty-", "Humility");
    CleanConcat("・謙虚さ (" + "Honesty-" + "Humility", "): ");
  }

  lemma Filler1Plain()
    ensures NoDigits(Filler1) && PlainFiller(Filler1)
  {
    assert Clean(" (Emoti");
    assert Clean("onality): ");
    CleanConcat(" (Emoti", "onality): ");
  }

  lemma Filler2Plain()
    ensures NoDigits(Filler2) && PlainFiller(Filler2)
  {
    assert Clean(" (Extra");
    assert Clean("version): ");
    CleanConcat(" (Extra", "version): ");
  }

  lemma Filler3Plain()
    ensures NoDigits(Filler3) && PlainFiller(Filler3)
  {
    assert Clean(" (Agree");
    assert Clean("ableness): ");
    CleanConcat(" (Agree", "ableness): ");
  }

  lemma Filler4Plain()
    ensures NoDigits(Filler4) && PlainFiller(Filler4)
  {
    assert Clean(" (Consci");
    assert Clean("entious");
    assert Clean("ness): ");
    CleanConcat(" (Consci", "entious");
    CleanConcat(" (Consci" + "entious", "ness): ");
  }

  lemma Filler5Plain()
    ensures NoDigits(Filler5) && PlainFiller(Filler5)
  {
    assert Clean(" (Openness");
    assert Clean(" to Expe");
    assert Clean("rience): ");
    CleanConcat(" (Openness", " to Expe");
    CleanConcat(" (Openness" + " to Expe", "rience): ");
  }

  lemma Filler6Plain()
    ensures NoDigits(Filler6) && PlainFiller(Filler6)
  {
    assert Clean("（Curiosity");
    assert Clean(" ※Openness");
    assert Clean("のサブ因子）: ");
    CleanConcat("（Curiosity", " ※Openness");
    CleanConcat("（Curiosity" + " ※Openness", "のサブ因子）: ");
  }

  /** Each filler of the sample's TRAITS block holds no digit and no HIGH or LOW. */
  lemma SampleFillersPlain()
    ensures forall i :: 0 <= i < |SampleTraitRows| ==> NoDigits(SampleTraitRows[i].1)
    ensures forall i :: 0 <= i < |SampleTraitRows| ==> PlainFiller(SampleTraitRows[i].1)
  {
    Filler0Plain();
    Filler1Plain();
    Filler2Plain();
    Filler3Plain();
    Filler4Plain();
    Filler5Plain();
    Filler6Plain();
  }

  /** A response made of a line break, item lines, and a TRAITS block. */
  function Response(ps: seq<(nat, Digit)>, rows: seq<(Trait, string, Level)>): string {
    "\n" + RenderScores(ps) + "\nTRAITS:\n" + RenderTraits(rows)
  }

  /** The item scan over such a response finds exactly its item lines, in order. */
  lemma {:induction false} ResponseScoreMatches(ps: seq<(nat, Digit)>, rows: seq<(Trait, string, Level)>)
    requires forall i :: 0 <= i < |rows| ==> NoDigits(rows[i].1)
    ensures ScoreMatches(Response(ps, rows)) == AsMatches(ps)
  {
    var tail := "\nTRAITS:\n" + RenderTraits(rows);
    var lines := RenderScores(ps);
    assert Response(ps, rows) == ['\n'] + (lines + tail);
    SkipNonDigit('\n', lines + tail);
    RenderScoresRoundTrip(ps, tail);
    TraitsBlockNoScores(rows);
    assert AsMatches(ps) + [] == AsMatches(ps);
  }

  lemma HeaderNoDigits()
    ensures NoDigits("\nTRAITS:\n")
  {
  }

  /** No item match is found in a TRAITS block whose fillers hold no digit. */
  lemma TraitsBlockNoScores(rows: seq<(Trait, string, Level)>)
    requires forall i :: 0 <= i < |rows| ==> NoDigits(rows[i].1)
    ensures ScoreMatches("\nTRAITS:\n" + RenderTraits(rows)) == []
  {
    RenderTraitsNoDigits(rows);
    HeaderNoDigits();
    NoDigitsConcat("\nTRAITS:\n", RenderTraits(rows));
    NoDigitsNoScores("\nTRAITS:\n" + RenderTraits(rows));
  }

  /** ASCII text holds no first character of a trait label. */
  lemma AsciiNoLabels(s: string)
    requires Ascii(s)
    ensures forall i :: 0 <= i < |s| ==> !LabelInitial(s[i])
  {
  }

  /** The trait scan over such a response finds exactly its TRAITS rows, in order. */
  lemma {:induction false} ResponseTraitMatches(ps: seq<(nat, Digit)>, rows: seq<(Trait, string, Level)>)
    requires forall i :: 0 <= i < |rows| ==> PlainFiller(rows[i].1)
    ensures TraitMatches(Response(ps, rows)) == RowMatches(rows)
  {
    var pre := "\n" + RenderScores(ps) + "\nTRAITS:\n";
    RenderScoresAscii(ps);
    AsciiConcat("\n", RenderScores(ps));
    AsciiConcat("\n" + RenderScores(ps), "\nTRAITS:\n");
    AsciiNoLabels(pre);
    NoLabelsNoTraits(pre, RenderTraits(rows));
    RenderTraitsAlone(rows);
  }

  /** A TRAITS block on its own is recognised as exactly its rows. */
  lemma RenderTraitsAlone(rows: seq<(Trait, string, Level)>)
    requires forall i :: 0 <= i < |rows| ==> PlainFiller(rows[i].1)
    ensures TraitMatches(RenderTraits(rows)) == RowMatches(rows)
  {
    RenderTraitsRoundTrip(rows, []);
    assert RenderTraits(rows) + [] == RenderTraits(rows);
  }

  /** The level the sample's TRAITS block gives each trait. */
  function SampleLevel(t: Trait): Level {
    if t == Emotionality then Low else High
  }

  /** Collecting the sample's TRAITS rows gives every trait its listed level. */
  lemma SampleRowLevels()
    ensures forall t :: Key(t) in CollectTraits(RowMatches(SampleTraitRows))
    ensures forall t :: CollectTraits(RowMatches(SampleTraitRows))[Key(t)] == SampleLevel(t)
  {
    var ms := RowMatches(SampleTraitRows);
    var order := [HonestyHumility, Emotionality, Extraversion, Agreeableness, Conscientiousness, Openness, Curiosity];
    assert forall j :: 0 <= j < 7 ==> ms[j] == TraitMatch(order[j], SampleLevel(order[j]));
    forall t ensures Key(t) in CollectTraits(ms) && CollectTraits(ms)[Key(t)] == SampleLevel(t) {
      var j := match t
        case HonestyHumility => 0
        case Emotionality => 1
        case Extraversion => 2
        case Agreeableness => 3
        case Conscientiousness => 4
        case Openness => 5
        case Curiosity => 6;
      assert ms[j].which == t;
      CollectTraitsLastWins(ms, j);
    }
  }

  lemma SampleAnswersCount()
    ensures |SampleAnswers| == TotalQuestions
  {
  }

  /** Rendering sixty valid answers and a TRAITS block, then parsing, gives back
      each answer under its item number and the block's levels. */
  lemma {:induction false} ParseRoundTrip(answers: seq<Answer>, rows: seq<(Trait, string, Level)>)
    requires |answers| == TotalQuestions
    requires forall i :: 0 <= i < |rows| ==> NoDigits(rows[i].1) && PlainFiller(rows[i].1)
    ensures ParsePersonalityResponse(Response(Numbered(answers, 1), rows)).Success?
    ensures forall q :: 1 <= q <= TotalQuestions ==>
      ParsePersonalityResponse(Response(Numbered(answers, 1), rows)).value.scores[q] == answers[q - 1]
    ensures ParsePersonalityResponse(Response(Numbered(answers, 1), rows)).value.traits
         == CollectTraits(RowMatches(rows))
  {
    ResponseScores(answers, rows);
    ResponseTraitMatches(Numbered(answers, 1), rows);
  }

  /** The scores collected from such a response: item q holds the q-th answer. */
  lemma {:induction false} ResponseScores(answers: seq<Answer>, rows: seq<(Trait, string, Level)>)
    requires |answers| == TotalQuestions
    requires forall i :: 0 <= i < |rows| ==> NoDigits(rows[i].1)
    ensures var scores := CollectScores(ScoreMatches(Response(Numbered(answers, 1), rows)));
      forall q :: 1 <= q <= TotalQuestions ==> q in scores && scores[q] == answers[q - 1]
    ensures AllItems <= CollectScores(ScoreMatches(Response(Numbered(answers, 1), rows))).Keys
  {
    NumberedScores(answers);
    ResponseScoreMatches(Numbered(answers, 1), rows);
    var scores := CollectScores(AsMatches(Numbered(answers, 1)));
    assert scores == CollectScores(ScoreMatches(Response(Numbered(answers, 1), rows)));
    forall q | q in AllItems ensures q in scores {
      assert 1 <= q <= TotalQuestions;
    }
  }

  /** The sample response parses: all sixty answers, item q mapped to the q-th
      listed answer, and the seven levels of its TRAITS block. */
  lemma SampleParses()
    ensures |SampleAnswers| == TotalQuestions
    ensures ParsePersonalityResponse(SampleText).Success?
    ensures forall q :: 1 <= q <= TotalQuestions ==>
      ParsePersonalityResponse(SampleText).value.scores[q] == SampleAnswers[q - 1]
    ensures forall t :: Key(t) in ParsePersonalityResponse(SampleText).value.traits
    ensures forall t :: ParsePersonalityResponse(SampleText).value.traits[Key(t)] == SampleLevel(t)
  {
    SampleAnswersCount();
    SampleFillersPlain();
    ParseRoundTrip(SampleAnswers, SampleTraitRows);
    SampleRowLevels();
  }

  /** The sample's answers after reverse correction, per trait. */
  function SampleCorrected(t: Trait): (cs: seq<int>)
    ensures |cs| == |TraitQuestions(t)|
  {
    match t
    case Extraversion => [3, 2, 3, 4, 4, 4, 3, 3, 4, 4]
    case Agreeableness => [4, 4, 4, 4, 5, 5, 4, 5, 5, 4]
    case Conscientiousness => [4, 4, 4, 4, 4, 4, 5, 5, 4, 4]
    case Emotionality => [2, 2, 2, 2, 3, 2, 2, 3, 2, 2]
    case Openness => [4, 4, 4, 5, 4, 4, 4, 3, 4, 4]
    case HonestyHumility => [5, 5, 5]
    case Curiosity => [5, 4, 4, 5, 4, 5, 4]
  }

  /** The score each trait gets from the sample answers, in tenths. */
  function SampleTenths(t: Trait): int {
    match t
    case Extraversion => 34
    case Agreeableness => 44
    case Conscientiousness => 42
    case Emotionality => 22
    case Openness => 40
    case HonestyHumility => 50
    case Curiosity => 44
  }

  /** Item number Bounds(t).0 + i holds the i-th answer of the trait's block. */
  lemma SampleBlockPlacement(t: Trait, i: int)
    requires 0 <= i < |TraitQuestions(t)|
    ensures TraitQuestions(t)[i] == Bounds(t).0 + i
    ensures SampleAnswers[Bounds(t).0 + i - 1] == SampleBlock(t)[i]
  {
    var e := SampleBlock(Extraversion);
    var a := SampleBlock(Agreeableness);
    var c := SampleBlock(Conscientiousness);
    var em := SampleBlock(Emotionality);
    var o := SampleBlock(Openness);
    var h := SampleBlock(HonestyHumility);
    var cu := SampleBlock(Curiosity);
    TraitGroupSizes();
    SevenBlocks(e, a, c, em, o, h, cu);
  }

  /** Where each of seven consecutive blocks (sizes 10, 10, 10, 10, 10, 3, 7)
      sits in their concatenation. */
  lemma SevenBlocks(e: seq<Answer>, a: seq<Answer>, c: seq<Answer>, em: seq<Answer>,
                    o: seq<Answer>, h: seq<Answer>, cu: seq<Answer>)
    requires |e| == 10 && |a| == 10 && |c| == 10 && |em| == 10 && |o| == 10 && |h| == 3 && |cu| == 7
    ensures forall i :: 0 <= i < 10 ==> (e + a + c + em + o + h + cu)[i] == e[i]
    ensures forall i :: 0 <= i < 10 ==> (e + a + c + em + o + h + cu)[10 + i] == a[i]
    ensures forall i :: 0 <= i < 10 ==> (e + a + c + em + o + h + cu)[20 + i] == c[i]
    ensures forall i :: 0 <= i < 10 ==> (e + a + c + em + o + h + cu)[30 + i] == em[i]
    ensures forall i :: 0 <= i < 10 ==> (e + a + c + em + o + h + cu)[40 + i] == o[i]
    ensures forall i :: 0 <= i < 3 ==> (e + a + c + em + o + h + cu)[50 + i] == h[i]
    ensures forall i :: 0 <= i < 7 ==> (e + a + c + em + o + h + cu)[53 + i] == cu[i]
  {
  }


  /** Reverse correction turns each trait's sample block into its corrected
      block, whose rounded mean is the listed score. */
  lemma SampleBlockMean(t: Trait)
    ensures forall i :: 0 <= i < |TraitQuestions(t)| ==>
      ReverseScore(TraitQuestions(t)[i], SampleBlock(t)[i]) == SampleCorrected(t)[i]
    ensures |TraitQuestions(t)| > 0
    ensures RoundTenths(Sum(SampleCorrected(t)), |TraitQuestions(t)|) == SampleTenths(t)
  {
    TraitGroupSizes();
    match t
    case Extraversion => ExtraversionReversed(); ExtraversionMean();
    case Agreeableness => AgreeablenessReversed(); AgreeablenessMean();
    case Conscientiousness => ConscientiousnessReversed(); ConscientiousnessMean();
    case Emotionality => EmotionalityReversed(); EmotionalityMean();
    case Openness => OpennessReversed(); OpennessMean();
    case HonestyHumility => HonestyHumilityReversed(); HonestyHumilityMean();
    case Curiosity => CuriosityReversed(); CuriosityMean();
  }

  lemma ExtraversionReversed()
    ensures forall i :: 0 <= i < 10 ==>
      ReverseScore(TraitQuestions(Extraversion)[i], SampleBlock(Extraversion)[i]) == SampleCorrected(Extraversion)[i]
  {
  }

  lemma ExtraversionMean()
    ensures RoundTenths(Sum(SampleCorrected(Extraversion)), 10) == SampleTenths(Extraversion)
  {
    assert Sum(SampleCorrected(Extraversion)) == 34;
  }

  lemma AgreeablenessReversed()
    ensures forall i :: 0 <= i < 10 ==>
      ReverseScore(TraitQuestions(Agreeableness)[i], SampleBlock(Agreeableness)[i]) == SampleCorrected(Agreeableness)[i]
  {
  }

  lemma AgreeablenessMean()
    ensures RoundTenths(Sum(SampleCorrected(Agreeableness)), 10) == SampleTenths(Agreeableness)
  {
    assert Sum(SampleCorrected(Agreeableness)) == 44;
  }

  lemma ConscientiousnessReversed()
    ensures forall i :: 0 <= i < 10 ==>
      ReverseScore(TraitQuestions(Conscientiousness)[i], SampleBlock(Conscientiousness)[i]) == SampleCorrected(Conscientiousness)[i]
  {
  }

  lemma ConscientiousnessMean()
    ensures RoundTenths(Sum(SampleCorrected(Conscientiousness)), 10) == SampleTenths(Conscientiousness)
  {
    assert Sum(SampleCorrected(Conscientiousness)) == 42;
  }

  lemma EmotionalityReversed()
    ensures forall i :: 0 <= i < 10 ==>
      ReverseScore(TraitQuestions(Emotionality)[i], SampleBlock(Emotionality)[i]) == SampleCorrected(Emotionality)[i]
  {
  }

  lemma EmotionalityMean()
    ensures RoundTenths(Sum(SampleCorrected(Emotionality)), 10) == SampleTenths(Emotionality)
  {
    assert Sum(SampleCorrected(Emotionality)) == 22;
  }

  lemma OpennessReversed()
    ensures forall i :: 0 <= i < 10 ==>
      ReverseScore(TraitQuestions(Openness)[i], SampleBlock(Openness)[i]) == SampleCorrected(Openness)[i]
  {
  }

  lemma OpennessMean()
    ensures RoundTenths(Sum(SampleCorrected(Openness)), 10) == SampleTenths(Openness)
  {
    assert Sum(SampleCorrected(Openness)) == 40;
  }

  lemma HonestyHumilityReversed()
    ensures forall i :: 0 <= i < 3 ==>
      ReverseScore(TraitQuestions(HonestyHumility)[i], SampleBlock(HonestyHumility)[i]) == SampleCorrected(HonestyHumility)[i]
  {
  }

  lemma HonestyHumilityMean()
    ensures RoundTenths(Sum(SampleCorrected(HonestyHumility)), 3) == SampleTenths(HonestyHumility)
  {
    assert Sum(SampleCorrected(HonestyHumility)) == 15;
  }

  lemma CuriosityReversed()
    ensures forall i :: 0 <= i < 7 ==>
      ReverseScore(TraitQuestions(Curiosity)[i], SampleBlock(Curiosity)[i]) == SampleCorrected(Curiosity)[i]
  {
  }

  lemma CuriosityMean()
    ensures RoundTenths(Sum(SampleCorrected(Curiosity)), 7) == SampleTenths(Curiosity)
  {
    assert Sum(SampleCorrected(Curiosity)) == 31;
  }

  /** The sample's answers recorded under their item numbers. */
  lemma SampleRecorded(t: Trait, scores: map<int, int>)
    requires forall q :: 1 <= q <= TotalQuestions ==> q in scores && scores[q] == SampleAnswers[q - 1]
    ensures forall i :: 0 <= i < |TraitQuestions(t)| ==>
      TraitQuestions(t)[i] in scores && scores[TraitQuestions(t)[i]] == SampleBlock(t)[i]
  {
    forall i | 0 <= i < |TraitQuestions(t)|
      ensures TraitQuestions(t)[i] in scores && scores[TraitQuestions(t)[i]] == SampleBlock(t)[i]
    {
      SampleBlockPlacement(t, i);
      assert 1 <= Bounds(t).0 + i <= TotalQuestions by { GroupsAreRuns(t); }
    }
  }

  /** With the sample's answers recorded, each trait scores its listed value. */
  lemma SampleTraitScore(t: Trait, scores: map<int, int>)
    requires forall q :: 1 <= q <= TotalQuestions ==> q in scores && scores[q] == SampleAnswers[q - 1]
    ensures TraitScoreOf(t, scores) == Tenths(SampleTenths(t))
  {
    SampleRecorded(t, scores);
    SampleBlockMean(t);
    CorrectedSumOf(TraitQuestions(t), SampleCorrected(t), scores);
  }

  /** The trait table of the sample response: every trait gets its listed score
      and the level its TRAITS line names. */
  lemma SampleTraitTable(t: Trait)
    ensures ParsePersonalityResponse(SampleText).Success?
    ensures var p := ParsePersonalityResponse(SampleText).value;
      CalcAllTraitScores(p.scores, p.traits)[Key(t)] == TraitScore(Tenths(SampleTenths(t)), SampleLevel(t))
  {
    SampleParses();
    var p := ParsePersonalityResponse(SampleText).value;
    TraitEntryOfSample(t, p.scores, p.traits);
  }

  lemma TraitEntryOfSample(t: Trait, scores: map<int, int>, traits: map<string, Level>)
    requires forall q :: 1 <= q <= TotalQuestions ==> q in scores && scores[q] == SampleAnswers[q - 1]
    requires Key(t) in traits && traits[Key(t)] == SampleLevel(t)
    ensures CalcAllTraitScores(scores, traits)[Key(t)] == TraitScore(Tenths(SampleTenths(t)), SampleLevel(t))
  {
    var e := CalcAllTraitScores(scores, traits)[Key(t)];
    CalcAllTraitScoresEntry(scores, traits, t);
    SampleTraitScore(t, scores);
    assert e.score == Tenths(SampleTenths(t));
    assert e.level == SampleLevel(t);
  }

  /** A response without sixty item lines is rejected. */
  lemma InvalidInputRejected()
    ensures ParsePersonalityResponse("invalid input").Failure?
  {
    var text := "invalid input";
    assert NoDigits(text);
    NoDigitsNoScores(text);
    assert CollectScores(ScoreMatches(text)) == map[];
  }
}
