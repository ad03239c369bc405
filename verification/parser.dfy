/** The recogniser that turns the language model's free text into raw item
    scores and trait levels. Both recognisers are global regular-expression
    scans: from the current position the leftmost match is taken, and the scan
    resumes right after it. Modelled here as recursion on the remaining suffix
    of the text, which is the same thing because neither pattern looks behind
    its start.

    Item pattern:  digits '.' spaces "SCORE:" spaces digit
    Trait pattern: a trait label, then the fewest characters other than a
                   line terminator, then "HIGH" or "LOW". */
module PersonalityParser {

  import opened Wrappers
  import opened Constants
  import opened Scorer

  /** `\d` of a non-Unicode regular expression: ASCII digits only. */
  predicate IsDigit(c: char) {
    '0' <= c <= '9'
  }

  function DigitValue(c: char): int
    requires IsDigit(c)
  {
    c as int - '0' as int
  }

  /** `\s`: the ECMAScript white-space and line-terminator characters. */
  predicate IsSpace(c: char) {
    c == '\t' || c == '\n' || c == '\U{000B}' || c == '\U{000C}' || c == '\r' || c == ' '
    || c == '\U{00A0}' || c == '\U{1680}' || ('\U{2000}' <= c <= '\U{200A}')
    || c == '\U{2028}' || c == '\U{2029}' || c == '\U{202F}' || c == '\U{205F}'
    || c == '\U{3000}' || c == '\U{FEFF}'
  }

  /** The characters `.` does not match. */
  predicate IsLineTerminator(c: char) {
    c == '\n' || c == '\r' || c == '\U{2028}' || c == '\U{2029}'
  }

  /** Length of the run of digits that starts s. */
  function DigitRun(s: seq<char>): (n: nat)
    ensures n <= |s|
    ensures forall i :: 0 <= i < n ==> IsDigit(s[i])
    ensures n < |s| ==> !IsDigit(s[n])
  {
    if s != [] && IsDigit(s[0]) then 1 + DigitRun(s[1..]) else 0
  }

  /** Length of the run of white space that starts s. */
  function SpaceRun(s: seq<char>): (n: nat)
    ensures n <= |s|
    ensures forall i :: 0 <= i < n ==> IsSpace(s[i])
    ensures n < |s| ==> !IsSpace(s[n])
  {
    if s != [] && IsSpace(s[0]) then 1 + SpaceRun(s[1..]) else 0
  }

  /** parseInt(ds, 10) for a string of decimal digits. */
  function DigitsValue(ds: seq<char>): nat
    requires forall i :: 0 <= i < |ds| ==> IsDigit(ds[i])
  {
    if ds == [] then 0
    else DigitsValue(ds[..|ds| - 1]) * 10 + DigitValue(ds[|ds| - 1])
  }

  /** parseInt of the run of digits that starts s. */
  function LeadingNumber(s: seq<char>): nat {
    DigitsValue(s[..DigitRun(s)])
  }

  datatype ScoreMatch = ScoreMatch(item: int, score: int)

  /** The item pattern matched at the very start of s: the match and its length. */
  function ScoreMatchAt(s: seq<char>): (r: Option<(ScoreMatch, nat)>)
    ensures r.Some? ==> 0 < r.value.1 <= |s|
    ensures r.Some? ==> 0 <= r.value.0.score <= 9
    ensures r.Some? ==> IsDigit(s[0])
    ensures r.Some? ==> DigitRun(s) < |s| && s[DigitRun(s)] == '.'
    ensures r.Some? ==> r.value.0.item == LeadingNumber(s)
    ensures r.Some? ==> IsDigit(s[r.value.1 - 1]) && r.value.0.score == DigitValue(s[r.value.1 - 1])
  {
    var d := DigitRun(s);
    if d == 0 || d == |s| || s[d] != '.' then None
    else match ScoreDigitAfter(s, d + 1)
      case None => None
      case Some(b) => Some((ScoreMatch(DigitsValue(s[..d]), DigitValue(s[b])), b + 1))
  }

  /** The rest of the item pattern, `\s*SCORE:\s*(\d)`, matched from position p:
      the position of the score digit. */
  function ScoreDigitAfter(s: seq<char>, p: nat): (r: Option<nat>)
    requires p <= |s|
    ensures r.Some? ==> p + 6 <= r.value < |s| && IsDigit(s[r.value])
  {
    ScoreLabelFrom(s, p + SpaceRun(s[p..]))
  }

  /** `SCORE:\s*(\d)` matched at position a: the position of the score digit. */
  function ScoreLabelFrom(s: seq<char>, a: nat): (r: Option<nat>)
    requires a <= |s|
    ensures r.Some? ==> a + 6 <= r.value < |s| && IsDigit(s[r.value])
  {
    if a + 6 > |s| || s[a..a + 6] != "SCORE:" then None
    else ScoreDigitFrom(s, a + 6)
  }

  /** `\s*(\d)` matched from position q: the position of the digit. */
  function ScoreDigitFrom(s: seq<char>, q: nat): (r: Option<nat>)
    requires q <= |s|
    ensures r.Some? ==> q <= r.value < |s| && IsDigit(s[r.value])
  {
    var b := q + SpaceRun(s[q..]);
    if b < |s| && IsDigit(s[b]) then Some(b) else None
  }

  /** The item pattern read off positions: digits up to d, '.', spaces up to a,
      "SCORE:", spaces up to b, and the score digit at b. */
  predicate ScoreShape(s: seq<char>, d: int, a: int, b: int) {
    && 0 < d < a && a + 6 <= b < |s|
    && (forall i :: 0 <= i < d ==> IsDigit(s[i])) && s[d] == '.'
    && (forall i :: d < i < a ==> IsSpace(s[i])) && s[a..a + 6] == "SCORE:"
    && (forall i :: a + 6 <= i < b ==> IsSpace(s[i])) && IsDigit(s[b])
  }

  /** The item pattern matches at the start of s exactly when s starts with
      that shape; the item is the leading number and the score the digit at
      the end, and the match ends right after it. */
  lemma ScoreMatchAtShape(s: seq<char>)
    ensures ScoreMatchAt(s).Some? <==> exists d, a, b :: ScoreShape(s, d, a, b)
    ensures forall d, a, b :: ScoreShape(s, d, a, b) ==>
      ScoreMatchAt(s) == Some((ScoreMatch(DigitsValue(s[..d]), DigitValue(s[b])), b + 1))
  {
    forall d, a, b | ScoreShape(s, d, a, b)
      ensures ScoreMatchAt(s) == Some((ScoreMatch(DigitsValue(s[..d]), DigitValue(s[b])), b + 1))
    {
      ScoreShapeMatch(s, d, a, b);
    }
    if ScoreMatchAt(s).Some? {
      var d, a, b := ScoreMatchAtHasShape(s);
    }
  }

  /** A match at the start has the shape, at the positions the runs find. */
  lemma ScoreMatchAtHasShape(s: seq<char>) returns (d: int, a: int, b: int)
    requires ScoreMatchAt(s).Some?
    ensures ScoreShape(s, d, a, b)
  {
    d := DigitRun(s);
    assert 0 < d < |s| && s[d] == '.';
    b := ScoreDigitAfter(s, d + 1).value;
    a := ScoreDigitAfterHasShape(s, d + 1);
  }

  /** A score digit found from p sits after white space, "SCORE:" and white
      space, starting at p. */
  lemma ScoreDigitAfterHasShape(s: seq<char>, p: nat) returns (a: int)
    requires p <= |s| && ScoreDigitAfter(s, p).Some?
    ensures var b := ScoreDigitAfter(s, p).value;
      && p <= a && a + 6 <= b && s[a..a + 6] == "SCORE:"
      && (forall i :: p <= i < a ==> IsSpace(s[i]))
      && (forall i :: a + 6 <= i < b ==> IsSpace(s[i]))
  {
    var t := s[p..];
    a := p + SpaceRun(t);
    assert ScoreLabelFrom(s, a) == ScoreDigitAfter(s, p);
    assert a + 6 <= |s| && s[a..a + 6] == "SCORE:";
    var u := s[a + 6..];
    var b := a + 6 + SpaceRun(u);
    assert ScoreDigitFrom(s, a + 6) == Some(b);
    forall i | p <= i < a ensures IsSpace(s[i]) {
      assert s[i] == t[i - p];
    }
    forall i | a + 6 <= i < b ensures IsSpace(s[i]) {
      assert s[i] == u[i - a - 6];
    }
  }

  /** The positions of a shape are the ones the greedy runs find, so the
      match is the shape's. */
  lemma ScoreShapeMatch(s: seq<char>, d: int, a: int, b: int)
    requires ScoreShape(s, d, a, b)
    ensures ScoreMatchAt(s) == Some((ScoreMatch(DigitsValue(s[..d]), DigitValue(s[b])), b + 1))
  {
    DigitRunEnds(s, d);
    var t := s[d + 1..];
    forall i | 0 <= i < a - d - 1 ensures IsSpace(t[i]) {
      assert t[i] == s[d + 1 + i];
    }
    assert t[a - d - 1] == 'S';
    SpaceRunEnds(t, a - d - 1);
    var u := s[a + 6..];
    forall i | 0 <= i < b - a - 6 ensures IsSpace(u[i]) {
      assert u[i] == s[a + 6 + i];
    }
    assert u[b - a - 6] == s[b];
    SpaceRunEnds(u, b - a - 6);
    ScoreDigitAfterFromRuns(s, d + 1, a, b);
    ScoreMatchFromDigit(s, d, b);
  }

  /** The score digit the greedy runs lead to, stated without quantifiers. */
  lemma ScoreDigitAfterFromRuns(s: seq<char>, p: nat, a: int, b: int)
    requires p <= a && a + 6 <= b < |s|
    requires SpaceRun(s[p..]) == a - p && s[a..a + 6] == "SCORE:"
    requires SpaceRun(s[a + 6..]) == b - a - 6 && IsDigit(s[b])
    ensures ScoreDigitAfter(s, p) == Some(b)
  {
    ScoreDigitFromRun(s, a + 6, b);
    ScoreLabelFromDigit(s, a, b);
    ScoreDigitAfterFromLabel(s, p, a, b);
  }

  /** One step of ScoreDigitAfterFromRuns: the trailing white space and digit. */
  lemma ScoreDigitFromRun(s: seq<char>, q: nat, b: int)
    requires q <= b < |s| && SpaceRun(s[q..]) == b - q && IsDigit(s[b])
    ensures ScoreDigitFrom(s, q) == Some(b)
  {
  }

  /** One step of ScoreDigitAfterFromRuns: the label before the digit. */
  lemma ScoreLabelFromDigit(s: seq<char>, a: nat, b: int)
    requires a + 6 <= |s| && s[a..a + 6] == "SCORE:"
    requires ScoreDigitFrom(s, a + 6) == Some(b)
    ensures ScoreLabelFrom(s, a) == Some(b)
  {
  }

  /** One step of ScoreDigitAfterFromRuns: the leading white space. */
  lemma ScoreDigitAfterFromLabel(s: seq<char>, p: nat, a: nat, b: int)
    requires p <= a <= |s| && SpaceRun(s[p..]) == a - p
    requires ScoreLabelFrom(s, a) == Some(b)
    ensures ScoreDigitAfter(s, p) == Some(b)
  {
  }

  /** With the item's digits ending at d and the score digit at b, the match
      is the item's number and that digit. */
  lemma ScoreMatchFromDigit(s: seq<char>, d: int, b: nat)
    requires 0 < d < |s| && DigitRun(s) == d && s[d] == '.'
    requires ScoreDigitAfter(s, d + 1) == Some(b)
    ensures ScoreMatchAt(s) == Some((ScoreMatch(LeadingNumber(s), DigitValue(s[b])), b + 1))
  {
    ScoreMatchEnd(s, d, b);
  }

  /** With the item's digits ending at d and the score digit at b, there is a
      match and it ends right after b. */
  lemma ScoreMatchEnd(s: seq<char>, d: int, b: nat)
    requires 0 < d < |s| && DigitRun(s) == d && s[d] == '.'
    requires ScoreDigitAfter(s, d + 1) == Some(b)
    ensures ScoreMatchAt(s).Some? && ScoreMatchAt(s).value.1 == b + 1
  {
  }

  /** A digit run that stops at a non-digit has exactly that length. */
  lemma {:induction false} DigitRunEnds(s: seq<char>, n: int)
    requires 0 <= n < |s| && !IsDigit(s[n])
    requires forall i :: 0 <= i < n ==> IsDigit(s[i])
    ensures DigitRun(s) == n
    decreases n
  {
    if n > 0 {
      assert IsDigit(s[0]);
      DigitRunEnds(s[1..], n - 1);
    }
  }

  /** A space run that stops at a non-space has exactly that length. */
  lemma {:induction false} SpaceRunEnds(s: seq<char>, n: int)
    requires 0 <= n < |s| && !IsSpace(s[n])
    requires forall i :: 0 <= i < n ==> IsSpace(s[i])
    ensures SpaceRun(s) == n
    decreases n
  {
    if n > 0 {
      assert IsSpace(s[0]);
      SpaceRunEnds(s[1..], n - 1);
    }
  }

  /** The item pattern with single spaces around "SCORE:" matches as expected. */
  lemma ScoreMatchAtSingleSpaced(s: seq<char>, k: nat)
    requires 0 < k && DigitRun(s) == k && k + 10 <= |s| && s[k] == '.'
    requires SpaceRun(s[k + 1..]) == 1 && s[k + 2..k + 8] == "SCORE:"
    requires SpaceRun(s[k + 8..]) == 1 && IsDigit(s[k + 9])
    ensures ScoreMatchAt(s) == Some((ScoreMatch(DigitsValue(s[..k]), DigitValue(s[k + 9])), k + 10))
  {
  }

  /** All item-pattern matches of a global scan over s, in text order. */
  function ScoreMatches(s: seq<char>): seq<ScoreMatch>
    decreases |s|
  {
    if s == [] then []
    else match ScoreMatchAt(s)
      case Some((m, len)) => [m] + ScoreMatches(s[len..])
      case None => ScoreMatches(s[1..])
  }

  /** One step of the item scan: a match at the start is taken whole. */
  lemma ScoreMatchesTake(s: seq<char>, m: ScoreMatch, len: nat)
    requires ScoreMatchAt(s) == Some((m, len))
    ensures ScoreMatches(s) == [m] + ScoreMatches(s[len..])
  {
  }

  /** One step of the item scan: without a match at the start, one character is skipped. */
  lemma ScoreMatchesSkip(s: seq<char>)
    requires s != [] && ScoreMatchAt(s).None?
    ensures ScoreMatches(s) == ScoreMatches(s[1..])
  {
  }

  /** A match the parser keeps: item within 1..60 and score within 1..5. */
  predicate Accepted(m: ScoreMatch) {
    1 <= m.item <= TotalQuestions && 1 <= m.score <= 5
  }

  /** The score map built from the matches: accepted matches only, a later match
      for an item replacing an earlier one. */
  function CollectScores(ms: seq<ScoreMatch>): (r: map<int, int>)
    ensures forall q :: q in r <==> exists j :: 0 <= j < |ms| && Accepted(ms[j]) && ms[j].item == q
    ensures forall q :: q in r ==> 1 <= q <= TotalQuestions && 1 <= r[q] <= 5
  {
    if ms == [] then map[]
    else
      var prev := CollectScores(ms[..|ms| - 1]);
      var m := ms[|ms| - 1];
      assert forall j :: 0 <= j < |ms| - 1 ==> ms[..|ms| - 1][j] == ms[j];
      if Accepted(m) then prev[m.item := m.score] else prev
  }

  /** The last accepted match for an item decides its score. */
  lemma {:induction false} CollectScoresLastWins(ms: seq<ScoreMatch>, j: int)
    requires 0 <= j < |ms| && Accepted(ms[j])
    requires forall k :: j < k < |ms| && Accepted(ms[k]) ==> ms[k].item != ms[j].item
    ensures ms[j].item in CollectScores(ms)
    ensures CollectScores(ms)[ms[j].item] == ms[j].score
  {
    if j < |ms| - 1 {
      var init := ms[..|ms| - 1];
      assert init[j] == ms[j];
      forall k | j < k < |init| && Accepted(init[k]) ensures init[k].item != init[j].item {
        assert init[k] == ms[k];
      }
      CollectScoresLastWins(init, j);
    }
  }

  /** The label by which the model text names each trait. */
  function Label(t: Trait): string {
    match t
    case HonestyHumility => "誠実さ"
    case Emotionality => "情緒性"
    case Extraversion => "外向性"
    case Agreeableness => "協調性"
    case Conscientiousness => "誠実性"
    case Openness => "開放性"
    case Curiosity => "好奇心"
  }

  /** The trait whose label starts s, if any (no label is a prefix of another). */
  function LabelAt(s: seq<char>): (r: Option<Trait>)
    ensures r.Some? ==> |s| >= 3 && s[..3] == Label(r.value)
    ensures r.None? ==> forall t :: !(|s| >= 3 && s[..3] == Label(t))
  {
    if |s| < 3 then None
    else if s[..3] == Label(HonestyHumility) then Some(HonestyHumility)
    else if s[..3] == Label(Emotionality) then Some(Emotionality)
    else if s[..3] == Label(Extraversion) then Some(Extraversion)
    else if s[..3] == Label(Agreeableness) then Some(Agreeableness)
    else if s[..3] == Label(Conscientiousness) then Some(Conscientiousness)
    else if s[..3] == Label(Openness) then Some(Openness)
    else if s[..3] == Label(Curiosity) then Some(Curiosity)
    else None
  }

  function LevelWord(l: Level): string {
    match l
    case High => "HIGH"
    case Low => "LOW"
  }

  /** A level word starts t. */
  predicate StartsLevel(t: seq<char>) {
    (|t| >= 4 && t[..4] == "HIGH") || (|t| >= 3 && t[..3] == "LOW")
  }

  /** Before position k there is neither a line terminator nor the start of
      a level word: `.*?` can get to k without finding a level first. */
  predicate LevelFree(s: seq<char>, k: int)
    requires 0 <= k <= |s|
  {
    forall i :: 0 <= i < k ==> !IsLineTerminator(s[i]) && !StartsLevel(s[i..])
  }

  /** The lazy `.*?(HIGH|LOW)` part: the nearest HIGH or LOW on the current line,
      with the length consumed up to and including it; the consumed text ends
      with the word of the level found. */
  function LevelSearch(s: seq<char>): (r: Option<(Level, nat)>)
    ensures r.Some? ==> 3 <= r.value.1 <= |s|
    ensures r.Some? ==> |LevelWord(r.value.0)| <= r.value.1
    decreases |s|
  {
    if |s| >= 4 && s[..4] == "HIGH" then Some((High, 4))
    else if |s| >= 3 && s[..3] == "LOW" then Some((Low, 3))
    else if s == [] || IsLineTerminator(s[0]) then None
    else match LevelSearch(s[1..])
      case Some((l, n)) => Some((l, n + 1))
      case None => None
  }

  /** The text the search consumes ends with the level word it reports. */
  lemma {:induction false} LevelSearchEndsWithWord(s: seq<char>)
    ensures var r := LevelSearch(s);
      r.Some? ==> s[r.value.1 - |LevelWord(r.value.0)|..r.value.1] == LevelWord(r.value.0)
    decreases |s|
  {
    if |s| >= 4 && s[..4] == "HIGH" {
      assert s[0..4] == s[..4];
    } else if |s| >= 3 && s[..3] == "LOW" {
      assert s[0..3] == s[..3];
    } else if s != [] && !IsLineTerminator(s[0]) && LevelSearch(s[1..]).Some? {
      var l := LevelSearch(s[1..]).value.0;
      var n := LevelSearch(s[1..]).value.1;
      LevelSearchEndsWithWord(s[1..]);
      TailSlice(s, n - |LevelWord(l)|, n);
    }
  }

  /** Past a character that ends no line and starts no level word, the search
      goes on one place further. */
  lemma LevelSearchStep(s: seq<char>)
    requires s != [] && !IsLineTerminator(s[0]) && !StartsLevel(s)
    ensures LevelSearch(s[1..]).Some? ==>
      LevelSearch(s) == Some((LevelSearch(s[1..]).value.0, LevelSearch(s[1..]).value.1 + 1))
    ensures LevelSearch(s[1..]).None? ==> LevelSearch(s).None?
  {
    assert !(|s| >= 4 && s[..4] == "HIGH") && !(|s| >= 3 && s[..3] == "LOW");
    assert !(s == [] || IsLineTerminator(s[0]));
  }

  /** A slice of the tail is the slice of the whole one place further on. */
  lemma TailSlice<T>(s: seq<T>, i: int, j: int)
    requires s != [] && 0 <= i <= j <= |s| - 1
    ensures s[1..][i..j] == s[i + 1..j + 1]
  {
  }

  /** The level found is the first level word, reached without crossing a
      line terminator; there is none exactly when no level word is reachable
      that way. */
  lemma {:induction false} LevelSearchFirst(s: seq<char>)
    ensures var r := LevelSearch(s);
      r.Some? ==> LevelFree(s, r.value.1 - |LevelWord(r.value.0)|)
    ensures LevelSearch(s).None? <==>
      forall k :: 0 <= k <= |s| && LevelFree(s, k) ==> !StartsLevel(s[k..])
    decreases |s|
  {
    if StartsLevel(s) {
      assert LevelFree(s, 0);
      assert s[0..] == s;
    } else if s == [] || IsLineTerminator(s[0]) {
      assert forall k :: 0 < k <= |s| ==> !LevelFree(s, k);
    } else {
      LevelSearchFirst(s[1..]);
      LevelFreeShift(s);
      assert !StartsLevel(s[0..]) by { assert s[0..] == s; }
      assert forall k :: 0 <= k <= |s| && LevelFree(s, k) && k > 0 ==> LevelFree(s[1..], k - 1);
    }
  }

  /** Level-freedom up to k + 1 in s is level-freedom up to k in its tail,
      once the first character is neither a terminator nor a level start. */
  lemma LevelFreeShift(s: seq<char>)
    requires s != [] && !IsLineTerminator(s[0]) && !StartsLevel(s)
    ensures forall k :: 0 <= k < |s| ==> (LevelFree(s, k + 1) <==> LevelFree(s[1..], k))
    ensures forall k :: 0 <= k < |s| ==> s[1..][k..] == s[k + 1..]
  {
    forall k | 0 <= k < |s| ensures LevelFree(s, k + 1) <==> LevelFree(s[1..], k) {
      forall i | 0 <= i < k ensures s[1..][i] == s[i + 1] && s[1..][i..] == s[i + 1..] {
      }
      if LevelFree(s[1..], k) {
        forall i | 0 <= i < k + 1 ensures !IsLineTerminator(s[i]) && !StartsLevel(s[i..]) {
          if i > 0 {
            assert s[i] == s[1..][i - 1] && s[i..] == s[1..][i - 1..];
          }
        }
      }
    }
  }

  datatype TraitMatch = TraitMatch(which: Trait, level: Level)

  /** The trait pattern matched at the very start of s: the match and its length. */
  function TraitMatchAt(s: seq<char>): (r: Option<(TraitMatch, nat)>)
    ensures r.Some? ==> 0 < r.value.1 <= |s|
    ensures r.Some? ==> LabelAt(s) == Some(r.value.0.which)
    ensures r.Some? ==> LevelSearch(s[3..]) == Some((r.value.0.level, r.value.1 - 3))
    ensures r.None? <==> LabelAt(s).None? || LevelSearch(s[3..]).None?
  {
    match LabelAt(s)
    case None => None
    case Some(t) =>
      match LevelSearch(s[3..])
      case None => None
      case Some((l, n)) => Some((TraitMatch(t, l), 3 + n))
  }

  /** All trait-pattern matches of a global scan over s, in text order. */
  function TraitMatches(s: seq<char>): seq<TraitMatch>
    decreases |s|
  {
    if s == [] then []
    else match TraitMatchAt(s)
      case Some((m, len)) => [m] + TraitMatches(s[len..])
      case None => TraitMatches(s[1..])
  }

  /** One step of the trait scan: a match at the start is taken whole. */
  lemma TraitMatchesTake(s: seq<char>, m: TraitMatch, len: nat)
    requires TraitMatchAt(s) == Some((m, len))
    ensures TraitMatches(s) == [m] + TraitMatches(s[len..])
  {
  }

  /** One step of the trait scan: where no label starts, one character is skipped. */
  lemma TraitMatchesSkip(s: seq<char>)
    requires s != [] && LabelAt(s).None?
    ensures TraitMatches(s) == TraitMatches(s[1..])
  {
  }

  /** The level map built from the trait matches, keyed by trait key; a later
      match for a trait replaces an earlier one. */
  function CollectTraits(ms: seq<TraitMatch>): (r: map<string, Level>)
    ensures forall k :: k in r <==> exists j :: 0 <= j < |ms| && Key(ms[j].which) == k
  {
    if ms == [] then map[]
    else
      var prev := CollectTraits(ms[..|ms| - 1]);
      var m := ms[|ms| - 1];
      assert forall j :: 0 <= j < |ms| - 1 ==> ms[..|ms| - 1][j] == ms[j];
      prev[Key(m.which) := m.level]
  }

  /** The last match naming a trait decides its level. */
  lemma {:induction false} CollectTraitsLastWins(ms: seq<TraitMatch>, j: int)
    requires 0 <= j < |ms|
    requires forall k :: j < k < |ms| ==> ms[k].which != ms[j].which
    ensures CollectTraits(ms)[Key(ms[j].which)] == ms[j].level
  {
    TraitsTable();
    if j < |ms| - 1 {
      var init := ms[..|ms| - 1];
      assert init[j] == ms[j];
      forall k | j < k < |init| ensures init[k].which != init[j].which {
        assert init[k] == ms[k];
      }
      CollectTraitsLastWins(init, j);
    }
  }

  datatype ParseResult = ParseResult(scores: map<int, int>, traits: map<string, Level>)

  datatype ParseError = IncompleteScores(found: nat)

  /** Extracts the 60 item scores and the named trait levels from the model
      text; fails when the scores collected do not cover all 60 items. */
  function ParsePersonalityResponse(text: seq<char>): (r: Result<ParseResult, ParseError>)
    ensures r.Success? <==> AllItems <= CollectScores(ScoreMatches(text)).Keys
    ensures r.Success? ==> r.value.scores.Keys == AllItems
    ensures r.Success? ==> forall q :: q in AllItems ==> 1 <= r.value.scores[q] <= 5
    ensures r.Failure? ==> r.error.found < TotalQuestions
    ensures r.Failure? ==> r.error.found == |CollectScores(ScoreMatches(text)).Keys|
    ensures r.Success? ==> r.value.scores == CollectScores(ScoreMatches(text))
    ensures r.Success? ==> r.value.traits == CollectTraits(TraitMatches(text))
  {
    var scores := CollectScores(ScoreMatches(text));
    CompleteIffSixty(scores.Keys);
    if |scores| != TotalQuestions then
      Failure(IncompleteScores(|scores|))
    else
      Success(ParseResult(scores, CollectTraits(TraitMatches(text))))
  }

  /** A set of item numbers has 60 members exactly when it holds every item. */
  lemma CompleteIffSixty(keys: set<int>)
    requires forall q :: q in keys ==> 1 <= q <= TotalQuestions
    ensures |keys| <= TotalQuestions
    ensures |keys| == TotalQuestions <==> AllItems <= keys
  {
    AllItemsCount();
    assert keys <= AllItems;
    SubsetCardinality(keys, AllItems);
    if AllItems <= keys {
      assert keys == AllItems;
    }
  }

  lemma {:induction false} RangeSetCount(lo: int, hi: int)
    requires lo <= hi
    ensures |set q | q in Range(lo, hi)| == hi - lo
    decreases hi - lo
  {
    if lo < hi {
      RangeMembership(lo + 1, hi);
      RangeSetCount(lo + 1, hi);
      var tail := Range(lo + 1, hi);
      assert (set q | q in Range(lo, hi)) == {lo} + set q | q in tail;
    }
  }

  lemma AllItemsCount()
    ensures |AllItems| == TotalQuestions
  {
    RangeMembership(1, TotalQuestions + 1);
    RangeSetCount(1, TotalQuestions + 1);
    var items := Range(1, TotalQuestions + 1);
    assert AllItems == set q | q in items;
  }

  /** A subset is the whole set exactly when it is as large. */
  lemma SubsetCardinality<T>(a: set<T>, b: set<T>)
    requires a <= b
    ensures |a| <= |b|
    ensures |a| == |b| ==> a == b
  {
    var d := b - a;
    assert b == a + d;
    assert a !! d;
    assert |b| == |a| + |d|;
    if |a| == |b| {
      assert d == {};
    }
  }
}
