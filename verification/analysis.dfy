/** The pure parts of the monthly analysis: the two shapes the generator's
    structured output must have, the text corpus of a trainee's month, the
    length the corpus is measured by, and the sentiment trend against the
    previous month. Sentiment values are reals; floating-point rounding is not
    modelled. */
module Analysis {

  import opened Wrappers

  // ------------------------------------------------------------- sentiment

  /** The sentiment object the generator returns. */
  datatype Sentiment = Sentiment(
    score: real,
    positiveRatio: real,
    negativeRatio: real,
    neutralRatio: real,
    positiveKeywords: seq<string>,
    negativeKeywords: seq<string>)

  /** A ratio between 0 and 1 inclusive. */
  predicate IsRatio(x: real) {
    0.0 <= x <= 1.0
  }

  /** The sentiment schema: a score in [-1, 1], three ratios in [0, 1] (not
      required to sum to 1), and at most five keywords of each polarity. */
  predicate SentimentValid(s: Sentiment) {
    -1.0 <= s.score <= 1.0
    && IsRatio(s.positiveRatio) && IsRatio(s.negativeRatio) && IsRatio(s.neutralRatio)
    && |s.positiveKeywords| <= 5 && |s.negativeKeywords| <= 5
  }

  /** The six field names of the sentiment schema differ from each other. */
  lemma SentimentFieldNamesDistinct()
    ensures "score" !in ["positive_ratio", "negative_ratio", "neutral_ratio", "positive_keywords", "negative_keywords"]
    ensures "positive_keywords" !in ["score", "positive_ratio", "negative_ratio", "neutral_ratio", "negative_keywords"]
    ensures "negative_keywords" !in ["score", "positive_ratio", "negative_ratio", "neutral_ratio", "positive_keywords"]
  {
    assert "positive_keywords"[0] != "negative_keywords"[0];
  }

  /** The names of the fields that break the sentiment schema, in field order. */
  function SentimentIssues(s: Sentiment): (issues: seq<string>)
    ensures issues == [] <==> SentimentValid(s)
    ensures "score" in issues <==> !(-1.0 <= s.score <= 1.0)
    ensures "positive_keywords" in issues <==> |s.positiveKeywords| > 5
    ensures "negative_keywords" in issues <==> |s.negativeKeywords| > 5
    ensures |issues| <= 6
  {
    SentimentFieldNamesDistinct();
    (if -1.0 <= s.score <= 1.0 then [] else ["score"])
    + (if IsRatio(s.positiveRatio) then [] else ["positive_ratio"])
    + (if IsRatio(s.negativeRatio) then [] else ["negative_ratio"])
    + (if IsRatio(s.neutralRatio) then [] else ["neutral_ratio"])
    + (if |s.positiveKeywords| <= 5 then [] else ["positive_keywords"])
    + (if |s.negativeKeywords| <= 5 then [] else ["negative_keywords"])
  }

  /** Schema validation of a generated sentiment: the object itself, or the
      list of offending fields (the generator call then throws). */
  function ParseSentiment(raw: Sentiment): (r: Result<Sentiment, seq<string>>)
    ensures r.Success? <==> SentimentValid(raw)
    ensures r.Success? ==> r.value == raw
    ensures r.Failure? ==> r.error != [] && r.error == SentimentIssues(raw)
  {
    var issues := SentimentIssues(raw);
    if issues == [] then Success(raw) else Failure(issues)
  }

  /** The schema's bounds are inclusive: the extreme score and ratio values and
      exactly five keywords are accepted; a sixth keyword is not. */
  lemma SentimentBounds(kw: seq<string>, w: string)
    requires |kw| == 5
    ensures SentimentValid(Sentiment(-1.0, 0.0, 1.0, 0.0, kw, kw))
    ensures SentimentValid(Sentiment(1.0, 1.0, 0.0, 1.0, kw, []))
    ensures !SentimentValid(Sentiment(0.0, 0.5, 0.5, 0.0, kw + [w], []))
    ensures ParseSentiment(Sentiment(0.0, 0.5, 0.5, 0.0, [], kw + [w])) == Failure(["negative_keywords"])
  {
    assert |kw + [w]| == 6;
    var issues := SentimentIssues(Sentiment(0.0, 0.5, 0.5, 0.0, [], kw + [w]));
    assert issues == [] + [] + [] + [] + [] + ["negative_keywords"];
    assert issues == ["negative_keywords"];
  }

  // ------------------------------------------------------- question suggest

  /** The five question categories. */
  datatype Category = Growth | Challenge | Strength | Emotion | NextStep

  /** The category's name in the schema's enumeration. */
  function CategoryName(c: Category): string {
    match c
    case Growth => "growth"
    case Challenge => "challenge"
    case Strength => "strength"
    case Emotion => "emotion"
    case NextStep => "next_step"
  }

  /** The category a name denotes, if it is one of the five names. */
  function ParseCategory(s: string): (r: Option<Category>)
    ensures r.Some? ==> CategoryName(r.value) == s
    ensures r.None? ==> forall c: Category :: CategoryName(c) != s
  {
    if s == "growth" then Some(Growth)
    else if s == "challenge" then Some(Challenge)
    else if s == "strength" then Some(Strength)
    else if s == "emotion" then Some(Emotion)
    else if s == "next_step" then Some(NextStep)
    else None
  }

  /** Every category's name parses back to it. */
  lemma CategoryRoundTrip(c: Category)
    ensures ParseCategory(CategoryName(c)) == Some(c)
  {
  }

  /** A question suggestion as generated, before validation: the priority is a
      JSON number. */
  datatype RawQuestion = RawQuestion(question: string, category: string, intent: string, priority: real)

  /** A validated suggestion. */
  datatype Question = Question(question: string, category: Category, intent: string, priority: int)

  /** The number of suggestions the schema demands. */
  const QuestionCount: nat := 5

  /** A priority is a whole number from 1 to 5. */
  predicate PriorityValid(p: real) {
    p == p.Floor as real && 1.0 <= p <= 5.0
  }

  /** Validates one suggestion: a known category and an integral priority in
      1..5. */
  function ParseQuestion(raw: RawQuestion): (r: Option<Question>)
    ensures r.Some? <==> ParseCategory(raw.category).Some? && PriorityValid(raw.priority)
    ensures r.Some? ==> 1 <= r.value.priority <= 5 && r.value.priority as real == raw.priority
    ensures r.Some? ==> CategoryName(r.value.category) == raw.category
    ensures r.Some? ==> r.value.question == raw.question && r.value.intent == raw.intent
  {
    match ParseCategory(raw.category)
    case None => None
    case Some(c) =>
      if PriorityValid(raw.priority) then Some(Question(raw.question, c, raw.intent, raw.priority.Floor))
      else None
  }

  /** Validates every suggestion of a list, in order. */
  function ParseEach(raws: seq<RawQuestion>): (r: Option<seq<Question>>)
    ensures r.Some? <==> forall i :: 0 <= i < |raws| ==> ParseQuestion(raws[i]).Some?
    ensures r.Some? ==> |r.value| == |raws|
    ensures r.Some? ==> forall i :: 0 <= i < |raws| ==> ParseQuestion(raws[i]) == Some(r.value[i])
  {
    if raws == [] then Some([])
    else
      match ParseQuestion(raws[0])
      case None => None
      case Some(q) =>
        match ParseEach(raws[1..])
        case None => None
        case Some(qs) => Some([q] + qs)
  }

  /** The question-suggest schema: exactly five valid suggestions. */
  function ParseQuestions(raws: seq<RawQuestion>): (r: Option<seq<Question>>)
    ensures r.Some? <==> |raws| == QuestionCount && forall i :: 0 <= i < |raws| ==> ParseQuestion(raws[i]).Some?
    ensures r.Some? ==> |r.value| == QuestionCount
    ensures r.Some? ==> forall i :: 0 <= i < |raws| ==> 1 <= r.value[i].priority <= 5
  {
    if |raws| != QuestionCount then None else ParseEach(raws)
  }

  /** A validated suggestion written back in the generator's shape. */
  function RenderQuestion(q: Question): (raw: RawQuestion)
    ensures raw.category == CategoryName(q.category)
    ensures raw.priority == q.priority as real
  {
    RawQuestion(q.question, CategoryName(q.category), q.intent, q.priority as real)
  }

  /** Round trip: five suggestions with priorities in 1..5, rendered, validate
      back to themselves. */
  lemma QuestionsRoundTrip(qs: seq<Question>)
    requires |qs| == QuestionCount
    requires forall i :: 0 <= i < |qs| ==> 1 <= qs[i].priority <= 5
    ensures ParseQuestions(seq(|qs|, i requires 0 <= i < |qs| => RenderQuestion(qs[i]))) == Some(qs)
  {
    var raws := seq(|qs|, i requires 0 <= i < |qs| => RenderQuestion(qs[i]));
    forall i | 0 <= i < |qs| ensures ParseQuestion(raws[i]) == Some(qs[i]) {
      CategoryRoundTrip(qs[i].category);
      assert (qs[i].priority as real).Floor == qs[i].priority;
    }
    var r := ParseEach(raws);
    assert r.Some?;
    assert r.value == qs;
  }

  /** Four suggestions, or a fractional priority, fail the schema. */
  lemma QuestionsRejected(qs: seq<RawQuestion>, q: RawQuestion)
    requires |qs| == 4
    ensures ParseQuestions(qs).None?
    ensures ParseQuestion(q.(priority := 2.5)).None?
  {
    assert (2.5).Floor == 2;
  }

  // ----------------------------------------------------------- the corpus

  /** One row of the month's goal query, with its nested activities and their
      reflections; a missing content or child list is None (null). */
  datatype Reflection = Reflection(content: Option<string>)
  datatype Activity = Activity(content: Option<string>, reflections: Option<seq<Reflection>>)
  datatype Goal = Goal(content: Option<string>, activities: Option<seq<Activity>>)

  /** The contents of a list of reflections, in order. */
  function ReflectionTexts(rs: seq<Reflection>): (ts: seq<Option<string>>)
    ensures |ts| == |rs|
    ensures forall i :: 0 <= i < |rs| ==> ts[i] == rs[i].content
  {
    if rs == [] then [] else [rs[0].content] + ReflectionTexts(rs[1..])
  }

  /** An activity's content followed by its reflections' contents. */
  function ActivityTexts(a: Activity): (ts: seq<Option<string>>)
    ensures |ts| >= 1 && ts[0] == a.content
  {
    [a.content] + (match a.reflections case None => [] case Some(rs) => ReflectionTexts(rs))
  }

  /** The texts of a list of activities, each followed by its reflections. */
  function ActivitiesTexts(acts: seq<Activity>): seq<Option<string>> {
    if acts == [] then [] else ActivityTexts(acts[0]) + ActivitiesTexts(acts[1..])
  }

  /** A goal's content followed by its activities' texts. */
  function GoalTexts(g: Goal): (ts: seq<Option<string>>)
    ensures |ts| >= 1 && ts[0] == g.content
  {
    [g.content] + (match g.activities case None => [] case Some(acts) => ActivitiesTexts(acts))
  }

  /** The texts of all goals, in the nested order goal, activity, reflection. */
  function GoalsTexts(gs: seq<Goal>): seq<Option<string>> {
    if gs == [] then [] else GoalTexts(gs[0]) + GoalsTexts(gs[1..])
  }

  /** A text survives filter(Boolean) when it is present and non-empty. */
  predicate Kept(t: Option<string>) {
    t.Some? && t.value != []
  }

  /** The texts that survive the filter, in order. */
  function KeptTexts(ts: seq<Option<string>>): (r: seq<string>)
    ensures |r| <= |ts|
    ensures forall k :: 0 <= k < |r| ==> r[k] != []
    ensures r == [] <==> forall i :: 0 <= i < |ts| ==> !Kept(ts[i])
  {
    if ts == [] then []
    else if Kept(ts[0]) then [ts[0].value] + KeptTexts(ts[1..])
    else
      assert forall i :: 1 <= i < |ts| ==> ts[i] == ts[1..][i - 1];
      KeptTexts(ts[1..])
  }

  /** The texts joined with a separator character between neighbours. */
  function Join(xs: seq<string>, sep: char): (r: string)
    ensures xs == [] ==> r == []
    ensures |xs| == 1 ==> r == xs[0]
  {
    if xs == [] then []
    else if |xs| == 1 then xs[0]
    else xs[0] + [sep] + Join(xs[1..], sep)
  }

  /** The month's corpus: every present, non-empty text of the goal rows in
      nested order, one per line; no rows at all give the empty text. */
  function CollectText(data: Option<seq<Goal>>): (r: string)
    ensures data.None? ==> r == []
    ensures data.Some? ==>
              (r == [] <==> forall i :: 0 <= i < |GoalsTexts(data.value)| ==> !Kept(GoalsTexts(data.value)[i]))
  {
    match data
    case None => []
    case Some(gs) =>
      CorpusEmpty(GoalsTexts(gs));
      Join(KeptTexts(GoalsTexts(gs)), '\n')
  }

  /** The joined kept texts are empty exactly when no text is kept. */
  lemma CorpusEmpty(ts: seq<Option<string>>)
    ensures Join(KeptTexts(ts), '\n') == [] <==> forall i :: 0 <= i < |ts| ==> !Kept(ts[i])
  {
    JoinEmpty(KeptTexts(ts), '\n');
  }

  /** A join of non-empty texts is empty exactly when there are none. */
  lemma JoinEmpty(xs: seq<string>, sep: char)
    requires forall k :: 0 <= k < |xs| ==> xs[k] != []
    ensures Join(xs, sep) == [] <==> xs == []
  {
    if |xs| > 1 {
      assert |Join(xs, sep)| >= |xs[0]|;
    }
  }

  /** The texts between separators, in order: the inverse of Join. */
  function Split(s: string, sep: char): (r: seq<string>)
    ensures |r| >= 1
    decreases |s|
  {
    if sep !in s then [s]
    else
      var i := FirstIndex(s, sep);
      [s[..i]] + Split(s[i + 1..], sep)
  }

  /** The position of the first occurrence of c in s. */
  function FirstIndex(s: string, c: char): (i: nat)
    requires c in s
    ensures i < |s| && s[i] == c && c !in s[..i]
  {
    if s[0] == c then 0
    else
      assert c in s[1..];
      var j := FirstIndex(s[1..], c);
      assert s[..j + 1] == [s[0]] + s[1..][..j];
      j + 1
  }

  /** Splitting a join of separator-free texts gives the texts back. */
  lemma {:induction false} SplitJoin(xs: seq<string>, sep: char)
    requires xs != []
    requires forall k :: 0 <= k < |xs| ==> sep !in xs[k]
    ensures Split(Join(xs, sep), sep) == xs
  {
    if |xs| > 1 {
      var tail := xs[1..];
      assert sep !in xs[0];
      assert forall k :: 0 <= k < |tail| ==> tail[k] == xs[k + 1];
      SplitJoin(tail, sep);
      assert Join(xs, sep) == xs[0] + [sep] + Join(tail, sep);
      SplitCons(xs[0], sep, Join(tail, sep));
      assert xs == [xs[0]] + tail;
    }
  }

  /** Splitting at the first separator: the separator-free text before it is
      the first piece. */
  lemma SplitCons(a: string, sep: char, rest: string)
    requires sep !in a
    ensures Split(a + [sep] + rest, sep) == [a] + Split(rest, sep)
  {
    var s := a + [sep] + rest;
    assert s[|a|] == sep;
    assert s[..|a|] == a;
    var i := FirstIndex(s, sep);
    assert i == |a|;
    assert s[i + 1..] == rest;
  }

  /** Every line of the corpus is one kept text, in nested order, provided no
      text holds a line break. */
  lemma CollectTextLines(gs: seq<Goal>)
    requires CollectText(Some(gs)) != []
    requires forall i :: 0 <= i < |GoalsTexts(gs)| ==> Kept(GoalsTexts(gs)[i]) ==> '\n' !in GoalsTexts(gs)[i].value
    ensures Split(CollectText(Some(gs)), '\n') == KeptTexts(GoalsTexts(gs))
  {
    var ts := GoalsTexts(gs);
    var kept := KeptTexts(ts);
    KeptTextsFrom(ts, '\n');
    SplitJoin(kept, '\n');
  }

  /** Kept texts inherit a property of every kept entry: here, having no
      separator. */
  lemma {:induction false} KeptTextsFrom(ts: seq<Option<string>>, sep: char)
    requires forall i :: 0 <= i < |ts| ==> Kept(ts[i]) ==> sep !in ts[i].value
    ensures forall k :: 0 <= k < |KeptTexts(ts)| ==> sep !in KeptTexts(ts)[k]
  {
    if ts != [] {
      KeptTextsFrom(ts[1..], sep);
    }
  }

  /** Flattening distributes over concatenation of goal lists. */
  lemma {:induction false} GoalsTextsAppend(a: seq<Goal>, b: seq<Goal>)
    ensures GoalsTexts(a + b) == GoalsTexts(a) + GoalsTexts(b)
  {
    if a == [] {
      assert a + b == b;
    } else {
      assert (a + b)[1..] == a[1..] + b;
      GoalsTextsAppend(a[1..], b);
    }
  }

  /** The same for activity lists. */
  lemma {:induction false} ActivitiesTextsAppend(a: seq<Activity>, b: seq<Activity>)
    ensures ActivitiesTexts(a + b) == ActivitiesTexts(a) + ActivitiesTexts(b)
  {
    if a == [] {
      assert a + b == b;
    } else {
      assert (a + b)[1..] == a[1..] + b;
      ActivitiesTextsAppend(a[1..], b);
    }
  }

  /** One step of the corpus loop: the next goal's texts extend the prefix. */
  lemma PushGoalStep(gs: seq<Goal>, i: int, more: seq<Option<string>>)
    requires 0 <= i < |gs| && more == GoalTexts(gs[i])
    ensures GoalsTexts(gs[..i]) + more == GoalsTexts(gs[..i + 1])
  {
    GoalsTextsAppend(gs[..i], [gs[i]]);
    assert [gs[i]][1..] == [];
    assert gs[..i + 1] == gs[..i] + [gs[i]];
  }

  /** One step of the goal loop: the next activity's texts extend the prefix. */
  lemma PushActivityStep(c: Option<string>, acts: seq<Activity>, j: int, more: seq<Option<string>>)
    requires 0 <= j < |acts| && more == ActivityTexts(acts[j])
    ensures [c] + ActivitiesTexts(acts[..j]) + more == [c] + ActivitiesTexts(acts[..j + 1])
  {
    ActivitiesTextsAppend(acts[..j], [acts[j]]);
    assert [acts[j]][1..] == [];
    assert acts[..j + 1] == acts[..j] + [acts[j]];
  }

  /** An activity's texts pushed one by one: its content, then each
      reflection's. */
  method PushActivity(a: Activity) returns (texts: seq<Option<string>>)
    ensures texts == ActivityTexts(a)
  {
    texts := [a.content];
    if a.reflections.Some? {
      var rs := a.reflections.value;
      var k := 0;
      while k < |rs|
        invariant 0 <= k <= |rs|
        invariant texts == [a.content] + ReflectionTexts(rs[..k])
      {
        assert ReflectionTexts(rs[..k + 1]) == ReflectionTexts(rs[..k]) + [rs[k].content];
        texts := texts + [rs[k].content];
        k := k + 1;
      }
      assert rs[..k] == rs;
    }
  }

  /** A goal's texts pushed one by one: its content, then each activity's
      texts. */
  method PushGoal(g: Goal) returns (texts: seq<Option<string>>)
    ensures texts == GoalTexts(g)
  {
    texts := [g.content];
    if g.activities.Some? {
      var acts := g.activities.value;
      var j := 0;
      while j < |acts|
        invariant 0 <= j <= |acts|
        invariant texts == [g.content] + ActivitiesTexts(acts[..j])
      {
        var more := PushActivity(acts[j]);
        PushActivityStep(g.content, acts, j, more);
        texts := texts + more;
        j := j + 1;
      }
      assert acts[..j] == acts;
    }
  }

  /** Collects the corpus the way the query loop does it: push each goal's
      content, then each activity's content followed by its reflections', then
      filter and join. It agrees with the flattening definition. */
  method CollectTextLoop(data: Option<seq<Goal>>) returns (r: string)
    ensures r == CollectText(data)
  {
    if data.None? {
      return [];
    }
    var gs := data.value;
    var texts: seq<Option<string>> := [];
    var i := 0;
    while i < |gs|
      invariant 0 <= i <= |gs|
      invariant texts == GoalsTexts(gs[..i])
    {
      var more := PushGoal(gs[i]);
      PushGoalStep(gs, i, more);
      texts := texts + more;
      i := i + 1;
    }
    assert gs[..i] == gs;
    r := Join(KeptTexts(texts), '\n');
  }

  // ------------------------------------------------------------ text length

  /** The UTF-16 code units of a character: two for one outside the Basic
      Multilingual Plane. */
  function Utf16Units(c: char): nat {
    if c as int > 0xFFFF then 2 else 1
  }

  /** A string's length as JavaScript reports it, in UTF-16 code units. */
  function Utf16Length(s: string): (n: nat)
    ensures |s| <= n <= 2 * |s|
  {
    if s == [] then 0 else Utf16Units(s[0]) + Utf16Length(s[1..])
  }

  /** The length of a concatenation is the sum of the lengths. */
  lemma {:induction false} Utf16LengthAppend(a: string, b: string)
    ensures Utf16Length(a + b) == Utf16Length(a) + Utf16Length(b)
  {
    if a == [] {
      assert a + b == b;
    } else {
      assert (a + b)[0] == a[0];
      assert (a + b)[1..] == a[1..] + b;
      Utf16LengthAppend(a[1..], b);
    }
  }

  /** For text inside the Basic Multilingual Plane (all of Japanese kana and
      common kanji) the length is the number of characters. */
  lemma {:induction false} Utf16LengthBmp(s: string)
    requires forall i :: 0 <= i < |s| ==> s[i] as int <= 0xFFFF
    ensures Utf16Length(s) == |s|
  {
    if s != [] {
      assert forall i :: 0 <= i < |s| - 1 ==> s[1..][i] == s[i + 1];
      Utf16LengthBmp(s[1..]);
    }
  }

  // ----------------------------------------------------------------- trend

  /** The sentiment trend against the previous month. */
  datatype Trend = Improving | Stable | Declining

  /** The trend threshold. */
  const TrendThreshold: real := 0.1

  /** Improving when the score rose by more than 0.1, declining when it fell
      by more than 0.1, stable otherwise and when there is no previous score. */
  function CalcTrend(current: real, prev: Option<real>): (r: Trend)
    ensures prev.None? ==> r == Stable
    ensures r == Improving <==> prev.Some? && current > prev.value + TrendThreshold
    ensures r == Declining <==> prev.Some? && current < prev.value - TrendThreshold
    ensures r == Stable <==> prev.None? || (prev.value - TrendThreshold <= current <= prev.value + TrendThreshold)
  {
    match prev
    case None => Stable
    case Some(p) =>
      var diff := current - p;
      if diff > 0.1 then Improving
      else if diff < -0.1 then Declining
      else Stable
  }

  /** Swapping the two months turns an improvement into a decline and back;
      stability is symmetric. */
  lemma TrendAntisymmetric(a: real, b: real)
    ensures CalcTrend(a, Some(b)) == Improving <==> CalcTrend(b, Some(a)) == Declining
    ensures CalcTrend(a, Some(b)) == Stable <==> CalcTrend(b, Some(a)) == Stable
  {
  }

  /** A change of exactly 0.1 either way is stable. */
  lemma TrendThresholdIsStable(p: real)
    ensures CalcTrend(p + 0.1, Some(p)) == Stable
    ensures CalcTrend(p - 0.1, Some(p)) == Stable
  {
  }

  /** The trend is monotone in the current score. */
  lemma TrendMonotone(a: real, b: real, p: real)
    requires a <= b
    ensures CalcTrend(a, Some(p)) == Improving ==> CalcTrend(b, Some(p)) == Improving
    ensures CalcTrend(b, Some(p)) == Declining ==> CalcTrend(a, Some(p)) == Declining
  {
  }
}
