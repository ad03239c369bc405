/** The monthly analysis batch as a fold over the trainees. The database is a
    store of diagnosis rows keyed by (user, year, month) and a store of question
    suggestions keyed by diagnosis id; everything the batch learns from the
    outside world about one trainee (the goal query, what each generator
    returns or throws, the upsert's outcome and clock, the elapsed time) is an
    oracle field of that trainee's Subject. */
module Batch {

  import opened Wrappers
  import opened Constants
  import opened Scorer
  import opened PersonalityParser
  import opened Calendar
  import opened ModelKey
  import opened Analysis

  /** A diagnosis row. Rows may have been written by something other than the
      batch, so the sentiment columns and the analysed-at time may be null. */
  datatype Diagnosis = Diagnosis(
    id: string,
    sentiment: Option<Sentiment>,
    trend: Option<Trend>,
    rawScores: map<int, int>,
    traits: map<string, TraitScore>,
    summary: string,
    sourceTextLength: nat,
    analyzedAt: Option<int>)

  /** The unique key of a diagnosis row. */
  datatype Slot = Slot(user: string, period: YearMonth)

  type Store = map<Slot, Diagnosis>

  /** Question suggestions, keyed by the diagnosis they belong to. */
  type Suggestions = map<string, seq<Question>>

  /** What an external call did: threw, or returned a value. */
  datatype Outcome<T> = Threw | Returned(value: T)

  /** One trainee with the answers of the outside world to the batch's calls. */
  datatype Subject = Subject(
    id: string,
    goals: Option<seq<Goal>>,          // the month's goal query
    sentiment: Outcome<Sentiment>,     // the sentiment generator, before validation
    personality: Outcome<string>,      // the personality generator's text
    summary: Outcome<string>,          // the summary generator's text
    upsertId: Option<string>,          // the upserted row's id, None on error
    upsertClock: int,                  // the analysed-at time written, in ms
    questions: Outcome<seq<RawQuestion>>,
    deleteOk: bool,                    // whether the suggestion delete took effect
    insertOk: bool,                    // whether the suggestion insert took effect
    elapsed: int)                      // ms since the run started, at the budget check

  /** The run's fixed inputs: the current month, the start of the current week
      in ms, and the configured model key. */
  datatype Context = Context(current: YearMonth, weekStart: int, modelKey: Option<string>)

  /** The wall-clock budget in ms, checked before each trainee. */
  const BudgetMs: int := 270_000

  datatype Verdict = Processed | Skipped | Failed

  /** The result of visiting one trainee. */
  datatype Visit = Visit(verdict: Verdict, store: Store, suggestions: Suggestions)

  /** What the three parallel generators produced. */
  datatype Analyses = Analyses(sentiment: Sentiment, rawScores: map<int, int>,
                               traits: map<string, TraitScore>, summary: string)

  // ------------------------------------------------------------ one trainee

  /** The trainee's row for the current month was analysed this week. */
  predicate FreshlyAnalyzed(ctx: Context, store: Store, user: string) {
    var slot := Slot(user, ctx.current);
    slot in store && store[slot].analyzedAt.Some? && store[slot].analyzedAt.value >= ctx.weekStart
  }

  /** The previous month's sentiment score: none without a row, and 0 for a
      row whose score is null (Number(null) is 0). */
  function PrevScore(ctx: Context, store: Store, user: string): (r: Option<real>)
    ensures r.Some? <==> Slot(user, PrevMonth(ctx.current)) in store
    ensures r.Some? && store[Slot(user, PrevMonth(ctx.current))].sentiment.None? ==> r.value == 0.0
  {
    var slot := Slot(user, PrevMonth(ctx.current));
    if slot in store then
      Some(match store[slot].sentiment case None => 0.0 case Some(s) => s.score)
    else None
  }

  /** Each generator fetches the model first, so a bad model key makes it
      throw. */
  predicate ModelAvailable(ctx: Context) {
    GetModel(ctx.modelKey).Success?
  }

  /** The three generators run together: None when any of them throws. The
      sentiment object must meet its schema and the personality text must
      parse, or the call throws. */
  function RunGenerators(ctx: Context, s: Subject): (r: Option<Analyses>)
    ensures r.Some? ==> ModelAvailable(ctx) && s.sentiment.Returned? && s.personality.Returned? && s.summary.Returned?
    ensures r.Some? ==> SentimentValid(r.value.sentiment) && r.value.sentiment == s.sentiment.value
    ensures r.Some? ==> r.value.rawScores.Keys == AllItems && r.value.traits.Keys == TraitKeys
    ensures r.Some? ==> r.value.summary == s.summary.value
  {
    if !ModelAvailable(ctx) || s.sentiment.Threw? || s.personality.Threw? || s.summary.Threw? then None
    else if !SentimentValid(s.sentiment.value) then None
    else Personality(s.sentiment.value, s.personality.value, s.summary.value)
  }

  /** The personality result: None when the text does not parse. */
  function Personality(sentiment: Sentiment, text: string, summary: string): (r: Option<Analyses>)
    ensures r.Some? ==> r.value.sentiment == sentiment && r.value.summary == summary
    ensures r.Some? ==> r.value.rawScores.Keys == AllItems && r.value.traits.Keys == TraitKeys
  {
    match ParsePersonalityResponse(text)
    case Failure(_) => None
    case Success(p) => Some(Analyses(sentiment, p.scores, CalcAllTraitScores(p.scores, p.traits), summary))
  }

  /** The suggestion generator's validated questions, None when it throws. */
  function GenerateQuestions(ctx: Context, s: Subject): (r: Option<seq<Question>>)
    ensures r.Some? ==> ModelAvailable(ctx) && |r.value| == QuestionCount
  {
    if !ModelAvailable(ctx) then None
    else match s.questions
      case Threw => None
      case Returned(raws) => ParseQuestions(raws)
  }

  /** Delete the diagnosis's old suggestions, then insert the new ones; either
      statement may fail without anyone noticing. */
  function ReplaceSuggestions(sugg: Suggestions, id: string, qs: seq<Question>,
                              deleteOk: bool, insertOk: bool): (r: Suggestions)
    ensures forall k :: k != id ==> (k in r <==> k in sugg) && (k in r ==> r[k] == sugg[k])
    ensures deleteOk && insertOk ==> id in r && r[id] == qs
    ensures !deleteOk && !insertOk ==> r == sugg
    ensures deleteOk && !insertOk ==> id !in r
    ensures !deleteOk && insertOk ==> id in r && r[id] == (if id in sugg then sugg[id] else []) + qs
  {
    var kept := if deleteOk then sugg - {id} else sugg;
    if insertOk then kept[id := (if id in kept then kept[id] else []) + qs] else kept
  }

  /** The row the upsert writes. */
  function NewDiagnosis(ctx: Context, store: Store, s: Subject, a: Analyses, textLength: nat, id: string): (d: Diagnosis)
    ensures d.analyzedAt == Some(s.upsertClock) && d.sourceTextLength == textLength
    ensures d.sentiment == Some(a.sentiment)
  {
    Diagnosis(id, Some(a.sentiment), Some(CalcTrend(a.sentiment.score, PrevScore(ctx, store, s.id))),
              a.rawScores, a.traits, a.summary, textLength, Some(s.upsertClock))
  }

  /** One trainee: skip when analysed this week or when the corpus is short;
      otherwise analyse the corpus. */
  function VisitSubject(ctx: Context, store: Store, sugg: Suggestions, s: Subject): (v: Visit)
    ensures v.verdict == Skipped ==> v.store == store && v.suggestions == sugg
    ensures v.verdict == Processed ==> ModelAvailable(ctx)
    ensures forall k :: k != Slot(s.id, ctx.current) ==> (k in v.store <==> k in store)
    ensures forall k :: k != Slot(s.id, ctx.current) && k in store ==> v.store[k] == store[k]
  {
    if FreshlyAnalyzed(ctx, store, s.id) then Visit(Skipped, store, sugg)
    else
      var length := Utf16Length(CollectText(s.goals));
      if length < MinTextLength then Visit(Skipped, store, sugg)
      else Analyze(ctx, store, sugg, s, length)
  }

  /** The store after the upsert: the generators succeeded, the upsert
      returned an id, and the current month's row is the new diagnosis. */
  predicate Written(ctx: Context, store: Store, s: Subject, length: nat, after: Store) {
    RunGenerators(ctx, s).Some? && s.upsertId.Some?
    && after == store[Slot(s.id, ctx.current) := NewDiagnosis(ctx, store, s, RunGenerators(ctx, s).value, length, s.upsertId.value)]
  }

  /** Runs the generators, upserts the row and replaces the suggestions. A
      throw anywhere, or an upsert error, counts as failed; a row written
      before a later throw stays written. */
  function Analyze(ctx: Context, store: Store, sugg: Suggestions, s: Subject, length: nat): (v: Visit)
    ensures v.verdict != Skipped
    ensures v.verdict == Processed ==> ModelAvailable(ctx)
    ensures v.store == store || Written(ctx, store, s, length, v.store)
    ensures v.verdict == Processed ==> Written(ctx, store, s, length, v.store)
  {
    var g := RunGenerators(ctx, s);
    if g.None? || s.upsertId.None? then Visit(Failed, store, sugg)
    else
      var written := store[Slot(s.id, ctx.current) := NewDiagnosis(ctx, store, s, g.value, length, s.upsertId.value)];
      assert Written(ctx, store, s, length, written);
      var qs := GenerateQuestions(ctx, s);
      if qs.None? then Visit(Failed, written, sugg)
      else Visit(Processed, written, ReplaceSuggestions(sugg, s.upsertId.value, qs.value, s.deleteOk, s.insertOk))
  }

  // -------------------------------------------------------------- the fold

  datatype Tally = Tally(processed: nat, skipped: nat, failed: nat, partial: bool)

  /** The tally, the diagnosis store and the suggestion store. */
  datatype RunState = RunState(tally: Tally, store: Store, suggestions: Suggestions)

  /** The number of trainees visited in the tally. */
  function Counted(t: Tally): nat {
    t.processed + t.skipped + t.failed
  }

  /** Records one visit: its verdict increments its counter. */
  function Record(st: RunState, v: Visit): (r: RunState)
    ensures Counted(r.tally) == Counted(st.tally) + 1
    ensures r.tally.partial == st.tally.partial
    ensures r.store == v.store && r.suggestions == v.suggestions
    ensures v.verdict == Processed <==> r.tally.processed == st.tally.processed + 1
    ensures v.verdict == Skipped <==> r.tally.skipped == st.tally.skipped + 1
    ensures v.verdict == Failed <==> r.tally.failed == st.tally.failed + 1
  {
    var t := st.tally;
    var t' := match v.verdict
      case Processed => t.(processed := t.processed + 1)
      case Skipped => t.(skipped := t.skipped + 1)
      case Failed => t.(failed := t.failed + 1);
    RunState(t', v.store, v.suggestions)
  }

  /** Visits one trainee and records the verdict. */
  function Step(ctx: Context, st: RunState, s: Subject): RunState {
    Record(st, VisitSubject(ctx, st.store, st.suggestions, s))
  }

  /** The trainees in order, stopping before the first one whose budget check
      finds the elapsed time over budget; the run is then partial. */
  function Loop(ctx: Context, subjects: seq<Subject>, st: RunState): RunState
    decreases |subjects|
  {
    if subjects == [] then st
    else if subjects[0].elapsed > BudgetMs then st.(tally := st.tally.(partial := true))
    else Loop(ctx, subjects[1..], Step(ctx, st, subjects[0]))
  }

  /** How many trainees pass the budget check: the position of the first one
      that fails it, or all of them. */
  function Visited(subjects: seq<Subject>): (n: nat)
    ensures n <= |subjects|
    ensures forall i :: 0 <= i < n ==> subjects[i].elapsed <= BudgetMs
    ensures n < |subjects| ==> subjects[n].elapsed > BudgetMs
  {
    if subjects == [] || subjects[0].elapsed > BudgetMs then 0
    else 1 + Visited(subjects[1..])
  }

  const Zero: Tally := Tally(0, 0, 0, false)

  /** The batch: no trainees (or a failed trainee query) give all zeros;
      otherwise the fold from an empty tally. */
  function RunMonthlyAnalysis(ctx: Context, trainees: Option<seq<Subject>>,
                              store: Store, sugg: Suggestions): (r: RunState)
    ensures trainees.None? || trainees.value == [] ==> r == RunState(Zero, store, sugg)
    ensures trainees.Some? ==> Counted(r.tally) == Visited(trainees.value)
    ensures trainees.Some? ==> (r.tally.partial <==> Visited(trainees.value) < |trainees.value|)
  {
    var init := RunState(Zero, store, sugg);
    if trainees.None? then init
    else if trainees.value == [] then
      assert Visited(trainees.value) == 0;
      init
    else
      LoopTally(ctx, trainees.value, init);
      var r := Loop(ctx, trainees.value, init);
      assert Counted(r.tally) == Visited(trainees.value);
      r
  }

  // -------------------------------------------------------- fold properties

  /** Each visited trainee adds exactly one to the tally; the run is partial
      exactly when some trainee was not visited. */
  lemma {:induction false} LoopTally(ctx: Context, subjects: seq<Subject>, st: RunState)
    requires !st.tally.partial
    ensures Counted(Loop(ctx, subjects, st).tally) == Counted(st.tally) + Visited(subjects)
    ensures Loop(ctx, subjects, st).tally.partial <==> Visited(subjects) < |subjects|
    decreases |subjects|
  {
    if subjects != [] && subjects[0].elapsed <= BudgetMs {
      LoopTally(ctx, subjects[1..], Step(ctx, st, subjects[0]));
    }
  }

  /** A run that is not cut short counts every trainee exactly once; a run
      cut short counts fewer. */
  lemma RunTally(ctx: Context, trainees: seq<Subject>, store: Store, sugg: Suggestions)
    ensures var r := RunMonthlyAnalysis(ctx, Some(trainees), store, sugg);
      !r.tally.partial ==> r.tally.processed + r.tally.skipped + r.tally.failed == |trainees|
    ensures var r := RunMonthlyAnalysis(ctx, Some(trainees), store, sugg);
      r.tally.partial ==> Counted(r.tally) < |trainees|
  {
    var r := RunMonthlyAnalysis(ctx, Some(trainees), store, sugg);
    assert Counted(r.tally) == Visited(trainees);
  }

  /** A cut-short run ends as the run over the trainees before the cut, marked
      partial: the rest are not touched. */
  lemma {:induction false} LoopPrefix(ctx: Context, subjects: seq<Subject>, st: RunState)
    requires !st.tally.partial
    ensures var n := Visited(subjects);
      var whole := Loop(ctx, subjects, st);
      var prefix := Loop(ctx, subjects[..n], st);
      whole.store == prefix.store && whole.suggestions == prefix.suggestions
      && whole.tally == prefix.tally.(partial := n < |subjects|)
    decreases |subjects|
  {
    var n := Visited(subjects);
    if subjects == [] || subjects[0].elapsed > BudgetMs {
      assert n == 0 && subjects[..n] == [];
    } else {
      var st' := Step(ctx, st, subjects[0]);
      var rest := subjects[1..];
      var m := Visited(rest);
      assert n == 1 + m;
      LoopPrefix(ctx, rest, st');
      var pre := subjects[..n];
      assert pre[0] == subjects[0] && pre[1..] == rest[..m];
      LoopCons(ctx, subjects, st);
      LoopCons(ctx, pre, st);
    }
  }

  /** A trainee within the budget is visited and the fold goes on. */
  lemma LoopCons(ctx: Context, subjects: seq<Subject>, st: RunState)
    requires subjects != [] && subjects[0].elapsed <= BudgetMs
    ensures Loop(ctx, subjects, st) == Loop(ctx, subjects[1..], Step(ctx, st, subjects[0]))
  {
  }

  /** The batch writes only current-month rows of visited trainees: every
      other row is left as it was. */
  lemma {:induction false} LoopFrame(ctx: Context, subjects: seq<Subject>, st: RunState, k: Slot)
    requires k.period != ctx.current || forall i :: 0 <= i < |subjects| ==> subjects[i].id != k.user
    ensures k in Loop(ctx, subjects, st).store <==> k in st.store
    ensures k in st.store ==> Loop(ctx, subjects, st).store[k] == st.store[k]
    decreases |subjects|
  {
    if subjects != [] && subjects[0].elapsed <= BudgetMs {
      LoopFrame(ctx, subjects[1..], Step(ctx, st, subjects[0]), k);
    }
  }

  // -------------------------------------------------- per-trainee properties

  /** A trainee analysed this week is skipped and nothing is written. */
  lemma SkipFresh(ctx: Context, store: Store, sugg: Suggestions, s: Subject)
    requires FreshlyAnalyzed(ctx, store, s.id)
    ensures VisitSubject(ctx, store, sugg, s) == Visit(Skipped, store, sugg)
  {
  }

  /** Short corpora: a trainee not analysed this week is skipped exactly when
      the corpus is under the minimum length. */
  lemma SkipShort(ctx: Context, store: Store, sugg: Suggestions, s: Subject)
    requires !FreshlyAnalyzed(ctx, store, s.id)
    ensures VisitSubject(ctx, store, sugg, s).verdict == Skipped
            <==> Utf16Length(CollectText(s.goals)) < MinTextLength
  {
  }

  /** A trainee with a single goal of 49 characters is skipped; with 50 the
      trainee is not. */
  lemma LengthThreshold(ctx: Context, store: Store, sugg: Suggestions, s: Subject, t: string)
    requires !FreshlyAnalyzed(ctx, store, s.id)
    requires s.goals == Some([Goal(Some(t), None)])
    requires forall i :: 0 <= i < |t| ==> t[i] as int <= 0xFFFF
    ensures |t| == 49 ==> VisitSubject(ctx, store, sugg, s) == Visit(Skipped, store, sugg)
    ensures |t| == 50 ==> VisitSubject(ctx, store, sugg, s).verdict != Skipped
  {
    var gs := [Goal(Some(t), None)];
    assert GoalsTexts(gs) == [Some(t)] by {
      assert GoalsTexts(gs) == GoalTexts(gs[0]) + GoalsTexts([]);
    }
    if t != [] {
      assert KeptTexts([Some(t)]) == [t] by {
        assert [Some(t)][1..] == [];
      }
      assert CollectText(s.goals) == t;
      Utf16LengthBmp(t);
    }
  }

  /** A skipped trainee calls no generator: the verdict and the stores do not
      depend on what the generators or the writes would have done. */
  lemma SkipIgnoresGenerators(ctx: Context, store: Store, sugg: Suggestions, s: Subject, other: Subject)
    requires VisitSubject(ctx, store, sugg, s).verdict == Skipped
    requires other.id == s.id && other.goals == s.goals
    ensures VisitSubject(ctx, store, sugg, other) == Visit(Skipped, store, sugg)
  {
  }

  /** An upsert error after successful generators counts as failed and
      writes nothing. */
  lemma UpsertFailure(ctx: Context, store: Store, sugg: Suggestions, s: Subject)
    requires !FreshlyAnalyzed(ctx, store, s.id)
    requires Utf16Length(CollectText(s.goals)) >= MinTextLength
    requires RunGenerators(ctx, s).Some? && s.upsertId.None?
    ensures VisitSubject(ctx, store, sugg, s) == Visit(Failed, store, sugg)
  {
  }

  /** A suggestion generator that throws after the upsert counts as failed,
      but the new diagnosis row stays written. */
  lemma QuestionsFailureKeepsDiagnosis(ctx: Context, store: Store, sugg: Suggestions, s: Subject)
    requires !FreshlyAnalyzed(ctx, store, s.id)
    requires Utf16Length(CollectText(s.goals)) >= MinTextLength
    requires RunGenerators(ctx, s).Some? && s.upsertId.Some?
    requires s.questions.Threw?
    ensures var v := VisitSubject(ctx, store, sugg, s);
      v.verdict == Failed && v.suggestions == sugg
      && Slot(s.id, ctx.current) in v.store
      && v.store[Slot(s.id, ctx.current)].analyzedAt == Some(s.upsertClock)
  {
  }

  /** A processed trainee's row for the current month holds a valid sentiment,
      the trend against the previous month, all 60 raw scores, the seven
      traits, the corpus length (at least the minimum) and the upsert time. */
  lemma ProcessedDiagnosis(ctx: Context, store: Store, sugg: Suggestions, s: Subject)
    requires VisitSubject(ctx, store, sugg, s).verdict == Processed
    ensures var v := VisitSubject(ctx, store, sugg, s);
      var slot := Slot(s.id, ctx.current);
      slot in v.store
      && var d := v.store[slot];
      d.sentiment.Some? && SentimentValid(d.sentiment.value)
      && d.trend == Some(CalcTrend(d.sentiment.value.score, PrevScore(ctx, store, s.id)))
      && d.rawScores.Keys == AllItems
      && d.traits.Keys == TraitKeys
      && d.sourceTextLength >= MinTextLength
      && d.analyzedAt == Some(s.upsertClock)
      && Some(d.id) == s.upsertId
  {
    var length := Utf16Length(CollectText(s.goals));
    var v := Analyze(ctx, store, sugg, s, length);
    assert VisitSubject(ctx, store, sugg, s) == v;
    var slot := Slot(s.id, ctx.current);
    assert v.store[slot] == NewDiagnosis(ctx, store, s, RunGenerators(ctx, s).value, length, s.upsertId.value);
  }

  /** A trainee not analysed this week, with a corpus of at least the minimum
      length, whose generators, upsert and suggestion generator all succeed is
      processed: the row is written and the suggestions are replaced. */
  lemma ProcessedWhenAllSucceed(ctx: Context, store: Store, sugg: Suggestions, s: Subject)
    requires !FreshlyAnalyzed(ctx, store, s.id)
    requires Utf16Length(CollectText(s.goals)) >= MinTextLength
    requires RunGenerators(ctx, s).Some? && s.upsertId.Some? && GenerateQuestions(ctx, s).Some?
    ensures var v := VisitSubject(ctx, store, sugg, s);
      && v.verdict == Processed
      && v.suggestions == ReplaceSuggestions(sugg, s.upsertId.value, GenerateQuestions(ctx, s).value,
                                             s.deleteOk, s.insertOk)
      && Written(ctx, store, s, Utf16Length(CollectText(s.goals)), v.store)
  {
    var length := Utf16Length(CollectText(s.goals));
    assert VisitSubject(ctx, store, sugg, s) == Analyze(ctx, store, sugg, s, length);
    AnalyzeVerdict(ctx, store, sugg, s, length);
    AnalyzeSuggestions(ctx, store, sugg, s, length);
  }

  /** The generators succeed exactly when a model is configured, the three
      calls return, the sentiment is valid and the personality reply parses. */
  lemma RunGeneratorsOutcome(ctx: Context, s: Subject)
    ensures RunGenerators(ctx, s).Some?
            <==> && ModelAvailable(ctx)
                 && s.sentiment.Returned? && s.personality.Returned? && s.summary.Returned?
                 && SentimentValid(s.sentiment.value)
                 && ParsePersonalityResponse(s.personality.value).Success?
  {
  }

  /** The personality step succeeds exactly when the reply parses; the raw
      scores are the parsed ones and the traits are scored from them. */
  lemma PersonalityOutcome(sentiment: Sentiment, text: string, summary: string)
    ensures Personality(sentiment, text, summary).Some? <==> ParsePersonalityResponse(text).Success?
    ensures Personality(sentiment, text, summary).Some? ==>
      var a := Personality(sentiment, text, summary).value;
      var p := ParsePersonalityResponse(text).value;
      a.rawScores == p.scores && a.traits == CalcAllTraitScores(p.scores, p.traits)
  {
  }

  /** The suggestion generator succeeds exactly when a model is configured,
      the call returns and every question parses; the questions are the parsed
      ones. */
  lemma GenerateQuestionsOutcome(ctx: Context, s: Subject)
    ensures GenerateQuestions(ctx, s).Some?
            <==> ModelAvailable(ctx) && s.questions.Returned? && ParseQuestions(s.questions.value).Some?
    ensures GenerateQuestions(ctx, s).Some? ==> GenerateQuestions(ctx, s) == ParseQuestions(s.questions.value)
  {
  }

  /** Analysis succeeds exactly when the generators, the upsert and the
      suggestion generator all succeed. */
  lemma AnalyzeVerdict(ctx: Context, store: Store, sugg: Suggestions, s: Subject, length: nat)
    ensures Analyze(ctx, store, sugg, s, length).verdict == Processed
            <==> RunGenerators(ctx, s).Some? && s.upsertId.Some? && GenerateQuestions(ctx, s).Some?
  {
  }

  /** A processed trainee's suggestions are replaced by the generated
      questions; a failed one's are untouched. */
  lemma AnalyzeSuggestions(ctx: Context, store: Store, sugg: Suggestions, s: Subject, length: nat)
    ensures var v := Analyze(ctx, store, sugg, s, length);
      v.verdict == Processed ==>
        v.suggestions == ReplaceSuggestions(sugg, s.upsertId.value, GenerateQuestions(ctx, s).value,
                                            s.deleteOk, s.insertOk)
    ensures Analyze(ctx, store, sugg, s, length).verdict == Failed ==>
      Analyze(ctx, store, sugg, s, length).suggestions == sugg
  {
    var v := Analyze(ctx, store, sugg, s, length);
    if RunGenerators(ctx, s).Some? && s.upsertId.Some? && GenerateQuestions(ctx, s).Some? {
      assert v.suggestions
        == ReplaceSuggestions(sugg, s.upsertId.value, GenerateQuestions(ctx, s).value, s.deleteOk, s.insertOk);
    } else {
      assert v.suggestions == sugg;
    }
  }

  /** The tally and the diagnosis store do not depend on whether the
      suggestion delete and insert took effect. */
  lemma SuggestionWritesUnchecked(ctx: Context, store: Store, sugg: Suggestions, s: Subject, del: bool, ins: bool)
    ensures var v := VisitSubject(ctx, store, sugg, s);
      var w := VisitSubject(ctx, store, sugg, s.(deleteOk := del, insertOk := ins));
      v.verdict == w.verdict && v.store == w.store
  {
    var s2 := s.(deleteOk := del, insertOk := ins);
    assert RunGenerators(ctx, s) == RunGenerators(ctx, s2);
    assert GenerateQuestions(ctx, s) == GenerateQuestions(ctx, s2);
    var length := Utf16Length(CollectText(s.goals));
    if !FreshlyAnalyzed(ctx, store, s.id) && length >= MinTextLength {
      assert VisitSubject(ctx, store, sugg, s) == Analyze(ctx, store, sugg, s, length);
      assert VisitSubject(ctx, store, sugg, s2) == Analyze(ctx, store, sugg, s2, length);
    }
  }

  /** A processed trainee whose row was stamped within the week is skipped
      when visited again in the same run or a rerun in the same week. */
  lemma RerunSkips(ctx: Context, store: Store, sugg: Suggestions, s: Subject, again: Subject)
    requires VisitSubject(ctx, store, sugg, s).verdict == Processed
    requires s.upsertClock >= ctx.weekStart
    requires again.id == s.id
    ensures var v := VisitSubject(ctx, store, sugg, s);
      VisitSubject(ctx, v.store, v.suggestions, again) == Visit(Skipped, v.store, v.suggestions)
  {
    ProcessedDiagnosis(ctx, store, sugg, s);
  }

  /** With a malformed or unsupported model key nobody is processed and
      nothing is written. */
  lemma BadModelKeyWritesNothing(ctx: Context, store: Store, sugg: Suggestions, s: Subject)
    requires GetModel(ctx.modelKey).Failure?
    ensures VisitSubject(ctx, store, sugg, s).verdict != Processed
    ensures VisitSubject(ctx, store, sugg, s).store == store
  {
  }

  // ---------------------------------------------------------- the loop form

  /** The batch as the code runs it: a loop over the trainees that returns
      early, marked partial, when the budget is exceeded. It agrees with the
      fold. */
  method RunBatch(ctx: Context, trainees: Option<seq<Subject>>, store: Store, sugg: Suggestions)
    returns (tally: Tally, store': Store, sugg': Suggestions)
    ensures RunState(tally, store', sugg') == RunMonthlyAnalysis(ctx, trainees, store, sugg)
  {
    if trainees.None? || |trainees.value| == 0 {
      return Zero, store, sugg;
    }
    var st := RunLoop(ctx, trainees.value, RunState(Zero, store, sugg));
    RunIsLoop(ctx, trainees.value, store, sugg);
    return st.tally, st.store, st.suggestions;
  }

  /** The loop over the trainees, returning early, marked partial, at the
      first trainee past the budget. */
  method RunLoop(ctx: Context, subjects: seq<Subject>, init: RunState) returns (st: RunState)
    requires !init.tally.partial
    ensures st == Loop(ctx, subjects, init)
  {
    st := init;
    var i := 0;
    while i < |subjects|
      invariant 0 <= i <= |subjects|
      invariant !st.tally.partial
      invariant Loop(ctx, subjects[i..], st) == Loop(ctx, subjects, init)
    {
      if subjects[i].elapsed > BudgetMs {
        return st.(tally := st.tally.(partial := true));
      }
      LoopCons(ctx, subjects[i..], st);
      assert subjects[i..][1..] == subjects[i + 1..];
      st := Step(ctx, st, subjects[i]);
      i := i + 1;
    }
    assert subjects[i..] == [];
  }

  /** A non-empty run is the fold from an empty tally. */
  lemma RunIsLoop(ctx: Context, subjects: seq<Subject>, store: Store, sugg: Suggestions)
    requires subjects != []
    ensures RunMonthlyAnalysis(ctx, Some(subjects), store, sugg) == Loop(ctx, subjects, RunState(Zero, store, sugg))
  {
  }
}
