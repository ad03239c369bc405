/** The diagnosis read queries: the N-month history window of a trainee, and
    the latest diagnosis of each trainee assigned to a trainer. The database
    filters and sorts; the model takes the rows it returns as inputs. */
module DiagnosisQueries {

  import opened Wrappers
  import opened Calendar

  datatype QueryError = AuthRequired

  // ---------------------------------------------------------------- history

  /** Math.trunc(a / b): the quotient rounded toward zero. */
  function TruncDiv(a: int, b: int): (q: int)
    requires b > 0
    ensures a >= 0 ==> b * q <= a < b * (q + 1)
    ensures a < 0 ==> b * (q - 1) < a <= b * q
  {
    if a >= 0 then a / b else -((-a) / b)
  }

  /** JavaScript's % on integers: the remainder of the truncating division, so
      it takes the sign of the dividend. */
  function JsRem(a: int, b: int): (r: int)
    requires b > 0
    ensures a == b * TruncDiv(a, b) + r
    ensures a >= 0 ==> 0 <= r < b
    ensures a < 0 ==> -b < r <= 0
    ensures -b < a <= 0 ==> r == a
  {
    if a >= 0 then
      var q := a / b;
      assert a == b * q + a % b;
      a % b
    else
      var q := (-a) / b;
      assert -a == b * q + (-a) % b;
      assert b * -q == -(b * q);
      -((-a) % b)
  }

  /** Math.ceil(a / b) for a >= 0 and b > 0. */
  function CeilDiv(a: int, b: int): (r: int)
    requires a >= 0 && b > 0
    ensures b * (r - 1) < a <= b * r
  {
    (a + b - 1) / b
  }

  /** The first month of the window as the code computes it: the month is
      wrapped into 1..12, and the year goes back ceil(|start| / 12) years. */
  function HistoryStartAsWritten(current: YearMonth, months: int): (r: YearMonth)
    ensures var start := current.month - months + 1;
      start <= 0 ==> 1 <= r.month <= 12 && (r.month - start) % 12 == 0
                     && r.year == current.year - CeilDiv(-start, 12)
    ensures var start := current.month - months + 1;
      start > 0 ==> r == YM(current.year, start)
  {
    var start := current.month - months + 1;
    if start <= 0 then
      var m := 12 + JsRem(start, 12);
      YM(current.year - CeilDiv(-start, 12), if m == 0 then 12 else m)
    else
      YM(current.year, start)
  }

  /** The queried months as the code lists them: months after the start,
      wrapped once past December. */
  function HistoryWindowAsWritten(current: YearMonth, months: nat): (w: seq<YearMonth>)
    ensures |w| == months
  {
    var st := HistoryStartAsWritten(current, months);
    seq(months, i => if st.month + i > 12 then YM(st.year + 1, st.month + i - 12) else YM(st.year, st.month + i))
  }

  /** For up to 13 months the single wrap suffices: every listed month is a
      valid month. */
  lemma HistoryWindowAsWrittenInRange(current: YearMonth, months: nat)
    requires Valid(current) && months <= 13
    ensures forall i :: 0 <= i < months ==> Valid(HistoryWindowAsWritten(current, months)[i])
  {
    var st := HistoryStartAsWritten(current, months);
    assert 1 <= st.month && st.month + months - 1 <= 24;
  }

  /** The window the doc comment describes: the `months` consecutive months
      ending with the current one. */
  function HistoryWindow(current: YearMonth, months: nat): (w: seq<YearMonth>)
    ensures |w| == months
    ensures forall i :: 0 <= i < months ==> Valid(w[i])
    ensures forall i :: 0 <= i < months ==> MonthIndex(w[i]) == MonthIndex(current) - (months - 1) + i
  {
    var w := seq(months, i => AddMonths(current, i - months + 1));
    assert forall i :: 0 <= i < months ==> w[i] == AddMonths(current, i - months + 1);
    w
  }

  /** The corrected window is consecutive and ends at the current month. */
  lemma HistoryWindowConsecutive(current: YearMonth, months: nat)
    requires Valid(current) && months > 0
    ensures HistoryWindow(current, months)[months - 1] == current
    ensures forall i :: 0 <= i < months - 1 ==>
      HistoryWindow(current, months)[i + 1] == NextMonth(HistoryWindow(current, months)[i])
  {
    var w := HistoryWindow(current, months);
    IndexInjective(w[months - 1], current);
    forall i | 0 <= i < months - 1 ensures w[i + 1] == NextMonth(w[i]) {
      StepsAreAddMonths(w[i]);
      IndexInjective(w[i + 1], AddMonths(w[i], 1));
    }
  }

  /** The code's window is the intended one except when the start month
      computes to 0 (months == current month + 1): then the year is not moved
      back and the window runs from December of the current year. */
  lemma HistoryWindowAsWrittenAgrees(current: YearMonth, months: nat)
    requires Valid(current) && 1 <= months <= 13
    ensures HistoryWindowAsWritten(current, months) == HistoryWindow(current, months)
            <==> months != current.month + 1
  {
    var a := HistoryWindowAsWritten(current, months);
    var c := HistoryWindow(current, months);
    var st := HistoryStartAsWritten(current, months);
    var start := current.month - months + 1;
    if months == current.month + 1 {
      assert st == YM(current.year, 12);
      assert a[0] != c[0] by {
        assert MonthIndex(a[0]) == MonthIndex(current) + 12 - current.month;
      }
    } else {
      assert MonthIndex(st) == MonthIndex(current) - (months - 1) by {
        if start <= 0 {
          assert -11 <= start < 0;
          assert CeilDiv(-start, 12) == 1;
        }
      }
      forall i | 0 <= i < months ensures a[i] == c[i] {
        assert MonthIndex(a[i]) == MonthIndex(st) + i;
        IndexInjective(a[i], c[i]);
      }
    }
  }

  /** The case that shows the fault: in May with the default six months, the
      code queries December of this year through May of next year. */
  lemma HistoryWindowMayCounterexample()
    ensures HistoryWindowAsWritten(YM(2025, 5), 6)
         == [YM(2025, 12), YM(2026, 1), YM(2026, 2), YM(2026, 3), YM(2026, 4), YM(2026, 5)]
  {
    var w := HistoryWindowAsWritten(YM(2025, 5), 6);
    assert JsRem(0, 12) == 0 && CeilDiv(0, 12) == 0;
    assert HistoryStartAsWritten(YM(2025, 5), 6) == YM(2025, 12);
    assert w[0] == YM(2025, 12) && w[1] == YM(2026, 1) && w[2] == YM(2026, 2);
    assert w[3] == YM(2026, 3) && w[4] == YM(2026, 4) && w[5] == YM(2026, 5);
  }

  /** The same case corrected: December of last year through May. */
  lemma HistoryWindowMayCorrected()
    ensures HistoryWindow(YM(2025, 5), 6)
         == [YM(2024, 12), YM(2025, 1), YM(2025, 2), YM(2025, 3), YM(2025, 4), YM(2025, 5)]
  {
    var c := HistoryWindow(YM(2025, 5), 6);
    IndexInjective(c[0], YM(2024, 12));
    IndexInjective(c[1], YM(2025, 1));
    IndexInjective(c[2], YM(2025, 2));
    IndexInjective(c[3], YM(2025, 3));
    IndexInjective(c[4], YM(2025, 4));
    IndexInjective(c[5], YM(2025, 5));
  }

  /** The history request as the code makes it: the signed-in trainee's id and
      the months it queries, or an error when nobody is signed in. For up to
      13 months the queried months are valid, and they are the last N months
      exactly when N is not the current month number plus one. */
  function HistoryRequest(user: Option<string>, current: YearMonth, months: nat): (r: Result<(string, seq<YearMonth>), QueryError>)
    ensures r.Failure? <==> user.None?
    ensures r.Success? ==> r.value.0 == user.value && |r.value.1| == months
    ensures r.Success? && Valid(current) && months <= 13 ==>
              forall i :: 0 <= i < months ==> Valid(r.value.1[i])
    ensures r.Success? && Valid(current) && 1 <= months <= 13 ==>
              (r.value.1 == HistoryWindow(current, months) <==> months != current.month + 1)
  {
    if user.None? then Failure(AuthRequired)
    else
      var w := HistoryWindowAsWritten(current, months);
      if Valid(current) && months <= 13 then
        HistoryWindowAsWrittenInRange(current, months);
        if 1 <= months then
          HistoryWindowAsWrittenAgrees(current, months);
          Success((user.value, w))
        else
          Success((user.value, w))
      else
        Success((user.value, w))
  }

  /** The history request with the corrected window: the id and the N
      consecutive months ending with the current one. */
  function CorrectedHistoryRequest(user: Option<string>, current: YearMonth, months: nat): (r: Result<(string, seq<YearMonth>), QueryError>)
    ensures r.Failure? <==> user.None?
    ensures r.Success? ==> r.value.0 == user.value && |r.value.1| == months
    ensures r.Success? && Valid(current) && months > 0 ==>
              r.value.1[months - 1] == current &&
              forall i :: 0 <= i < months - 1 ==> r.value.1[i + 1] == NextMonth(r.value.1[i])
  {
    if user.None? then Failure(AuthRequired)
    else
      if Valid(current) && months > 0 then
        HistoryWindowConsecutive(current, months);
        Success((user.value, HistoryWindow(current, months)))
      else
        Success((user.value, HistoryWindow(current, months)))
  }

  // ------------------------------------------------------- latest per user

  datatype DiagnosisRow = DiagnosisRow(id: string, userId: string, period: YearMonth)

  datatype Trainee = Trainee(id: string, name: string)

  datatype Assignment = Assignment(traineeId: string, trainee: Trainee)

  datatype Entry = Entry(trainee: Trainee, diagnosis: Option<DiagnosisRow>)

  /** Rows ordered by (year, month), latest first, as the query returns them. */
  predicate SortedLatestFirst(rows: seq<DiagnosisRow>) {
    forall i, j :: 0 <= i < j < |rows| ==> MonthIndex(rows[j].period) <= MonthIndex(rows[i].period)
  }

  /** The position of the first row of user u, if any. */
  function FirstFor(rows: seq<DiagnosisRow>, u: string): (r: Option<nat>)
    ensures r.Some? ==> r.value < |rows| && rows[r.value].userId == u
    ensures r.Some? ==> forall j :: 0 <= j < r.value ==> rows[j].userId != u
    ensures r.None? <==> forall j :: 0 <= j < |rows| ==> rows[j].userId != u
  {
    if rows == [] then None
    else if rows[0].userId == u then Some(0)
    else match FirstFor(rows[1..], u)
      case None =>
        assert forall j :: 1 <= j < |rows| ==> rows[j] == rows[1..][j - 1];
        None
      case Some(k) => Some(k + 1)
  }

  /** The row kept for user u: the first of u's rows. */
  function LatestOf(rows: seq<DiagnosisRow>, u: string): Option<DiagnosisRow> {
    match FirstFor(rows, u)
    case None => None
    case Some(k) => Some(rows[k])
  }

  /** Keeps, for each user, the first row seen. */
  method LatestByUser(rows: seq<DiagnosisRow>) returns (latest: map<string, DiagnosisRow>)
    ensures forall u :: u in latest <==> exists j :: 0 <= j < |rows| && rows[j].userId == u
    ensures forall u :: u in latest ==> LatestOf(rows, u) == Some(latest[u])
  {
    latest := map[];
    var i := 0;
    while i < |rows|
      invariant 0 <= i <= |rows|
      invariant forall u :: u in latest <==> exists j :: 0 <= j < i && rows[j].userId == u
      invariant forall u :: u in latest ==>
        FirstFor(rows, u).Some? && FirstFor(rows, u).value < i && latest[u] == rows[FirstFor(rows, u).value]
    {
      var d := rows[i];
      if d.userId !in latest {
        latest := latest[d.userId := d];
      }
      i := i + 1;
    }
  }

  /** On rows sorted latest first, the kept row of a user is that user's latest
      diagnosis, and a user without rows keeps none. */
  lemma LatestOfIsLatest(rows: seq<DiagnosisRow>, u: string)
    requires SortedLatestFirst(rows)
    ensures LatestOf(rows, u).None? <==> forall j :: 0 <= j < |rows| ==> rows[j].userId != u
    ensures LatestOf(rows, u).Some? ==>
      LatestOf(rows, u).value.userId == u &&
      forall j :: 0 <= j < |rows| && rows[j].userId == u ==>
        MonthIndex(rows[j].period) <= MonthIndex(LatestOf(rows, u).value.period)
  {
  }

  /** The trainer's summary: one entry per assignment, in assignment order,
      with the trainee's kept diagnosis or none; no assignments give an empty
      list; nobody signed in is an error. */
  method GetAllTraineesLatestDiagnosis(user: Option<string>, assignments: Option<seq<Assignment>>,
                                       diagnoses: Option<seq<DiagnosisRow>>)
    returns (r: Result<seq<Entry>, QueryError>)
    ensures r.Failure? <==> user.None?
    ensures user.Some? && (assignments.None? || assignments.value == []) ==> r == Success([])
    ensures user.Some? && assignments.Some? ==>
      r.Success? && |r.value| == |assignments.value|
    ensures user.Some? && assignments.Some? ==>
      forall i :: 0 <= i < |assignments.value| ==>
        r.value[i].trainee == assignments.value[i].trainee &&
        r.value[i].diagnosis == LatestOf(diagnoses.GetOr([]), assignments.value[i].traineeId)
  {
    if user.None? {
      return Failure(AuthRequired);
    }
    if assignments.None? || |assignments.value| == 0 {
      return Success([]);
    }
    var rows := diagnoses.GetOr([]);
    var latest := LatestByUser(rows);
    var asg := assignments.value;
    var entries: seq<Entry> := [];
    var i := 0;
    while i < |asg|
      invariant 0 <= i <= |asg|
      invariant |entries| == i
      invariant forall k :: 0 <= k < i ==>
        entries[k].trainee == asg[k].trainee && entries[k].diagnosis == LatestOf(rows, asg[k].traineeId)
    {
      var id := asg[i].traineeId;
      var found := if id in latest then Some(latest[id]) else None;
      if id !in latest {
        assert FirstFor(rows, id).None?;
      }
      entries := entries + [Entry(asg[i].trainee, found)];
      i := i + 1;
    }
    return Success(entries);
  }
}
