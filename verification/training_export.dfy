/**
 * What the two export buttons (src/features/progress/components/data-export-card.tsx
 * and src/pages/settings-page.tsx) compute from the stored sessions: one CSV
 * row per logged set, the set total and the short list of recent sessions.
 * Both pages build the same rows and differ only in their header.
 *
 * `String(number)` is JavaScript's number formatting; it is the parameter
 * `show`, applied to every numeric column (counts included, since JavaScript
 * numbers are all floating point).
 */
module TrainingExport {
  import opened Wrappers
  import opened Records
  import opened TrainingDb
  import opened Csv

  /** Number of columns of every exported row. */
  const Columns: nat := 12

  /** How many sessions the printable report lists. */
  const RecentLimit: nat := 12

  /**
   * The row of one set: the session's date, split, workout type, label and
   * duration, then the set's exercise, its one-based order, load, reps, and
   * rpe, rir and technique with a missing value written as "".
   */
  function SetRow(session: Session, logged: ExerciseSet, show: real -> string): (row: seq<string>)
    ensures |row| == Columns
    ensures row[0] == session.date && row[1] == session.splitType
    ensures row[2] == session.workoutType && row[3] == session.workoutLabel
    ensures row[4] == show(session.durationMin as real)
    ensures row[5] == logged.exerciseName
    ensures row[6] == show((logged.setOrder + 1) as real)
    ensures row[7] == show(logged.weightKg) && row[8] == show(logged.reps as real)
    ensures row[9] == if logged.rpe.Some? then show(logged.rpe.value) else ""
    ensures row[10] == if logged.rir.Some? then show(logged.rir.value as real) else ""
    ensures row[11] == if logged.technique.Some? then logged.technique.value else ""
  {
    [ session.date,
      session.splitType,
      session.workoutType,
      session.workoutLabel,
      show(session.durationMin as real),
      logged.exerciseName,
      show((logged.setOrder + 1) as real),
      show(logged.weightKg),
      show(logged.reps as real),
      if logged.rpe.None? then "" else show(logged.rpe.value),
      if logged.rir.None? then "" else show(logged.rir.value as real),
      logged.technique.GetOr("") ]
  }

  /** The rows of one session's sets, in the order of its sets. */
  function SessionRows(entry: SessionWithSets, show: real -> string): (rows: seq<seq<string>>)
    ensures |rows| == |entry.sets|
  {
    seq(|entry.sets|, j requires 0 <= j < |entry.sets| => SetRow(entry.session.body, entry.sets[j].body, show))
  }

  /** The data rows of the export: session after session, each with its sets in order. */
  function SetRows(sessions: seq<SessionWithSets>, show: real -> string): seq<seq<string>>
    decreases |sessions|
  {
    if sessions == [] then []
    else SetRows(sessions[..|sessions| - 1], show) + SessionRows(sessions[|sessions| - 1], show)
  }

  /** `sessions.reduce((sum, session) => sum + session.sets.length, 0)` */
  function TotalSets(sessions: seq<SessionWithSets>): nat
    decreases |sessions|
  {
    if sessions == [] then 0
    else TotalSets(sessions[..|sessions| - 1]) + |sessions[|sessions| - 1].sets|
  }

  /** Concatenating the session lists concatenates their rows: the rows follow the sessions' order. */
  lemma {:induction false} SetRowsAppend(a: seq<SessionWithSets>, b: seq<SessionWithSets>, show: real -> string)
    ensures SetRows(a + b, show) == SetRows(a, show) + SetRows(b, show)
    decreases |b|
  {
    if b != [] {
      var ab := a + b;
      assert ab[..|ab| - 1] == a + b[..|b| - 1];
      assert ab[|ab| - 1] == b[|b| - 1];
      SetRowsAppend(a, b[..|b| - 1], show);
    } else {
      assert a + b == a;
    }
  }

  /** One session contributes exactly the rows of its own sets. */
  lemma SetRowsOfOne(entry: SessionWithSets, show: real -> string)
    ensures SetRows([entry], show) == SessionRows(entry, show)
  {
    assert [entry][..0] == [];
  }

  /** There is exactly one data row per logged set. */
  lemma {:induction false} SetRowsCount(sessions: seq<SessionWithSets>, show: real -> string)
    ensures |SetRows(sessions, show)| == TotalSets(sessions)
    decreases |sessions|
  {
    if sessions != [] {
      SetRowsCount(sessions[..|sessions| - 1], show);
    }
  }

  /** Every data row has the twelve columns of the header. */
  lemma {:induction false} SetRowsWidth(sessions: seq<SessionWithSets>, show: real -> string)
    ensures forall k | 0 <= k < |SetRows(sessions, show)| :: |SetRows(sessions, show)[k]| == Columns
    decreases |sessions|
  {
    if sessions != [] {
      SetRowsWidth(sessions[..|sessions| - 1], show);
    }
  }

  /** After the header, the rows of the first `i` sessions followed by those of session `i` are the rows of the first `i + 1`. */
  lemma SetRowsStep(header: seq<string>, sessions: seq<SessionWithSets>, i: nat, show: real -> string)
    requires i < |sessions|
    ensures [header] + SetRows(sessions[..i], show) + SessionRows(sessions[i], show)
      == [header] + SetRows(sessions[..i + 1], show)
  {
    assert sessions[..i + 1][..i] == sessions[..i];
  }

  /** The inner loop of `handleExportCsv`: one pushed row per set of `entry`, in order. */
  method PushSessionRows(rows: seq<seq<string>>, entry: SessionWithSets, show: real -> string)
    returns (rows': seq<seq<string>>)
    ensures rows' == rows + SessionRows(entry, show)
  {
    rows' := rows;
    ghost var block := SessionRows(entry, show);
    for j := 0 to |entry.sets|
      invariant rows' == rows + block[..j]
    {
      var row := SetRow(entry.session.body, entry.sets[j].body, show);
      assert block[..j + 1] == block[..j] + [row];
      rows' := rows' + [row];
    }
    assert block[..|entry.sets|] == block;
  }

  /**
   * The nested loops of `handleExportCsv`: the header row, then the rows of
   * each session in turn.
   */
  method BuildCsvRows(header: seq<string>, sessions: seq<SessionWithSets>, show: real -> string)
    returns (rows: seq<seq<string>>)
    ensures rows == [header] + SetRows(sessions, show)
    ensures |rows| == 1 + TotalSets(sessions)
  {
    rows := [header];
    for i := 0 to |sessions|
      invariant rows == [header] + SetRows(sessions[..i], show)
    {
      SetRowsStep(header, sessions, i, show);
      rows := PushSessionRows(rows, sessions[i], show);
    }
    assert sessions[..|sessions|] == sessions;
    assert |rows| == 1 + |SetRows(sessions, show)|;
    SetRowsCount(sessions, show);
  }

  /**
   * The CSV text of an export with the given twelve-column header: it reads
   * back as exactly the header followed by one row per set.
   */
  lemma ExportReadsBack(header: seq<string>, sessions: seq<SessionWithSets>, show: real -> string)
    requires |header| == Columns
    ensures ParseCsv(EncodeCsv([header] + SetRows(sessions, show))) == Some([header] + SetRows(sessions, show))
  {
    var rows := [header] + SetRows(sessions, show);
    SetRowsWidth(sessions, show);
    assert forall i | 0 <= i < |rows| :: |rows[i]| == Columns;
    ParseEncodeCsv(rows);
  }

  /** One line of the report's table of recent sessions. */
  datatype RecentSession = RecentSession(
    date: IsoDate,
    splitType: SplitType,
    workoutLabel: string,
    durationMin: int,
    setCount: nat)

  function Summarize(entry: SessionWithSets): (s: RecentSession)
    ensures s.setCount == |entry.sets|
    ensures s.date == entry.session.body.date && s.durationMin == entry.session.body.durationMin
    ensures s.splitType == entry.session.body.splitType && s.workoutLabel == entry.session.body.workoutLabel
  {
    var session := entry.session.body;
    RecentSession(session.date, session.splitType, session.workoutLabel, session.durationMin, |entry.sets|)
  }

  /** `sessions.slice(0, 12).map(...)`: the first twelve sessions, or all of them when fewer. */
  function RecentSessions(sessions: seq<SessionWithSets>): (r: seq<RecentSession>)
    ensures |r| == if |sessions| < RecentLimit then |sessions| else RecentLimit
    ensures forall i | 0 <= i < |r| :: r[i] == Summarize(sessions[i])
  {
    var n := if |sessions| < RecentLimit then |sessions| else RecentLimit;
    seq(n, i requires 0 <= i < n => Summarize(sessions[i]))
  }

  /** Sessions beyond the twelfth do not change the list of recent sessions. */
  lemma RecentIgnoresLaterSessions(sessions: seq<SessionWithSets>, later: seq<SessionWithSets>)
    requires |sessions| >= RecentLimit
    ensures RecentSessions(sessions + later) == RecentSessions(sessions)
  {
    var a := RecentSessions(sessions + later);
    var b := RecentSessions(sessions);
    assert forall i | 0 <= i < |a| :: a[i] == b[i];
  }

  /** The first sessions never hold more sets than all of them: the report's table never lists more sets than its total. */
  lemma {:induction false} TotalSetsPrefix(sessions: seq<SessionWithSets>, k: nat)
    requires k <= |sessions|
    ensures TotalSets(sessions[..k]) <= TotalSets(sessions)
    decreases |sessions|
  {
    if k < |sessions| {
      var init := sessions[..|sessions| - 1];
      assert init[..k] == sessions[..k];
      TotalSetsPrefix(init, k);
    } else {
      assert sessions[..k] == sessions;
    }
  }
}
