/**
 * The export buttons of the settings page (src/pages/settings-page.tsx):
 * the CSV of all logged sets with English column names and the totals and
 * recent sessions of the printable report.
 */
module SettingsPage {
  import opened Wrappers
  import opened Records
  import opened TrainingDb
  import opened Csv
  import opened TrainingExport
  import DataExportCard

  const Header: seq<string> := [
    "date", "splitType", "workoutType", "workoutLabel", "durationMin", "exerciseName",
    "setOrder", "weightKg", "reps", "rpe", "rir", "technique"]

  /** `handleExportCsv` without the download; it reads back as the header and one row per set. */
  method HandleExportCsv(sessions: seq<SessionWithSets>, show: real -> string) returns (csv: string)
    ensures csv == EncodeCsv([Header] + SetRows(sessions, show))
    ensures ParseCsv(csv) == Some([Header] + SetRows(sessions, show))
    ensures |SetRows(sessions, show)| == TotalSets(sessions)
  {
    var rows := BuildCsvRows(Header, sessions, show);
    csv := EncodeCsv(rows);
    ExportReadsBack(Header, sessions, show);
  }

  /** Both CSV exports hold the same data rows; only the header row differs. */
  lemma SameRowsAsProgressExport(sessions: seq<SessionWithSets>, show: real -> string)
    ensures var mine := ParseCsv(EncodeCsv([Header] + SetRows(sessions, show)));
      var theirs := ParseCsv(EncodeCsv([DataExportCard.Header] + SetRows(sessions, show)));
      mine.Some? && theirs.Some? && mine.value[1..] == theirs.value[1..] && mine.value[0] != theirs.value[0]
  {
    ExportReadsBack(Header, sessions, show);
    ExportReadsBack(DataExportCard.Header, sessions, show);
    assert Header[0] != DataExportCard.Header[0];
  }

  datatype ReportTotals = ReportTotals(
    totalSessions: nat,
    totalSets: nat,
    totalReadiness: nat,
    totalWeightEntries: nat)

  /** The four counts of `handleExportPdf`. */
  function Totals(snapshot: BackupSnapshot): (t: ReportTotals)
    ensures t.totalSessions == |snapshot.sessions|
    ensures t.totalSets == TotalSets(snapshot.sessions)
    ensures t.totalReadiness == |snapshot.readinessLogs| && t.totalWeightEntries == |snapshot.weightLogs|
  {
    ReportTotals(|snapshot.sessions|, TotalSets(snapshot.sessions), |snapshot.readinessLogs|, |snapshot.weightLogs|)
  }

  /** The table lines of the report: the first twelve sessions of the snapshot. */
  function RecentRows(snapshot: BackupSnapshot): (r: seq<RecentSession>)
    ensures |r| == if |snapshot.sessions| < RecentLimit then |snapshot.sessions| else RecentLimit
    ensures forall i | 0 <= i < |r| :: r[i] == Summarize(snapshot.sessions[i])
  {
    RecentSessions(snapshot.sessions)
  }

  /** The settings page reports the same figures as the progress page's report. */
  lemma SameReportAsProgressPage(snapshot: BackupSnapshot, generatedAt: string)
    ensures var card := DataExportCard.CreateTrainingReportData(snapshot, generatedAt);
      var t := Totals(snapshot);
      t.totalSessions == card.totalSessions && t.totalSets == card.totalSets
      && t.totalReadiness == card.totalReadiness && t.totalWeightEntries == card.totalWeightEntries
      && RecentRows(snapshot) == card.recentSessions
  {
  }
}
