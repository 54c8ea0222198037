/**
 * The export card of the progress page
 * (src/features/progress/components/data-export-card.tsx): the CSV of all
 * logged sets with Portuguese column names, and the data of the printable
 * report.
 */
module DataExportCard {
  import opened Wrappers
  import opened Records
  import opened TrainingDb
  import opened Csv
  import opened TrainingExport

  const Header: seq<string> := [
    "data", "tipoDivisao", "tipoTreino", "nomeTreino", "duracaoMin", "nomeExercicio",
    "ordemSerie", "pesoKg", "repeticoes", "rpe", "rir", "tecnica"]

  /**
   * `handleExportCsv` without the download: the CSV text of the sessions
   * that `getAllSessionsWithSets` returned. It reads back as the header and
   * one row per set, session after session.
   */
  method HandleExportCsv(sessions: seq<SessionWithSets>, show: real -> string) returns (csv: string)
    ensures csv == EncodeCsv([Header] + SetRows(sessions, show))
    ensures ParseCsv(csv) == Some([Header] + SetRows(sessions, show))
    ensures |SetRows(sessions, show)| == TotalSets(sessions)
  {
    var rows := BuildCsvRows(Header, sessions, show);
    csv := EncodeCsv(rows);
    ExportReadsBack(Header, sessions, show);
  }

  datatype TrainingReportData = TrainingReportData(
    generatedAt: string,
    totalSessions: nat,
    totalSets: nat,
    totalReadiness: nat,
    totalWeightEntries: nat,
    recentSessions: seq<RecentSession>)

  /**
   * `createTrainingReportData`: the counts of the backup snapshot and its
   * first twelve sessions. `generatedAt` is the locale rendering of the
   * clock, given as a parameter.
   */
  function CreateTrainingReportData(snapshot: BackupSnapshot, generatedAt: string): (r: TrainingReportData)
    ensures r.generatedAt == generatedAt
    ensures r.totalSessions == |snapshot.sessions|
    ensures r.totalReadiness == |snapshot.readinessLogs|
    ensures r.totalWeightEntries == |snapshot.weightLogs|
    ensures r.totalSets == TotalSets(snapshot.sessions)
    ensures |r.recentSessions| == if |snapshot.sessions| < RecentLimit then |snapshot.sessions| else RecentLimit
    ensures forall i | 0 <= i < |r.recentSessions| :: r.recentSessions[i] == Summarize(snapshot.sessions[i])
  {
    TrainingReportData(
      generatedAt,
      |snapshot.sessions|,
      TotalSets(snapshot.sessions),
      |snapshot.readinessLogs|,
      |snapshot.weightLogs|,
      RecentSessions(snapshot.sessions))
  }

  /** The report's set total is the number of data rows of the CSV export of the same sessions. */
  lemma ReportCountsCsvRows(snapshot: BackupSnapshot, generatedAt: string, show: real -> string)
    ensures CreateTrainingReportData(snapshot, generatedAt).totalSets == |SetRows(snapshot.sessions, show)|
  {
    SetRowsCount(snapshot.sessions, show);
  }

  /** The sets of the sessions the report lists are at most its set total. */
  lemma RecentSetsWithinTotal(snapshot: BackupSnapshot, generatedAt: string)
    ensures var r := CreateTrainingReportData(snapshot, generatedAt);
      TotalSets(snapshot.sessions[..|r.recentSessions|]) <= r.totalSets
  {
    var r := CreateTrainingReportData(snapshot, generatedAt);
    TotalSetsPrefix(snapshot.sessions, |r.recentSessions|);
  }
}
