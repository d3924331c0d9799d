/**
 * Names both scripts share: the reports directory, the stem of a full
 * run's report and the prefix of a test method's name.
 */
module Layout {
  const ReportsDir := "test_reports"
  const SuiteReportStem := "selenium_test_report_"
  const TestPrefix := "test_"
}
