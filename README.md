# Figures daily course metrics, modelled in Dafny

This project models the daily course-metrics ETL of Figures, the Open edX
metrics plugin. For one course and one day, the pipeline:

- reads the platform's enrollments, courseware activity records and certificates;
- computes the enrollment count, the number of learners active that day, the
  average progress, the average days to complete and the number of completions;
- upserts the result as one `CourseDailyMetrics` row keyed by
  (course_id, date_for).

It also models the logic in the Figures models:

- `progress_percent` and `progress_details` on the learner grade cache;
- the "most recent record for a learner and course" lookup;
- the uniqueness and range constraints of the metric tables;
- the `PipelineError` category choices.

Files:

- `wrappers.dfy`: `Option` and `Result`.
- `aggregates.dfy`: order-keeping filters, sums, means and extremes, with their lemmas.
- `models.dfy`: `figures/models.py`. It includes the metrics table as a class
  whose `UpdateOrCreate` changes the row sequence in place.
- `pipeline.dfy`: `figures/pipeline/course_daily_metrics.py`. The platform data
  is an in-memory `Snapshot`. The grade service's per-learner progress is a
  function from user to real. "Today" is a parameter. Days are day numbers;
  `next_day` and `prev_day` add and subtract one.

The loops of `get_average_progress`, `get_days_to_complete` and `extract` are
methods proved against specification functions (`Mean`, `DaysToComplete`,
`Extracted`). Those functions' properties are proved as lemmas.
`get_days_to_complete` raises when a certificate's user has no enrollment in the
course (`ce[0]`). The model returns `Failure(NoEnrollmentForCertificate)` for
that case, and `extract` and `load` pass it on unchanged; `load` then leaves the
table untouched.

The average days to complete only takes certificates with
`created_date <= date_for` (course_daily_metrics.py:114-116). Take three
enrollments created on days 1, 2 and 3 and one certificate for the first learner
on day 10. For date_for = 5 the certificate is not yet counted, so the average
days to complete is 0.0, while num_learners_completed is already 1
(`ScenarioBeforeCertificate`). From day 10 on the average is 9.0
(`ScenarioOnCertificateDay`). Both figures are in day numbers; the time-of-day
line under "## Left out" says what that leaves aside.

## Model

| member | source | states |
|---|---|---|
| `Aggregates.Filter` | figures/pipeline/course_daily_metrics.py:39-42 | a query filter keeps exactly the elements that satisfy the condition and never grows the input |
| `Aggregates.FilterEmpty` | figures/pipeline/course_daily_metrics.py:226-229 | a query comes back empty exactly when no record satisfies its condition |
| `Aggregates.FilterConcat` | figures/pipeline/course_daily_metrics.py:114-116 | filtering a concatenation filters each part and keeps them in order, so a query returns its matches in table order |
| `Aggregates.FilterKeepsAll` | figures/pipeline/course_daily_metrics.py:39-42 | a filter whose condition every record meets returns all records, in order |
| `Aggregates.FilterMultiplicity` | figures/pipeline/course_daily_metrics.py:39-42 | a filter keeps every copy of a matching record and no other record |
| `Aggregates.FilterLengthMonotone` | figures/pipeline/course_daily_metrics.py:61-65 | a filter by a stronger condition keeps no more records |
| `Aggregates.FilterFirst` | figures/pipeline/course_daily_metrics.py:121-134 | the first record a filter returns is the earliest record in the table that matches |
| `Aggregates.Mean` | figures/pipeline/course_daily_metrics.py:86-89 | the mean is 0.0 for an empty list, and otherwise it times the count equals the sum |
| `Aggregates.MeanWithinBounds` | figures/pipeline/course_daily_metrics.py:86-89 | a mean of values in [lo, hi] lies in [lo, hi] |
| `Aggregates.SumBounds` | figures/pipeline/course_daily_metrics.py:87 | a sum of n values in [lo, hi] lies in [n*lo, n*hi] |
| `Aggregates.MinOf` | figures/pipeline/course_daily_metrics.py:137-142 | the minimum of a non-empty list is in the list and at most every element |
| `Aggregates.MaxOf` | figures/pipeline/course_daily_metrics.py:137-142 | the maximum of a non-empty list is in the list and at least every element |
| `Pipeline.CourseEnrollments` | figures/pipeline/course_daily_metrics.py:38-42 | the enrollments returned are exactly the course's enrollments created before the next day, that is on or before date_for |
| `Pipeline.CourseEnrollmentsMultiplicity` | figures/pipeline/course_daily_metrics.py:38-42 | each such enrollment is returned as often as the table holds it, and no other enrollment is returned |
| `Pipeline.CountedEnrollments` | figures/pipeline/course_daily_metrics.py:61-65 | the records the query keeps are exactly the active enrollments of the course created on or before date_for whose user is not staff, instructor or coach |
| `Pipeline.CountedEnrollmentsMultiplicity` | figures/pipeline/course_daily_metrics.py:61-65 | each such enrollment is kept as often as the table holds it, and no other enrollment is kept |
| `Pipeline.NumEnrolledExcludeAdmins` | figures/pipeline/course_daily_metrics.py:45-65 | the result is the number of those enrollments (`.count()`); it never exceeds the day's enrollment set and is 0 exactly when no enrollment qualifies |
| `Pipeline.MoreRolesCountFewer` | figures/pipeline/course_daily_metrics.py:57-65 | adding users to the staff, instructor or coach sets never raises the count |
| `Pipeline.ActiveLearnersToday` | figures/pipeline/course_daily_metrics.py:67-73 | the records returned are exactly the course's student-module records modified on date_for |
| `Pipeline.ActiveLearnersTodayMultiplicity` | figures/pipeline/course_daily_metrics.py:67-73 | each such record is returned as often as the table holds it, and no other record is returned, so the count at line 227 counts identical records separately |
| `Pipeline.IdenticalActivityRecordsAllCount` | tests/conftest.py:30-34 | n identical student-module records of the course modified on the day give n records, as the fixture's five records do |
| `Pipeline.CertificatesUpTo` | figures/pipeline/course_daily_metrics.py:114-116 | the certificates returned are exactly the course's certificates created on or before date_for |
| `Pipeline.CertificatesUpToMultiplicity` | figures/pipeline/course_daily_metrics.py:114-116 | each such certificate is returned as often as the table holds it, and no other certificate is returned |
| `Pipeline.CourseCertificates` | figures/pipeline/course_daily_metrics.py:155-156 | the certificates returned are exactly the course's certificates, whatever their date |
| `Pipeline.CourseCertificatesMultiplicity` | figures/pipeline/course_daily_metrics.py:155-156 | each of the course's certificates is returned as often as the table holds it, and no other certificate is returned |
| `Pipeline.NumLearnersCompleted` | figures/pipeline/course_daily_metrics.py:154-157 | the result is the number of the course's certificates (`.count()`), so never fewer than those up to date_for; is 0 exactly when the course has none |
| `Pipeline.NumLearnersCompletedIgnoresDay` | figures/pipeline/course_daily_metrics.py:154-157 | the completion count is the same for every date_for |
| `Pipeline.EnrollmentsOf` | figures/pipeline/course_daily_metrics.py:121-123 | the enrollments returned are exactly the user's enrollments in the course, whatever their date |
| `Pipeline.EnrollmentsOfMultiplicity` | figures/pipeline/course_daily_metrics.py:121-125 | each such enrollment is returned as often as the table holds it, and no other enrollment is returned, so `ce.count()` is the number of the user's enrollments in the course |
| `Pipeline.AtMostOneEnrollmentOf` | mocks/hawthorn/student/models.py:143 | when the enrollment table holds one enrollment per user and course, the query for one user and course returns at most one record |
| `Pipeline.NoWarningsUnderOneEnrollmentPerLearner` | figures/pipeline/course_daily_metrics.py:124-130 | under that constraint a successful pass raises no "Multiple CE records" warning |
| `Pipeline.FirstEnrollmentIsEarliestListed` | figures/pipeline/course_daily_metrics.py:133-134 | `ce[0]` is the user's first-listed enrollment in the course |
| `Pipeline.GetAverageProgress` | figures/pipeline/course_daily_metrics.py:75-91 | the loop collects one progress value per enrollment; the result is their mean, 0.0 with no enrollments, and in [0, 1] when every progress value is |
| `Pipeline.DaysToCompleteSucceedsIff` | figures/pipeline/course_daily_metrics.py:120-134 | the pass over the certificates succeeds exactly when every certificate's user has an enrollment in the course |
| `Pipeline.DaysToCompleteDays` | figures/pipeline/course_daily_metrics.py:120-134 | one entry per certificate, in order: the certificate's day minus the created day of its user's first enrollment |
| `Pipeline.DaysToCompleteFailure` | figures/pipeline/course_daily_metrics.py:120-134 | a failure names the user of the first certificate that has no enrollment |
| `Pipeline.DaysToCompleteFailureIsFinal` | figures/pipeline/course_daily_metrics.py:120-134 | once a certificate fails, the pass stops with that failure |
| `Pipeline.DaysToCompleteWarningCount` | figures/pipeline/course_daily_metrics.py:124-130 | one warning per certificate whose user has more than one enrollment in the course |
| `Pipeline.DaysToCompleteWarningsAre` | figures/pipeline/course_daily_metrics.py:124-130 | every warning is "Multiple CE records" for such a certificate's user, and every such certificate has its warning |
| `Pipeline.DaysToCompleteStep` | figures/pipeline/course_daily_metrics.py:120-134 | one more certificate whose user is enrolled adds its day entry, and a warning when the user is enrolled more than once |
| `Pipeline.DaysToCompleteStopsAt` | figures/pipeline/course_daily_metrics.py:121-134 | a certificate whose user is not enrolled, after a successful prefix, ends the whole pass with the failure naming that user |
| `Pipeline.GetDaysToComplete` | figures/pipeline/course_daily_metrics.py:94-135 | the loop over the certificates up to date_for produces exactly the days and errors above, or the failure |
| `Pipeline.CalcAverageDaysToComplete` | figures/pipeline/course_daily_metrics.py:137-142 | 0.0 for an empty list; otherwise the result times the count equals the sum |
| `Pipeline.CalcAverageBetweenMinMax` | figures/pipeline/course_daily_metrics.py:137-142 | the average of a non-empty list lies between its minimum and its maximum |
| `Pipeline.GetAverageDaysToComplete` | figures/pipeline/course_daily_metrics.py:144-151 | the average of the day entries, with the warnings dropped, or the failure |
| `Pipeline.Extracted` | figures/pipeline/course_daily_metrics.py:183-239 | extraction succeeds exactly when every certificate up to the day has an enrollment, and then carries the day and the course |
| `Pipeline.Extract` | figures/pipeline/course_daily_metrics.py:183-239 | resolves a missing day to the day before today and fills every field as `Extracted` defines it |
| `Pipeline.EnrollmentCountIsInclusive` | figures/pipeline/course_daily_metrics.py:222-231 | enrollment_count is the size of the enrollment set; active_learners_today is the number of activity records on the day, 0 when there are none |
| `Pipeline.EnrollmentCountMonotone` | figures/pipeline/course_daily_metrics.py:38-42 | the enrollment set never shrinks as date_for moves forward |
| `Pipeline.AverageProgressInRange` | figures/models.py:36-39 | when every learner's progress is in [0, 1], the extracted average_progress meets the column's [0.0, 1.0] validators |
| `Pipeline.NoEnrollmentsMeansZeroAverages` | figures/pipeline/course_daily_metrics.py:86-89 | with no enrollment in the course, extraction succeeds exactly when there is no certificate up to the day, and then both averages are 0.0 and the count is 0 |
| `Pipeline.CourseDailyMetricsLoader.GetData` | figures/pipeline/course_daily_metrics.py:248-251 | (corrected) the summary of the course on the requested day |
| `Pipeline.CourseDailyMetricsLoader.GetDataAsWritten` | figures/pipeline/course_daily_metrics.py:248-251 | (as written) the summary of the day before today, whatever day was requested |
| `Pipeline.CourseDailyMetricsLoader.Load` | figures/pipeline/course_daily_metrics.py:253-285 | upserts the extracted values under (course_id, date_for) and reports whether the row is new; keeps keys unique; leaves the table unchanged on failure; keeps stored progress in range when every progress value is in [0, 1] |
| `Pipeline.CourseDailyMetricsLoader.LoadTwice` | figures/pipeline/course_daily_metrics.py:253-285 | a second load on unchanged data creates nothing and leaves the rows as the first load left them |
| `Pipeline.GetDataTypoCounterexample` | figures/pipeline/course_daily_metrics.py:248-251 | an input where the as-written get_data stores another day's enrollment count under date_for |
| `Pipeline.ScenarioBeforeCertificate` | figures/pipeline/course_daily_metrics.py:114-116 | three enrollments and a later certificate give count 3, one completion and average days 0.0 before the certificate's day |
| `Pipeline.ScenarioOnCertificateDay` | figures/pipeline/course_daily_metrics.py:134 | on the certificate's day the average days to complete is 9.0 |
| `Models.IndexOfKey` | figures/models.py:45 | the first row with the key, or none exactly when no row has it |
| `Models.Upsert` | figures/models.py:45 | update_or_create: `created` exactly when no row had the key; the row is stored; other rows keep their values and positions; uniqueness is kept and the key then holds only this row |
| `Models.UpsertIdempotent` | figures/models.py:45 | upserting the same row again reports no creation and changes nothing |
| `Models.UpsertKeepsProgressInRange` | figures/models.py:36-39 | upserting an in-range row keeps every stored average_progress null or within [0.0, 1.0] |
| `Models.CourseDailyMetricsTable.UpdateOrCreate` | figures/models.py:44-46 | the in-place upsert on the table keeps (course_id, date_for) unique and afterwards holds exactly one row for the key, with the new values |
| `Models.ProgressPercent` | figures/models.py:143-155 | 0.0 when sections_possible is 0; otherwise the result times sections_possible equals sections_worked; in [0, 1] when 0 <= worked <= possible |
| `Models.ProgressDetailsOf` | figures/models.py:157-167 | the four stored progress fields, unchanged |
| `Models.ProgressDetailsDeterminePercent` | figures/models.py:143-167 | two records with equal details have equal progress_percent |
| `Models.MostRecentForLearnerCourse` | figures/models.py:93-95 | none exactly when no record matches the user and course; otherwise a matching record whose date_for is maximal |
| `Models.MostRecentIsUnique` | figures/models.py:136 | under (user, course_id, date_for) uniqueness, the most recent match is the only match on its day |
| `Models.ErrorTypeCode` | figures/models.py:176-188 | every category is stored as one of UNSPECIFIED, GRADES, COURSE, SITE, within the 255-character column |
| `Models.ErrorTypeLabel` | figures/models.py:181-186 | every category's label is one of the four listed labels |
| `Models.ErrorTypeChoicesDistinct` | figures/models.py:176-186 | no two categories share a code or a label |
| `Models.ParseErrorType` | figures/models.py:181-188 | a stored code is accepted exactly when it is one of the four choices, and it reads back as the category with that code |
| `Models.ErrorTypeCodeRoundTrip` | figures/models.py:176-188 | reading back a category's code gives the category |
| `Models.NewPipelineError` | figures/models.py:187-193 | a new error has the given category, or UNSPECIFIED when none is given, and keeps its other fields |

## Left out

- Database query mechanics: `filter`, `exclude`, `count` and `update_or_create` are filters and an upsert over in-memory sequences. There is no concurrency; two loaders racing on one key are not modelled.
- `as_course_key`, `as_date` and the ccx course locator are not part of this model. Course ids are plain strings compared for equality.
- The staff, instructor and coach role lookups (course_daily_metrics.py:51-59) are input sets.
- The grade computation of `LearnerCourseGrades` (course_daily_metrics.py:82-84) is not part of this model. Each learner's progress is an input function of the user.
- The wall clock (`utcnow`) is the `today` parameter. The `print` calls and the debugger breakpoint in `load` have no behaviour to model.
- Time of day: enrollment, activity and certificate timestamps are day numbers. Comparisons of a timestamp with a date, and the flooring of `timedelta.days`, are not modelled.
- `DecimalField` rounding of `average_progress` is not modelled, and neither is the integer column type of `average_days_to_complete`. Stored averages are exact reals.
- The range validators on `average_progress` are not enforced by the upsert itself. The model proves the loader writes in-range values when every learner's progress is in [0, 1].
- `CourseDailyMetrics.site` is left out, along with the created and modified timestamps of every model. The column is a non-null foreign key (models.py:25), and `load` never supplies it (course_daily_metrics.py:274-284). As written, the create branch of `update_or_create` would therefore be refused by the database, and only the update of an existing row could succeed. The model follows a table without a site column, so its `created == true` path has no counterpart in the code as written.
- The `Meta.ordering` of the metric models (models.py:46, 137) is not modelled: the table keeps insertion order.
- The snapshot is deliberately more general than the platform's enrollment table. That table is unique per (user, course) and ordered by (user, course) (mocks/hawthorn/student/models.py:143-144). The model allows several enrollments per user and course, so that the "Multiple CE records" branch and `ce[0]` have a meaning; `ce[0]` is then the first enrollment in snapshot order. Under the platform's constraint, `AtMostOneEnrollmentOf` and `NoWarningsUnderOneEnrollmentPerLearner` show the query returns at most one record and the warning never arises.
- `MostRecentForLearnerCourse`: ties on date_for, which the uniqueness constraint rules out for a non-null user, go to the first-listed record. The database leaves that order unspecified.
- `SiteDailyMetrics`, `CourseIndicesExtractor`, the empty `CourseDailyMetricsJob`, `test_extract` and `test_load` are not part of this model. They hold no pipeline logic.
- The serializers, views, URL routing, platform mocks and test factories are framework configuration and test scaffolding.
- `PipelineError.error_data` is opaque JSON, modelled as a string.

## Findings

| source | as written | input that shows it | evidently intended | confidence | as-written member | corrected member |
|---|---|---|---|---|---|---|
| figures/pipeline/course_daily_metrics.py:248-251 | `get_data` passes the day as `data_for=`. `extract` takes it into `**kwargs` and ignores it, so it summarises the day before today. `load` still stores that summary under its own `date_for`. | one enrollment created on day 5; today is day 10; load for day 3. The row for day 3 gets enrollment_count 1 (the day-9 count); the day-3 count is 0. | pass `date_for=date_for`, so the row for a day holds that day's figures | high; not executed | `Pipeline.CourseDailyMetricsLoader.GetDataAsWritten`, `Pipeline.GetDataTypoCounterexample` | `Pipeline.CourseDailyMetricsLoader.GetData`, used by `Pipeline.CourseDailyMetricsLoader.Load` |
