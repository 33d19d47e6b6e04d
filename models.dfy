/**
 * The Figures metric tables and the little logic attached to them:
 * the daily per-course metrics row with its (course_id, date_for) uniqueness
 * and its average_progress range, the upsert the loader performs on that
 * table, the learner grade-cache row with its progress helpers and its
 * most-recent lookup, and the pipeline error record.
 */
module Models {
  import opened Wrappers

  /** A calendar day, as a day number. */
  type Day = int
  type CourseId = string
  type UserId = nat
  type SiteId = nat

  // ---------------------------------------------------------------------
  // CourseDailyMetrics

  /** One row of the daily course metrics table; the nullable columns are Options. */
  datatype CourseDailyMetrics = CourseDailyMetrics(
    dateFor: Day,
    courseId: CourseId,
    enrollmentCount: int,
    activeLearnersToday: int,
    averageProgress: Option<real>,
    averageDaysToComplete: Option<real>,
    numLearnersCompleted: int)

  /** The columns the upsert overwrites (its `defaults`). */
  datatype MetricValues = MetricValues(
    enrollmentCount: int,
    activeLearnersToday: int,
    averageProgress: Option<real>,
    averageDaysToComplete: Option<real>,
    numLearnersCompleted: int)

  /** The table's uniqueness key. */
  datatype MetricsKey = MetricsKey(courseId: CourseId, dateFor: Day)

  function KeyOf(row: CourseDailyMetrics): MetricsKey
  {
    MetricsKey(row.courseId, row.dateFor)
  }

  function RowOf(key: MetricsKey, values: MetricValues): (row: CourseDailyMetrics)
    ensures KeyOf(row) == key
  {
    CourseDailyMetrics(key.dateFor, key.courseId, values.enrollmentCount, values.activeLearnersToday,
                       values.averageProgress, values.averageDaysToComplete, values.numLearnersCompleted)
  }

  /** At most one row per (course_id, date_for). */
  predicate UniqueKeys(rows: seq<CourseDailyMetrics>)
  {
    forall i, j :: 0 <= i < j < |rows| ==> KeyOf(rows[i]) != KeyOf(rows[j])
  }

  /** The validators on average_progress: null, or within [0.0, 1.0]. */
  predicate ProgressInRange(row: CourseDailyMetrics)
  {
    row.averageProgress.None? || 0.0 <= row.averageProgress.value <= 1.0
  }

  predicate AllProgressInRange(rows: seq<CourseDailyMetrics>)
  {
    forall i :: 0 <= i < |rows| ==> ProgressInRange(rows[i])
  }

  predicate HasKey(rows: seq<CourseDailyMetrics>, key: MetricsKey)
  {
    exists i :: 0 <= i < |rows| && KeyOf(rows[i]) == key
  }

  /** The position of the first row with the given key, if there is one. */
  function IndexOfKey(rows: seq<CourseDailyMetrics>, key: MetricsKey): (r: Option<nat>)
    ensures r.None? <==> !HasKey(rows, key)
    ensures r.Some? ==> r.value < |rows| && KeyOf(rows[r.value]) == key
    ensures r.Some? ==> forall j :: 0 <= j < r.value ==> KeyOf(rows[j]) != key
  {
    if rows == [] then None
    else if KeyOf(rows[0]) == key then Some(0)
    else
      match IndexOfKey(rows[1..], key)
      case None =>
        assert forall i :: 1 <= i < |rows| ==> rows[i] == rows[1..][i - 1];
        None
      case Some(i) => Some(i + 1)
  }

  datatype UpsertResult = UpsertResult(rows: seq<CourseDailyMetrics>, created: bool)

  /**
   * update_or_create keyed by the row's (course_id, date_for): the row with
   * that key is overwritten in place, or the row is added when none has it.
   */
  function Upsert(rows: seq<CourseDailyMetrics>, row: CourseDailyMetrics): (r: UpsertResult)
    ensures r.created <==> !HasKey(rows, KeyOf(row))
    ensures row in r.rows
    ensures |r.rows| == |rows| + (if r.created then 1 else 0)
    ensures forall j :: 0 <= j < |rows| && KeyOf(rows[j]) != KeyOf(row) ==> r.rows[j] == rows[j]
    ensures forall x :: KeyOf(x) != KeyOf(row) ==> (x in r.rows <==> x in rows)
    ensures UniqueKeys(rows) ==> UniqueKeys(r.rows)
    ensures UniqueKeys(rows) ==> forall x :: x in r.rows && KeyOf(x) == KeyOf(row) ==> x == row
  {
    match IndexOfKey(rows, KeyOf(row))
    case Some(i) =>
      assert rows[i := row][i] == row;
      UpsertResult(rows[i := row], false)
    case None => UpsertResult(rows + [row], true)
  }

  /** Upserting the same row again finds it, reports no creation and changes nothing. */
  lemma UpsertIdempotent(rows: seq<CourseDailyMetrics>, row: CourseDailyMetrics)
    ensures Upsert(Upsert(rows, row).rows, row) == UpsertResult(Upsert(rows, row).rows, false)
  {
    var first := Upsert(rows, row).rows;
    match IndexOfKey(rows, KeyOf(row))
    case Some(i) =>
      assert first == rows[i := row];
      var k := IndexOfKey(first, KeyOf(row));
      assert KeyOf(first[i]) == KeyOf(row);
      assert k.Some? && k.value <= i;
    case None =>
      assert first == rows + [row];
      assert IndexOfKey(first, KeyOf(row)) == Some(|rows|);
      assert first[|rows| := row] == first;
  }

  /** An upsert of an in-range row keeps every stored average_progress in range. */
  lemma UpsertKeepsProgressInRange(rows: seq<CourseDailyMetrics>, row: CourseDailyMetrics)
    requires AllProgressInRange(rows) && ProgressInRange(row)
    ensures AllProgressInRange(Upsert(rows, row).rows)
  {
    var r := Upsert(rows, row).rows;
    forall i | 0 <= i < |r| ensures ProgressInRange(r[i]) {
      if r[i] != row {
        assert r[i] in r;
        assert r[i] in rows;
      }
    }
  }

  /** The daily course metrics table, which the loader updates in place. */
  class CourseDailyMetricsTable {
    var rows: seq<CourseDailyMetrics>

    predicate Valid()
      reads this
    {
      UniqueKeys(rows)
    }

    constructor ()
      ensures Valid() && rows == []
    {
      rows := [];
    }

    /**
     * The ORM's update_or_create(course_id, date_for, defaults): afterwards exactly
     * one row has the key and it holds `defaults`; `created` tells whether it is new.
     */
    method UpdateOrCreate(courseId: CourseId, dateFor: Day, defaults: MetricValues)
      returns (row: CourseDailyMetrics, created: bool)
      requires Valid()
      modifies this
      ensures Valid()
      ensures row == RowOf(MetricsKey(courseId, dateFor), defaults)
      ensures created <==> !HasKey(old(rows), MetricsKey(courseId, dateFor))
      ensures rows == Upsert(old(rows), row).rows
      ensures row in rows && forall x :: x in rows && KeyOf(x) == KeyOf(row) ==> x == row
      ensures forall x :: KeyOf(x) != KeyOf(row) ==> (x in rows <==> x in old(rows))
    {
      row := RowOf(MetricsKey(courseId, dateFor), defaults);
      var found := IndexOfKey(rows, KeyOf(row));
      if found.Some? {
        rows := rows[found.value := row];
        created := false;
      } else {
        rows := rows + [row];
        created := true;
      }
    }
  }

  // ---------------------------------------------------------------------
  // LearnerCourseGradeMetrics

  /** A cached snapshot of a learner's graded-section progress in a course on a day. */
  datatype LearnerCourseGradeMetrics = LearnerCourseGradeMetrics(
    dateFor: Day,
    user: Option<UserId>,
    courseId: CourseId,
    pointsPossible: real,
    pointsEarned: real,
    sectionsWorked: int,
    sectionsPossible: int)

  /** Sections worked over sections possible; 0.0 when the course has no graded sections. */
  function ProgressPercent(m: LearnerCourseGradeMetrics): (r: real)
    ensures m.sectionsPossible == 0 ==> r == 0.0
    ensures m.sectionsPossible != 0 ==> r * (m.sectionsPossible as real) == m.sectionsWorked as real
    ensures 0 <= m.sectionsWorked <= m.sectionsPossible ==> 0.0 <= r <= 1.0
  {
    if m.sectionsPossible != 0 then (m.sectionsWorked as real) / (m.sectionsPossible as real)
    else 0.0
  }

  datatype ProgressDetails = ProgressDetails(
    pointsPossible: real,
    pointsEarned: real,
    sectionsWorked: int,
    sectionsPossible: int)

  /** The four stored progress fields, unchanged. */
  function ProgressDetailsOf(m: LearnerCourseGradeMetrics): (d: ProgressDetails)
    ensures d.pointsPossible == m.pointsPossible && d.pointsEarned == m.pointsEarned
    ensures d.sectionsWorked == m.sectionsWorked && d.sectionsPossible == m.sectionsPossible
  {
    ProgressDetails(m.pointsPossible, m.pointsEarned, m.sectionsWorked, m.sectionsPossible)
  }

  /** The details carry everything progress_percent reads: equal details, equal progress. */
  lemma ProgressDetailsDeterminePercent(a: LearnerCourseGradeMetrics, b: LearnerCourseGradeMetrics)
    requires ProgressDetailsOf(a) == ProgressDetailsOf(b)
    ensures ProgressPercent(a) == ProgressPercent(b)
  {
  }

  /**
   * At most one row per (user, course_id, date_for). Rows without a user are
   * not constrained, as a database unique constraint ignores null columns.
   */
  predicate UniqueLearnerCourseDays(records: seq<LearnerCourseGradeMetrics>)
  {
    forall i, j :: 0 <= i < j < |records| && records[i].user.Some? ==>
      (records[i].user, records[i].courseId, records[i].dateFor) != (records[j].user, records[j].courseId, records[j].dateFor)
  }

  predicate IsFor(m: LearnerCourseGradeMetrics, user: UserId, courseId: CourseId)
  {
    m.user == Some(user) && m.courseId == courseId
  }

  /** The learner's record for the course with the latest date_for, if any. */
  function MostRecentForLearnerCourse(records: seq<LearnerCourseGradeMetrics>, user: UserId, courseId: CourseId)
    : (r: Option<LearnerCourseGradeMetrics>)
    ensures r.None? <==> forall m :: m in records ==> !IsFor(m, user, courseId)
    ensures r.Some? ==> r.value in records && IsFor(r.value, user, courseId)
    ensures r.Some? ==> forall m :: m in records && IsFor(m, user, courseId) ==> m.dateFor <= r.value.dateFor
  {
    if records == [] then None
    else
      var rest := MostRecentForLearnerCourse(records[1..], user, courseId);
      assert forall m :: m in records ==> m == records[0] || m in records[1..];
      if IsFor(records[0], user, courseId) && (rest.None? || rest.value.dateFor <= records[0].dateFor)
      then Some(records[0])
      else rest
  }

  /** With the uniqueness constraint, the most recent record is the only match on its day. */
  lemma MostRecentIsUnique(records: seq<LearnerCourseGradeMetrics>, user: UserId, courseId: CourseId,
                           m: LearnerCourseGradeMetrics)
    requires UniqueLearnerCourseDays(records)
    requires m in records && IsFor(m, user, courseId)
    requires MostRecentForLearnerCourse(records, user, courseId).Some?
    requires m.dateFor == MostRecentForLearnerCourse(records, user, courseId).value.dateFor
    ensures m == MostRecentForLearnerCourse(records, user, courseId).value
  {
    var x := MostRecentForLearnerCourse(records, user, courseId).value;
    var i :| 0 <= i < |records| && records[i] == m;
    var j :| 0 <= j < |records| && records[j] == x;
    if i < j {
      assert (records[i].user, records[i].courseId, records[i].dateFor) == (records[j].user, records[j].courseId, records[j].dateFor);
    } else if j < i {
      assert (records[j].user, records[j].courseId, records[j].dateFor) == (records[i].user, records[i].courseId, records[i].dateFor);
    }
  }

  // ---------------------------------------------------------------------
  // PipelineError

  /** The error categories a PipelineError may carry. */
  datatype ErrorType = UnspecifiedData | GradesData | CourseData | SiteData

  /** The stored code of each category. */
  function ErrorTypeCode(t: ErrorType): (code: string)
    ensures |code| <= 255
    ensures code in {"UNSPECIFIED", "GRADES", "COURSE", "SITE"}
  {
    match t
    case UnspecifiedData => "UNSPECIFIED"
    case GradesData => "GRADES"
    case CourseData => "COURSE"
    case SiteData => "SITE"
  }

  /** The human-readable label of each category, one of the four listed choices. */
  function ErrorTypeLabel(t: ErrorType): (text: string)
    ensures text in {"Unspecified data error", "Grades data error", "Course data error", "Site data error"}
  {
    match t
    case UnspecifiedData => "Unspecified data error"
    case GradesData => "Grades data error"
    case CourseData => "Course data error"
    case SiteData => "Site data error"
  }

  /** The choices pair each category with its own code and its own label: no two categories share either. */
  lemma ErrorTypeChoicesDistinct(t1: ErrorType, t2: ErrorType)
    ensures ErrorTypeCode(t1) == ErrorTypeCode(t2) ==> t1 == t2
    ensures ErrorTypeLabel(t1) == ErrorTypeLabel(t2) ==> t1 == t2
  {
    if t1 != t2 {
      assert ErrorTypeCode(t1)[0] != ErrorTypeCode(t2)[0];
      assert ErrorTypeLabel(t1)[0] != ErrorTypeLabel(t2)[0];
    }
  }

  /** Reads a stored code back; only the four choices are accepted. */
  function ParseErrorType(code: string): (r: Option<ErrorType>)
    ensures r.Some? <==> code in {"UNSPECIFIED", "GRADES", "COURSE", "SITE"}
    ensures r.Some? ==> ErrorTypeCode(r.value) == code
  {
    if code == "UNSPECIFIED" then Some(UnspecifiedData)
    else if code == "GRADES" then Some(GradesData)
    else if code == "COURSE" then Some(CourseData)
    else if code == "SITE" then Some(SiteData)
    else None
  }

  lemma {:induction false} ErrorTypeCodeRoundTrip(t: ErrorType)
    ensures ParseErrorType(ErrorTypeCode(t)) == Some(t)
  {
    match t
    case UnspecifiedData =>
    case GradesData =>
    case CourseData =>
    case SiteData =>
  }

  /** A logged pipeline failure; the error payload is opaque serialized JSON. */
  datatype PipelineError = PipelineError(
    errorType: ErrorType,
    errorData: string,
    courseId: CourseId,
    user: Option<UserId>,
    site: Option<SiteId>)

  /** A new error record; the category defaults to unspecified when none is given. */
  function NewPipelineError(errorData: string, errorType: Option<ErrorType>, courseId: CourseId,
                            user: Option<UserId>, site: Option<SiteId>): (e: PipelineError)
    ensures errorType.None? ==> e.errorType == UnspecifiedData
    ensures errorType.Some? ==> e.errorType == errorType.value
    ensures e.errorData == errorData && e.courseId == courseId && e.user == user && e.site == site
  {
    PipelineError(if errorType.Some? then errorType.value else UnspecifiedData, errorData, courseId, user, site)
  }
}
