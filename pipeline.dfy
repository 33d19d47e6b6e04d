/**
 * The daily course-metrics ETL: platform accessors filtered by course and
 * day, the progress and days-to-complete aggregates, the extractor that
 * assembles one course/day summary, and the loader that upserts it into the
 * CourseDailyMetrics table.
 *
 * Platform data is an in-memory snapshot; per-learner progress comes from the
 * grade service as a function of the user; "today" is a parameter.
 */
module Pipeline {
  import opened Wrappers
  import opened Aggregates
  import opened Models

  // ---------------------------------------------------------------------
  // Platform records

  datatype Enrollment = Enrollment(user: UserId, courseId: CourseId, created: Day, isActive: bool)
  datatype StudentModule = StudentModule(courseId: CourseId, modified: Day)
  datatype Certificate = Certificate(user: UserId, courseId: CourseId, createdDate: Day)

  /** The platform tables the pipeline reads, in their query order. */
  datatype Snapshot = Snapshot(
    enrollments: seq<Enrollment>,
    studentModules: seq<StudentModule>,
    certificates: seq<Certificate>)

  function NextDay(d: Day): Day { d + 1 }
  function PrevDay(d: Day): Day { d - 1 }

  // ---------------------------------------------------------------------
  // Extraction helpers

  function CreatedBefore(courseId: CourseId, bound: Day): Enrollment -> bool
  {
    (e: Enrollment) => e.courseId == courseId && e.created < bound
  }

  /** The course's enrollments created strictly before the start of the next day. */
  function CourseEnrollments(s: Snapshot, courseId: CourseId, dateFor: Day): (r: seq<Enrollment>)
    ensures forall e :: e in r <==> e in s.enrollments && e.courseId == courseId && e.created <= dateFor
  {
    Filter(s.enrollments, CreatedBefore(courseId, NextDay(dateFor)))
  }

  /** Each of those enrollments is kept as often as the table holds it; no other is kept. */
  lemma CourseEnrollmentsMultiplicity(s: Snapshot, courseId: CourseId, dateFor: Day, e: Enrollment)
    ensures multiset(CourseEnrollments(s, courseId, dateFor))[e] ==
            if e.courseId == courseId && e.created <= dateFor then multiset(s.enrollments)[e] else 0
  {
    FilterMultiplicity(s.enrollments, CreatedBefore(courseId, NextDay(dateFor)), e);
  }

  /** An enrollment that num_enrolled_in_exclude_admins counts. */
  predicate IsCountedLearner(e: Enrollment, courseId: CourseId, dateFor: Day,
                             staff: set<UserId>, instructors: set<UserId>, coaches: set<UserId>)
  {
    && e.courseId == courseId
    && e.isActive
    && e.created < NextDay(dateFor)
    && e.user !in staff
    && e.user !in instructors
    && e.user !in coaches
  }

  function CountedLearner(courseId: CourseId, dateFor: Day,
                          staff: set<UserId>, instructors: set<UserId>, coaches: set<UserId>): Enrollment -> bool
  {
    (e: Enrollment) => IsCountedLearner(e, courseId, dateFor, staff, instructors, coaches)
  }

  /**
   * The query behind num_enrolled_in_exclude_admins: active enrollments created
   * on or before the day whose user holds none of the course's staff,
   * instructor or coach roles, in table order.
   */
  function CountedEnrollments(s: Snapshot, courseId: CourseId, dateFor: Day,
                              staff: set<UserId>, instructors: set<UserId>, coaches: set<UserId>): (r: seq<Enrollment>)
    ensures forall e :: e in r <==> e in s.enrollments && IsCountedLearner(e, courseId, dateFor, staff, instructors, coaches)
  {
    Filter(s.enrollments, CountedLearner(courseId, dateFor, staff, instructors, coaches))
  }

  /** Each counted enrollment is kept as often as the table holds it; no other is kept. */
  lemma CountedEnrollmentsMultiplicity(s: Snapshot, courseId: CourseId, dateFor: Day,
                                       staff: set<UserId>, instructors: set<UserId>, coaches: set<UserId>, e: Enrollment)
    ensures multiset(CountedEnrollments(s, courseId, dateFor, staff, instructors, coaches))[e] ==
            if IsCountedLearner(e, courseId, dateFor, staff, instructors, coaches) then multiset(s.enrollments)[e] else 0
  {
    FilterMultiplicity(s.enrollments, CountedLearner(courseId, dateFor, staff, instructors, coaches), e);
  }

  /** The number of counted enrollments: never more than the day's enrollments, 0 exactly when none qualifies. */
  function NumEnrolledExcludeAdmins(s: Snapshot, courseId: CourseId, dateFor: Day,
                                    staff: set<UserId>, instructors: set<UserId>, coaches: set<UserId>): (r: nat)
    ensures r == |CountedEnrollments(s, courseId, dateFor, staff, instructors, coaches)|
    ensures r <= |CourseEnrollments(s, courseId, dateFor)|
    ensures r == 0 <==> forall e :: e in s.enrollments ==> !IsCountedLearner(e, courseId, dateFor, staff, instructors, coaches)
  {
    FilterEmpty(s.enrollments, CountedLearner(courseId, dateFor, staff, instructors, coaches));
    FilterLengthMonotone(s.enrollments, CountedLearner(courseId, dateFor, staff, instructors, coaches),
                         CreatedBefore(courseId, NextDay(dateFor)));
    |CountedEnrollments(s, courseId, dateFor, staff, instructors, coaches)|
  }

  /** Giving more users a staff, instructor or coach role never raises the count. */
  lemma MoreRolesCountFewer(s: Snapshot, courseId: CourseId, dateFor: Day,
                            staff: set<UserId>, instructors: set<UserId>, coaches: set<UserId>,
                            staff': set<UserId>, instructors': set<UserId>, coaches': set<UserId>)
    requires staff <= staff' && instructors <= instructors' && coaches <= coaches'
    ensures NumEnrolledExcludeAdmins(s, courseId, dateFor, staff', instructors', coaches')
         <= NumEnrolledExcludeAdmins(s, courseId, dateFor, staff, instructors, coaches)
  {
    FilterLengthMonotone(s.enrollments, CountedLearner(courseId, dateFor, staff', instructors', coaches'),
                         CountedLearner(courseId, dateFor, staff, instructors, coaches));
  }

  function ModifiedOn(courseId: CourseId, dateFor: Day): StudentModule -> bool
  {
    (m: StudentModule) => m.courseId == courseId && m.modified == dateFor
  }

  /** The course's courseware records modified on the day. */
  function ActiveLearnersToday(s: Snapshot, courseId: CourseId, dateFor: Day): (r: seq<StudentModule>)
    ensures forall m :: m in r <==> m in s.studentModules && m.courseId == courseId && m.modified == dateFor
  {
    Filter(s.studentModules, ModifiedOn(courseId, dateFor))
  }

  /** Each such record is kept as often as the table holds it, so identical records are all counted. */
  lemma ActiveLearnersTodayMultiplicity(s: Snapshot, courseId: CourseId, dateFor: Day, m: StudentModule)
    ensures multiset(ActiveLearnersToday(s, courseId, dateFor))[m] ==
            if m.courseId == courseId && m.modified == dateFor then multiset(s.studentModules)[m] else 0
  {
    FilterMultiplicity(s.studentModules, ModifiedOn(courseId, dateFor), m);
  }

  /** n identical courseware records of the course, modified on the day, are n active-learner records. */
  lemma IdenticalActivityRecordsAllCount(m: StudentModule, n: nat)
    ensures |ActiveLearnersToday(Snapshot([], seq(n, _ => m), []), m.courseId, m.modified)| == n
  {
    var ms := seq(n, _ => m);
    assert forall x :: x in ms ==> x == m;
    FilterKeepsAll(ms, ModifiedOn(m.courseId, m.modified));
  }

  function IssuedBy(courseId: CourseId, dateFor: Day): Certificate -> bool
  {
    (c: Certificate) => c.courseId == courseId && c.createdDate <= dateFor
  }

  function OfCourse(courseId: CourseId): Certificate -> bool
  {
    (c: Certificate) => c.courseId == courseId
  }

  /** The course's certificates created on or before the day, in table order. */
  function CertificatesUpTo(s: Snapshot, courseId: CourseId, dateFor: Day): (r: seq<Certificate>)
    ensures forall c :: c in r <==> c in s.certificates && c.courseId == courseId && c.createdDate <= dateFor
  {
    Filter(s.certificates, IssuedBy(courseId, dateFor))
  }

  /** Each such certificate is kept as often as the table holds it; no other is kept. */
  lemma CertificatesUpToMultiplicity(s: Snapshot, courseId: CourseId, dateFor: Day, c: Certificate)
    ensures multiset(CertificatesUpTo(s, courseId, dateFor))[c] ==
            if c.courseId == courseId && c.createdDate <= dateFor then multiset(s.certificates)[c] else 0
  {
    FilterMultiplicity(s.certificates, IssuedBy(courseId, dateFor), c);
  }

  /** Every certificate of the course, whatever its date, in table order. */
  function CourseCertificates(s: Snapshot, courseId: CourseId): (r: seq<Certificate>)
    ensures forall c :: c in r <==> c in s.certificates && c.courseId == courseId
  {
    Filter(s.certificates, OfCourse(courseId))
  }

  /** Each of the course's certificates is kept as often as the table holds it; no other is kept. */
  lemma CourseCertificatesMultiplicity(s: Snapshot, courseId: CourseId, c: Certificate)
    ensures multiset(CourseCertificates(s, courseId))[c] ==
            if c.courseId == courseId then multiset(s.certificates)[c] else 0
  {
    FilterMultiplicity(s.certificates, OfCourse(courseId), c);
  }

  /**
   * The number of the course's certificates. The day plays no part, so the
   * count is never below the certificates up to the day, and is 0 exactly when
   * the course has none.
   */
  function NumLearnersCompleted(s: Snapshot, courseId: CourseId, dateFor: Day): (r: nat)
    ensures r == |CourseCertificates(s, courseId)|
    ensures r >= |CertificatesUpTo(s, courseId, dateFor)|
    ensures r == 0 <==> forall c :: c in s.certificates ==> c.courseId != courseId
  {
    FilterLengthMonotone(s.certificates, IssuedBy(courseId, dateFor), OfCourse(courseId));
    FilterEmpty(s.certificates, OfCourse(courseId));
    |CourseCertificates(s, courseId)|
  }

  /** The completion count is the same whichever day it is asked for. */
  lemma NumLearnersCompletedIgnoresDay(s: Snapshot, courseId: CourseId, d1: Day, d2: Day)
    ensures NumLearnersCompleted(s, courseId, d1) == NumLearnersCompleted(s, courseId, d2)
  {
  }

  function OfLearner(courseId: CourseId, user: UserId): Enrollment -> bool
  {
    (e: Enrollment) => e.courseId == courseId && e.user == user
  }

  /** Every enrollment of the user in the course, whatever its date, in table order. */
  function EnrollmentsOf(s: Snapshot, courseId: CourseId, user: UserId): (r: seq<Enrollment>)
    ensures forall e :: e in r <==> e in s.enrollments && e.courseId == courseId && e.user == user
  {
    Filter(s.enrollments, OfLearner(courseId, user))
  }

  /** Each of the user's enrollments in the course is kept as often as the table holds it; no other is kept. */
  lemma EnrollmentsOfMultiplicity(s: Snapshot, courseId: CourseId, user: UserId, e: Enrollment)
    ensures multiset(EnrollmentsOf(s, courseId, user))[e] ==
            if e.courseId == courseId && e.user == user then multiset(s.enrollments)[e] else 0
  {
    FilterMultiplicity(s.enrollments, OfLearner(courseId, user), e);
  }

  /** The platform's enrollment table holds at most one enrollment per user and course. */
  predicate OneEnrollmentPerLearner(enrollments: seq<Enrollment>)
  {
    forall i, j :: 0 <= i < j < |enrollments| ==>
      !(enrollments[i].user == enrollments[j].user && enrollments[i].courseId == enrollments[j].courseId)
  }

  /** Under that constraint the enrollment query for one user and course returns at most one record. */
  lemma {:induction false} AtMostOneEnrollmentOf(enrollments: seq<Enrollment>, courseId: CourseId, user: UserId)
    requires OneEnrollmentPerLearner(enrollments)
    ensures |Filter(enrollments, OfLearner(courseId, user))| <= 1
  {
    if enrollments != [] {
      var n := |enrollments| - 1;
      var prefix := enrollments[..n];
      assert enrollments == prefix + [enrollments[n]];
      AtMostOneEnrollmentOf(prefix, courseId, user);
      if OfLearner(courseId, user)(enrollments[n]) {
        forall x | x in prefix ensures !OfLearner(courseId, user)(x) {
          var i :| 0 <= i < n && prefix[i] == x;
        }
        FilterEmpty(prefix, OfLearner(courseId, user));
      }
    }
  }

  /** The first enrollment the query returns is the user's earliest-listed one in the course. */
  lemma FirstEnrollmentIsEarliestListed(s: Snapshot, courseId: CourseId, user: UserId)
    requires EnrollmentsOf(s, courseId, user) != []
    ensures exists k :: 0 <= k < |s.enrollments| && s.enrollments[k] == EnrollmentsOf(s, courseId, user)[0] &&
                        forall j :: 0 <= j < k ==> !(s.enrollments[j].courseId == courseId && s.enrollments[j].user == user)
  {
    FilterFirst(s.enrollments, OfLearner(courseId, user));
  }

  // ---------------------------------------------------------------------
  // Average progress

  /** The grade service's progress value for each enrollment, in order. */
  function ProgressValues(enrollments: seq<Enrollment>, progress: UserId -> real): (r: seq<real>)
    ensures |r| == |enrollments|
    ensures forall i :: 0 <= i < |enrollments| ==> r[i] == progress(enrollments[i].user)
  {
    seq(|enrollments|, i requires 0 <= i < |enrollments| => progress(enrollments[i].user))
  }

  /**
   * The mean of the enrolled learners' progress, 0.0 with no enrollments,
   * and within [0, 1] when every progress value is.
   */
  method GetAverageProgress(courseEnrollments: seq<Enrollment>, progress: UserId -> real) returns (average: real)
    ensures average == Mean(ProgressValues(courseEnrollments, progress))
    ensures courseEnrollments == [] ==> average == 0.0
    ensures courseEnrollments != [] ==> average * (|courseEnrollments| as real) == Sum(ProgressValues(courseEnrollments, progress))
    ensures (forall u :: 0.0 <= progress(u) <= 1.0) ==> 0.0 <= average <= 1.0
  {
    var values: seq<real> := [];
    for i := 0 to |courseEnrollments|
      invariant values == ProgressValues(courseEnrollments[..i], progress)
    {
      values := values + [progress(courseEnrollments[i].user)];
    }
    assert courseEnrollments[..|courseEnrollments|] == courseEnrollments;
    if |values| > 0 {
      average := Sum(values) / (|values| as real);
    } else {
      average := 0.0;
    }
    if (forall u :: 0.0 <= progress(u) <= 1.0) && values != [] {
      forall i | 0 <= i < |values| ensures 0.0 <= values[i] <= 1.0 {
        assert values[i] == progress(courseEnrollments[i].user);
      }
      MeanWithinBounds(values, 0.0, 1.0);
    }
  }

  // ---------------------------------------------------------------------
  // Days to complete

  /** The data warning recorded when a certificate's user has several enrollments in the course. */
  datatype EnrollmentWarning = EnrollmentWarning(msg: string, courseId: CourseId, userId: UserId)

  function MultipleEnrollmentsWarning(courseId: CourseId, user: UserId): EnrollmentWarning
  {
    EnrollmentWarning("Multiple CE records", courseId, user)
  }

  /** What the days-to-complete pass returns: the day counts and the warnings. */
  datatype DaysReport = DaysReport(days: seq<int>, errors: seq<EnrollmentWarning>)

  /** The failure that aborts extraction: a certificate whose user has no enrollment in the course. */
  datatype ExtractError = NoEnrollmentForCertificate(courseId: CourseId, userId: UserId)

  function MultiplyEnrolled(s: Snapshot, courseId: CourseId): Certificate -> bool
  {
    (c: Certificate) => |EnrollmentsOf(s, courseId, c.user)| > 1
  }

  /**
   * The days-to-complete pass over `certificates`: one day count per certificate,
   * measured from the user's first enrollment in the course, and one warning per
   * certificate whose user is enrolled more than once; it fails as soon as a
   * certificate's user has no enrollment in the course.
   */
  function DaysToComplete(s: Snapshot, courseId: CourseId, certificates: seq<Certificate>)
    : (r: Result<DaysReport, ExtractError>)
    ensures r.Success? ==> |r.value.days| == |certificates|
  {
    if certificates == [] then Success(DaysReport([], []))
    else
      var n := |certificates| - 1;
      var cert := certificates[n];
      assert certificates == certificates[..n] + [cert];
      match DaysToComplete(s, courseId, certificates[..n])
      case Failure(e) => Failure(e)
      case Success(report) =>
        var ce := EnrollmentsOf(s, courseId, cert.user);
        var errors := if |ce| > 1 then report.errors + [MultipleEnrollmentsWarning(courseId, cert.user)] else report.errors;
        if |ce| == 0 then Failure(NoEnrollmentForCertificate(courseId, cert.user))
        else Success(DaysReport(report.days + [cert.createdDate - ce[0].created], errors))
  }

  /** The pass succeeds exactly when every certificate's user has an enrollment in the course. */
  lemma {:induction false} DaysToCompleteSucceedsIff(s: Snapshot, courseId: CourseId, certificates: seq<Certificate>)
    ensures DaysToComplete(s, courseId, certificates).Success? <==>
            forall c :: c in certificates ==> EnrollmentsOf(s, courseId, c.user) != []
  {
    if certificates != [] {
      var n := |certificates| - 1;
      var prefix := certificates[..n];
      assert certificates == prefix + [certificates[n]];
      DaysToCompleteSucceedsIff(s, courseId, prefix);
    }
  }

  /** Entry i is the certificate's day minus the day of its user's first enrollment. */
  lemma {:induction false} DaysToCompleteDays(s: Snapshot, courseId: CourseId, certificates: seq<Certificate>, i: nat)
    requires DaysToComplete(s, courseId, certificates).Success?
    requires i < |certificates|
    ensures EnrollmentsOf(s, courseId, certificates[i].user) != []
    ensures DaysToComplete(s, courseId, certificates).value.days[i] ==
            certificates[i].createdDate - EnrollmentsOf(s, courseId, certificates[i].user)[0].created
  {
    var n := |certificates| - 1;
    var prefix := certificates[..n];
    assert certificates == prefix + [certificates[n]];
    if i < n {
      DaysToCompleteDays(s, courseId, prefix, i);
    }
  }

  /** The failure names the user of the first certificate without an enrollment. */
  lemma {:induction false} DaysToCompleteFailure(s: Snapshot, courseId: CourseId, certificates: seq<Certificate>)
    requires DaysToComplete(s, courseId, certificates).Failure?
    ensures exists i :: 0 <= i < |certificates| &&
                        EnrollmentsOf(s, courseId, certificates[i].user) == [] &&
                        (forall j :: 0 <= j < i ==> EnrollmentsOf(s, courseId, certificates[j].user) != []) &&
                        DaysToComplete(s, courseId, certificates).error == NoEnrollmentForCertificate(courseId, certificates[i].user)
  {
    var n := |certificates| - 1;
    var prefix := certificates[..n];
    assert certificates == prefix + [certificates[n]];
    if DaysToComplete(s, courseId, prefix).Failure? {
      DaysToCompleteFailure(s, courseId, prefix);
      var i :| 0 <= i < |prefix| &&
               EnrollmentsOf(s, courseId, prefix[i].user) == [] &&
               (forall j :: 0 <= j < i ==> EnrollmentsOf(s, courseId, prefix[j].user) != []) &&
               DaysToComplete(s, courseId, prefix).error == NoEnrollmentForCertificate(courseId, prefix[i].user);
      assert certificates[i] == prefix[i];
    } else {
      DaysToCompleteSucceedsIff(s, courseId, prefix);
      forall j | 0 <= j < n ensures EnrollmentsOf(s, courseId, certificates[j].user) != [] {
        assert certificates[j] == prefix[j] && prefix[j] in prefix;
      }
    }
  }

  /** Once a prefix of the certificates fails, the whole pass fails the same way. */
  lemma {:induction false} DaysToCompleteFailureIsFinal(s: Snapshot, courseId: CourseId, certificates: seq<Certificate>, k: nat)
    requires k <= |certificates|
    requires DaysToComplete(s, courseId, certificates[..k]).Failure?
    ensures DaysToComplete(s, courseId, certificates) == DaysToComplete(s, courseId, certificates[..k])
  {
    if k < |certificates| {
      var n := |certificates| - 1;
      assert certificates[..n][..k] == certificates[..k];
      DaysToCompleteFailureIsFinal(s, courseId, certificates[..n], k);
    } else {
      assert certificates[..k] == certificates;
    }
  }

  /** One warning per certificate whose user has more than one enrollment in the course. */
  lemma {:induction false} DaysToCompleteWarningCount(s: Snapshot, courseId: CourseId, certificates: seq<Certificate>)
    requires DaysToComplete(s, courseId, certificates).Success?
    ensures |DaysToComplete(s, courseId, certificates).value.errors| == |Filter(certificates, MultiplyEnrolled(s, courseId))|
  {
    if certificates != [] {
      var n := |certificates| - 1;
      var prefix := certificates[..n];
      var last := certificates[n];
      assert certificates == prefix + [last];
      assert DaysToComplete(s, courseId, prefix).Success?;
      DaysToCompleteWarningCount(s, courseId, prefix);
      assert Filter(certificates, MultiplyEnrolled(s, courseId)) ==
             Filter(prefix, MultiplyEnrolled(s, courseId)) + (if |EnrollmentsOf(s, courseId, last.user)| > 1 then [last] else []);
    }
  }

  /** Each warning names the user of such a certificate, and each such certificate has its warning. */
  lemma {:induction false} DaysToCompleteWarningsAre(s: Snapshot, courseId: CourseId, certificates: seq<Certificate>)
    requires DaysToComplete(s, courseId, certificates).Success?
    ensures forall w :: w in DaysToComplete(s, courseId, certificates).value.errors <==>
                        exists c :: c in certificates && |EnrollmentsOf(s, courseId, c.user)| > 1 &&
                                    w == MultipleEnrollmentsWarning(courseId, c.user)
  {
    if certificates != [] {
      var n := |certificates| - 1;
      var prefix := certificates[..n];
      var last := certificates[n];
      assert certificates == prefix + [last];
      assert DaysToComplete(s, courseId, prefix).Success?;
      DaysToCompleteWarningsAre(s, courseId, prefix);
      forall c | c in certificates ensures c in prefix || c == last {
      }
    }
  }

  /** Under one enrollment per user and course, the "Multiple CE records" warning never arises. */
  lemma NoWarningsUnderOneEnrollmentPerLearner(s: Snapshot, courseId: CourseId, certificates: seq<Certificate>)
    requires OneEnrollmentPerLearner(s.enrollments)
    requires DaysToComplete(s, courseId, certificates).Success?
    ensures DaysToComplete(s, courseId, certificates).value.errors == []
  {
    DaysToCompleteWarningCount(s, courseId, certificates);
    forall c | c in certificates ensures !MultiplyEnrolled(s, courseId)(c) {
      AtMostOneEnrollmentOf(s.enrollments, courseId, c.user);
    }
    FilterEmpty(certificates, MultiplyEnrolled(s, courseId));
  }

  /** A certificate whose user is enrolled extends a successful pass by its day count and, if needed, a warning. */
  lemma DaysToCompleteStep(s: Snapshot, courseId: CourseId, certificates: seq<Certificate>, i: nat,
                           days: seq<int>, errors: seq<EnrollmentWarning>)
    requires i < |certificates|
    requires DaysToComplete(s, courseId, certificates[..i]) == Success(DaysReport(days, errors))
    requires EnrollmentsOf(s, courseId, certificates[i].user) != []
    ensures var cert := certificates[i];
      var ce := EnrollmentsOf(s, courseId, cert.user);
      DaysToComplete(s, courseId, certificates[..i + 1]) ==
        Success(DaysReport(days + [cert.createdDate - ce[0].created],
                           if |ce| > 1 then errors + [MultipleEnrollmentsWarning(courseId, cert.user)] else errors))
  {
    var extended := certificates[..i + 1];
    assert |extended| - 1 == i && extended[i] == certificates[i];
    assert extended[..i] == certificates[..i];
  }

  /** A certificate whose user is not enrolled ends the whole pass with a failure naming that user. */
  lemma DaysToCompleteStopsAt(s: Snapshot, courseId: CourseId, certificates: seq<Certificate>, i: nat)
    requires i < |certificates|
    requires DaysToComplete(s, courseId, certificates[..i]).Success?
    requires EnrollmentsOf(s, courseId, certificates[i].user) == []
    ensures DaysToComplete(s, courseId, certificates) == Failure(NoEnrollmentForCertificate(courseId, certificates[i].user))
  {
    assert certificates[..i + 1][..i] == certificates[..i];
    DaysToCompleteFailureIsFinal(s, courseId, certificates, i + 1);
  }

  /**
   * get_days_to_complete: the pass above over the course's certificates up to the day.
   * The warning of a certificate without enrollment is not appended, since the
   * failure discards the warnings anyway.
   */
  method GetDaysToComplete(s: Snapshot, courseId: CourseId, dateFor: Day) returns (r: Result<DaysReport, ExtractError>)
    ensures r == DaysToComplete(s, courseId, CertificatesUpTo(s, courseId, dateFor))
  {
    var certificates := CertificatesUpTo(s, courseId, dateFor);
    var days: seq<int> := [];
    var errors: seq<EnrollmentWarning> := [];
    for i := 0 to |certificates|
      invariant DaysToComplete(s, courseId, certificates[..i]) == Success(DaysReport(days, errors))
    {
      var cert := certificates[i];
      var ce := EnrollmentsOf(s, courseId, cert.user);
      if |ce| == 0 {
        DaysToCompleteStopsAt(s, courseId, certificates, i);
        r := Failure(NoEnrollmentForCertificate(courseId, cert.user));
        return;
      }
      DaysToCompleteStep(s, courseId, certificates, i, days, errors);
      if |ce| > 1 {
        errors := errors + [MultipleEnrollmentsWarning(courseId, cert.user)];
      }
      days := days + [cert.createdDate - ce[0].created];
    }
    assert certificates[..|certificates|] == certificates;
    r := Success(DaysReport(days, errors));
  }

  /** The mean of the day counts, 0.0 for none, between their minimum and maximum. */
  function CalcAverageDaysToComplete(days: seq<int>): (r: real)
    ensures days == [] ==> r == 0.0
    ensures days != [] ==> r * (|days| as real) == Sum(AsReals(days))
  {
    Mean(AsReals(days))
  }

  /** The average lies between the smallest and the largest day count. */
  lemma CalcAverageBetweenMinMax(days: seq<int>)
    requires days != []
    ensures MinOf(days) as real <= CalcAverageDaysToComplete(days) <= MaxOf(days) as real
  {
    var values := AsReals(days);
    var lo, hi := MinOf(days), MaxOf(days);
    forall i | 0 <= i < |values| ensures lo as real <= values[i] <= hi as real {
      assert lo <= days[i] <= hi;
    }
    MeanWithinBounds(values, lo as real, hi as real);
  }

  /** The average days to complete; the multiple-enrollment warnings are dropped. */
  method GetAverageDaysToComplete(s: Snapshot, courseId: CourseId, dateFor: Day) returns (r: Result<real, ExtractError>)
    ensures match DaysToComplete(s, courseId, CertificatesUpTo(s, courseId, dateFor))
      case Failure(e) => r == Failure(e)
      case Success(report) => r == Success(CalcAverageDaysToComplete(report.days))
  {
    var daysToComplete := GetDaysToComplete(s, courseId, dateFor);
    if daysToComplete.Failure? {
      return Failure(daysToComplete.error);
    }
    r := Success(CalcAverageDaysToComplete(daysToComplete.value.days));
  }

  // ---------------------------------------------------------------------
  // Extractor

  /** The summary of one course on one day. */
  datatype ExtractedData = ExtractedData(
    dateFor: Day,
    courseId: CourseId,
    enrollmentCount: nat,
    activeLearnersToday: nat,
    averageProgress: real,
    averageDaysToComplete: real,
    numLearnersCompleted: nat)

  /** The day to summarise: the one given, else the day before today. */
  function ResolveDate(dateFor: Option<Day>, today: Day): Day
  {
    if dateFor.Some? then dateFor.value else PrevDay(today)
  }

  /** What the extractor produces for the course on the day. */
  function Extracted(s: Snapshot, courseId: CourseId, dateFor: Day, progress: UserId -> real)
    : (r: Result<ExtractedData, ExtractError>)
    ensures r.Success? <==> forall c :: c in CertificatesUpTo(s, courseId, dateFor) ==> EnrollmentsOf(s, courseId, c.user) != []
    ensures r.Success? ==> r.value.dateFor == dateFor && r.value.courseId == courseId
  {
    var enrollments := CourseEnrollments(s, courseId, dateFor);
    var certificates := CertificatesUpTo(s, courseId, dateFor);
    DaysToCompleteSucceedsIff(s, courseId, certificates);
    match DaysToComplete(s, courseId, certificates)
    case Failure(e) => Failure(e)
    case Success(report) =>
      Success(ExtractedData(
        dateFor, courseId,
        |enrollments|,
        |ActiveLearnersToday(s, courseId, dateFor)|,
        Mean(ProgressValues(enrollments, progress)),
        CalcAverageDaysToComplete(report.days),
        NumLearnersCompleted(s, courseId, dateFor)))
  }

  /**
   * CourseDailyMetricsExtractor.extract: resolves the day, then fills the
   * summary field by field; a certificate without an enrollment aborts it.
   */
  method Extract(s: Snapshot, courseId: CourseId, dateFor: Option<Day>, today: Day, progress: UserId -> real)
    returns (r: Result<ExtractedData, ExtractError>)
    ensures r == Extracted(s, courseId, ResolveDate(dateFor, today), progress)
  {
    var day := if dateFor.None? then PrevDay(today) else dateFor.value;
    var courseEnrollments := CourseEnrollments(s, courseId, day);
    var data := ExtractedData(day, courseId, 0, 0, 0.0, 0.0, 0);
    data := data.(enrollmentCount := |courseEnrollments|);
    var active := ActiveLearnersToday(s, courseId, day);
    var activeLearnersToday := if active != [] then |active| else 0;
    data := data.(activeLearnersToday := activeLearnersToday);
    var averageProgress := GetAverageProgress(courseEnrollments, progress);
    data := data.(averageProgress := averageProgress);
    var averageDays := GetAverageDaysToComplete(s, courseId, day);
    if averageDays.Failure? {
      return Failure(averageDays.error);
    }
    data := data.(averageDaysToComplete := averageDays.value);
    data := data.(numLearnersCompleted := NumLearnersCompleted(s, courseId, day));
    r := Success(data);
  }

  /** enrollment_count counts exactly the course's enrollments created on or before the day. */
  lemma EnrollmentCountIsInclusive(s: Snapshot, courseId: CourseId, dateFor: Day, progress: UserId -> real)
    requires Extracted(s, courseId, dateFor, progress).Success?
    ensures Extracted(s, courseId, dateFor, progress).value.enrollmentCount == |CourseEnrollments(s, courseId, dateFor)|
    ensures Extracted(s, courseId, dateFor, progress).value.activeLearnersToday == |ActiveLearnersToday(s, courseId, dateFor)|
  {
  }

  /** Enrollment counts never drop as the day moves forward. */
  lemma EnrollmentCountMonotone(s: Snapshot, courseId: CourseId, d1: Day, d2: Day)
    requires d1 <= d2
    ensures |CourseEnrollments(s, courseId, d1)| <= |CourseEnrollments(s, courseId, d2)|
  {
    FilterLengthMonotone(s.enrollments, CreatedBefore(courseId, NextDay(d1)), CreatedBefore(courseId, NextDay(d2)));
  }

  /** With every progress value in [0, 1], the average progress satisfies the column's validators. */
  lemma AverageProgressInRange(s: Snapshot, courseId: CourseId, dateFor: Day, progress: UserId -> real)
    requires forall u :: 0.0 <= progress(u) <= 1.0
    requires Extracted(s, courseId, dateFor, progress).Success?
    ensures 0.0 <= Extracted(s, courseId, dateFor, progress).value.averageProgress <= 1.0
  {
    var values := ProgressValues(CourseEnrollments(s, courseId, dateFor), progress);
    if values != [] {
      MeanWithinBounds(values, 0.0, 1.0);
    }
  }

  /**
   * A course with no enrollments at all: extraction succeeds exactly when no
   * certificate of the course is dated up to the day, and then both averages are 0.0.
   */
  lemma NoEnrollmentsMeansZeroAverages(s: Snapshot, courseId: CourseId, dateFor: Day, progress: UserId -> real)
    requires forall e :: e in s.enrollments ==> e.courseId != courseId
    ensures Extracted(s, courseId, dateFor, progress).Success? <==> CertificatesUpTo(s, courseId, dateFor) == []
    ensures Extracted(s, courseId, dateFor, progress).Success? ==>
      var data := Extracted(s, courseId, dateFor, progress).value;
      data.enrollmentCount == 0 && data.averageProgress == 0.0 && data.averageDaysToComplete == 0.0
  {
    var certificates := CertificatesUpTo(s, courseId, dateFor);
    if certificates != [] {
      assert certificates[0] in certificates;
      FilterEmpty(s.enrollments, OfLearner(courseId, certificates[0].user));
      assert EnrollmentsOf(s, courseId, certificates[0].user) == [];
    }
    FilterEmpty(s.enrollments, CreatedBefore(courseId, NextDay(dateFor)));
    assert CourseEnrollments(s, courseId, dateFor) == [];
  }

  // ---------------------------------------------------------------------
  // Loader

  /** What load returns: the stored row and whether it was created. */
  datatype LoadResult = LoadResult(row: CourseDailyMetrics, created: bool)

  /** The upsert defaults built from an extracted summary. */
  function DefaultsOf(data: ExtractedData): MetricValues
  {
    MetricValues(data.enrollmentCount, data.activeLearnersToday, Some(data.averageProgress),
                 Some(data.averageDaysToComplete), data.numLearnersCompleted)
  }

  class CourseDailyMetricsLoader {
    const courseId: CourseId

    constructor (courseId: CourseId)
      ensures this.courseId == courseId
    {
      this.courseId := courseId;
    }

    /**
     * get_data as written: the day is passed under a misspelt keyword that the
     * extractor ignores, so it summarises the day before today whatever `dateFor` is.
     */
    method GetDataAsWritten(s: Snapshot, dateFor: Day, today: Day, progress: UserId -> real)
      returns (r: Result<ExtractedData, ExtractError>)
      ensures r == Extracted(s, courseId, PrevDay(today), progress)
    {
      r := Extract(s, courseId, None, today, progress);
    }

    /** get_data with the day passed through: the summary of the course on `dateFor`. */
    method GetData(s: Snapshot, dateFor: Day, today: Day, progress: UserId -> real)
      returns (r: Result<ExtractedData, ExtractError>)
      ensures r == Extracted(s, courseId, dateFor, progress)
      ensures r.Success? ==> r.value.dateFor == dateFor && r.value.courseId == courseId
    {
      r := Extract(s, courseId, Some(dateFor), today, progress);
    }

    /**
     * load: extracts the summary for the day (yesterday when none is given) and
     * upserts it under (course_id, date_for); a failed extraction leaves the table alone.
     */
    method Load(table: CourseDailyMetricsTable, s: Snapshot, dateFor: Option<Day>, today: Day, progress: UserId -> real)
      returns (r: Result<LoadResult, ExtractError>)
      requires table.Valid()
      modifies table
      ensures table.Valid()
      ensures var day := ResolveDate(dateFor, today);
        match Extracted(s, courseId, day, progress)
        case Failure(e) => r == Failure(e) && table.rows == old(table.rows)
        case Success(data) =>
          var row := RowOf(MetricsKey(courseId, day), DefaultsOf(data));
          && r == Success(LoadResult(row, !HasKey(old(table.rows), MetricsKey(courseId, day))))
          && table.rows == Upsert(old(table.rows), row).rows
      ensures (forall u :: 0.0 <= progress(u) <= 1.0) && AllProgressInRange(old(table.rows)) ==>
        AllProgressInRange(table.rows)
    {
      var day := if dateFor.None? then PrevDay(today) else dateFor.value;
      var data := GetData(s, day, today, progress);
      if data.Failure? {
        return Failure(data.error);
      }
      var row, created := table.UpdateOrCreate(courseId, day, DefaultsOf(data.value));
      r := Success(LoadResult(row, created));
      if forall u :: 0.0 <= progress(u) <= 1.0 {
        AverageProgressInRange(s, courseId, day, progress);
        if AllProgressInRange(old(table.rows)) {
          UpsertKeepsProgressInRange(old(table.rows), row);
        }
      }
    }

    /** Loading the same day twice on unchanged data creates nothing the second time and changes no row. */
    method LoadTwice(table: CourseDailyMetricsTable, s: Snapshot, dateFor: Day, today: Day, progress: UserId -> real)
      returns (first: Result<LoadResult, ExtractError>, second: Result<LoadResult, ExtractError>)
      requires table.Valid()
      modifies table
      ensures first.Success? <==> second.Success?
      ensures second.Success? ==> !second.value.created && second.value.row == first.value.row
      ensures first.Success? ==> table.rows == Upsert(old(table.rows), first.value.row).rows
      ensures first.Failure? ==> table.rows == old(table.rows)
    {
      first := Load(table, s, Some(dateFor), today, progress);
      second := Load(table, s, Some(dateFor), today, progress);
      if first.Success? {
        UpsertIdempotent(old(table.rows), first.value.row);
      }
    }
  }

  /**
   * The misspelt keyword in get_data stores yesterday's figures under another
   * day's key: with one enrollment created on day 5 and today = 10, the row for
   * day 3 would carry enrollment_count 1 where the day-3 count is 0.
   */
  lemma GetDataTypoCounterexample()
    ensures var s := Snapshot([Enrollment(1, "course-v1:Org+C1+Run", 5, true)], [], []);
      var progress := (u: UserId) => 0.0;
      && Extracted(s, "course-v1:Org+C1+Run", PrevDay(10), progress).Success?
      && Extracted(s, "course-v1:Org+C1+Run", PrevDay(10), progress).value.enrollmentCount == 1
      && Extracted(s, "course-v1:Org+C1+Run", 3, progress).Success?
      && Extracted(s, "course-v1:Org+C1+Run", 3, progress).value.enrollmentCount == 0
  {
    var c := "course-v1:Org+C1+Run";
    var e := Enrollment(1, c, 5, true);
    var s := Snapshot([e], [], []);
    assert CourseEnrollments(s, c, 9) == [e];
    assert e !in CourseEnrollments(s, c, 3);
    assert CertificatesUpTo(s, c, 9) == [] && CertificatesUpTo(s, c, 3) == [];
  }

  /**
   * A worked case: three enrollments created on days 1, 2 and 3 and one
   * certificate for the first learner on day 10, every learner at progress 0.5.
   */
  function ScenarioCourse(): CourseId { "course-v1:Org+C1+Run" }

  function ScenarioSnapshot(): Snapshot
  {
    var c := ScenarioCourse();
    Snapshot([Enrollment(1, c, 1, true), Enrollment(2, c, 2, true), Enrollment(3, c, 3, true)],
             [], [Certificate(1, c, 10)])
  }

  lemma ScenarioEnrollments(d: Day)
    requires d >= 3
    ensures CourseEnrollments(ScenarioSnapshot(), ScenarioCourse(), d) == ScenarioSnapshot().enrollments
  {
    var es := ScenarioSnapshot().enrollments;
    var p := CreatedBefore(ScenarioCourse(), NextDay(d));
    assert p(es[0]) && p(es[1]) && p(es[2]);
    assert forall e :: e in es ==> e == es[0] || e == es[1] || e == es[2];
    FilterKeepsAll(es, p);
  }

  lemma ScenarioAverageProgress()
    ensures Mean(ProgressValues(ScenarioSnapshot().enrollments, (u: UserId) => 0.5)) == 0.5
  {
    var values := ProgressValues(ScenarioSnapshot().enrollments, (u: UserId) => 0.5);
    assert values == [0.5, 0.5, 0.5];
    assert values[1..][1..][1..] == [];
    assert Sum(values) == 1.5;
  }

  /** The certificate's user has exactly one enrollment in the course, created on day 1. */
  lemma ScenarioCertifiedLearner()
    ensures EnrollmentsOf(ScenarioSnapshot(), ScenarioCourse(), 1) == [ScenarioSnapshot().enrollments[0]]
  {
    var es := ScenarioSnapshot().enrollments;
    var p := OfLearner(ScenarioCourse(), 1);
    assert es[..2][..1][..0] == [] && es[..2][..1] == [es[0]] && es[..2] == [es[0], es[1]];
    assert Filter(es[..2][..1], p) == [es[0]];
    assert Filter(es[..2], p) == [es[0]];
  }

  /** The certificate's user enrolled on day 1, so the one entry is 9 days, with no warning. */
  lemma ScenarioDaysToComplete()
    ensures DaysToComplete(ScenarioSnapshot(), ScenarioCourse(), ScenarioSnapshot().certificates)
         == Success(DaysReport([9], []))
  {
    var c, s := ScenarioCourse(), ScenarioSnapshot();
    var certs := s.certificates;
    ScenarioCertifiedLearner();
    assert certs[..0] == [] && certs[..1] == certs;
    DaysToCompleteStep(s, c, certs, 0, [], []);
    assert [] + [10 - s.enrollments[0].created] == [9];
  }

  /** From day 10 on, the one certificate is counted; it is the course's only certificate. */
  lemma ScenarioCertificates(d: Day)
    requires d >= 10
    ensures CertificatesUpTo(ScenarioSnapshot(), ScenarioCourse(), d) == ScenarioSnapshot().certificates
    ensures NumLearnersCompleted(ScenarioSnapshot(), ScenarioCourse(), d) == 1
  {
    var c, certs := ScenarioCourse(), ScenarioSnapshot().certificates;
    assert forall x :: x in certs ==> x == certs[0];
    FilterKeepsAll(certs, IssuedBy(c, d));
    FilterKeepsAll(certs, OfCourse(c));
  }

  /** The scenario has no courseware activity on any day. */
  lemma ScenarioNoActivity(d: Day)
    ensures ActiveLearnersToday(ScenarioSnapshot(), ScenarioCourse(), d) == []
  {
  }

  /** One completion after 9 days averages 9.0. */
  lemma ScenarioAverageDays()
    ensures CalcAverageDaysToComplete([9]) == 9.0
  {
    assert AsReals([9]) == [9.0];
  }

  /**
   * On day 5 the enrollment count is 3 and one learner has completed, yet the
   * certificate, dated day 10, is not part of the average days to complete: 0.0.
   */
  lemma ScenarioBeforeCertificate()
    ensures Extracted(ScenarioSnapshot(), ScenarioCourse(), 5, (u: UserId) => 0.5)
         == Success(ExtractedData(5, ScenarioCourse(), 3, 0, 0.5, 0.0, 1))
  {
    var c, s := ScenarioCourse(), ScenarioSnapshot();
    ScenarioEnrollments(5);
    ScenarioAverageProgress();
    ScenarioNoActivity(5);
    assert s.certificates[..0] == [];
    assert CertificatesUpTo(s, c, 5) == [];
    assert forall x :: x in s.certificates ==> x == s.certificates[0];
    FilterKeepsAll(s.certificates, OfCourse(c));
  }

  /** From day 10 the certificate counts: 10 minus 1 gives an average of 9.0 days. */
  lemma ScenarioOnCertificateDay()
    ensures Extracted(ScenarioSnapshot(), ScenarioCourse(), 10, (u: UserId) => 0.5)
         == Success(ExtractedData(10, ScenarioCourse(), 3, 0, 0.5, 9.0, 1))
  {
    ScenarioEnrollments(10);
    ScenarioAverageProgress();
    ScenarioNoActivity(10);
    ScenarioCertificates(10);
    ScenarioDaysToComplete();
    ScenarioAverageDays();
  }
}
