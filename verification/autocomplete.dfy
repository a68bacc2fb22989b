/** The autocomplete aggregation pipeline run by the `/autocomplete/dag`
    handler, with the document store's stages written as pure functions over
    in-memory collections:

      $lookup sections, $unwind (keep empty), $lookup professors,
      $unwind (keep empty), $project, four $group stages, $project.

    Stored fields are plain strings, never null; `None` is a field that
    `$unwind` or `$project` leaves missing. */
module Autocomplete {
  import opened Wrappers
  import opened Grouping

  /** A document `_id`. */
  type ObjectId = nat

  datatype Course = Course(id: ObjectId, subjectPrefix: string, courseNumber: string, sections: seq<ObjectId>)
  datatype Section = Section(id: ObjectId, sectionNumber: string, academicSession: string, professors: seq<ObjectId>)
  datatype Professor = Professor(id: ObjectId, firstName: string, lastName: string)

  function SectionId(s: Section): ObjectId { s.id }
  function ProfessorId(p: Professor): ObjectId { p.id }

  // ---------------------------------------------------------------------
  // $lookup and $unwind
  // ---------------------------------------------------------------------

  /** `$lookup` with `foreignField: "_id"`: the documents of `foreign` whose
      `_id` occurs in the local array, in the foreign collection's order.
      A matching document appears as often as it does in `foreign`, however
      often the local array names its id. */
  function Lookup<D(!new)>(foreign: seq<D>, idOf: D -> ObjectId, local: seq<ObjectId>): (r: seq<D>)
    ensures forall i :: 0 <= i < |r| ==> r[i] in foreign && idOf(r[i]) in local
    ensures forall i :: 0 <= i < |foreign| && idOf(foreign[i]) in local ==> foreign[i] in r
    ensures forall d :: multiset(r)[d] == (if idOf(d) in local then multiset(foreign)[d] else 0)
    ensures |r| <= |foreign|
    ensures local == [] ==> r == []
  {
    if foreign == [] then []
    else
      var p := foreign[..|foreign| - 1];
      var d := foreign[|foreign| - 1];
      assert foreign == p + [d];
      var r := Lookup(p, idOf, local) + (if idOf(d) in local then [d] else []);
      assert multiset(foreign) == multiset(p) + multiset{d};
      r
  }

  /** A document with the array a `$lookup` added to it. */
  datatype Joined<P, C> = Joined(doc: P, matched: seq<C>)

  /** A document after `$unwind` of that array: one element, or none. */
  datatype Unwound<P, C> = Unwound(doc: P, child: Option<C>)

  /** The elements carried by a list of unwound documents, in order. */
  function Children<P, C>(us: seq<Unwound<P, C>>): seq<C>
  {
    if us == [] then []
    else Children(us[..|us| - 1]) + (match us[|us| - 1].child case Some(c) => [c] case None => [])
  }

  function UnwindEach<P, C>(doc: P, cs: seq<C>): (r: seq<Unwound<P, C>>)
    ensures |r| == |cs|
    ensures forall i :: 0 <= i < |r| ==> r[i] == Unwound(doc, Some(cs[i]))
    ensures Children(r) == cs
  {
    if cs == [] then []
    else
      var r' := UnwindEach(doc, cs[..|cs| - 1]);
      var r := r' + [Unwound(doc, Some(cs[|cs| - 1]))];
      assert r[..|r| - 1] == r';
      assert cs == cs[..|cs| - 1] + [cs[|cs| - 1]];
      r
  }

  /** Number of documents `$unwind` makes of `j`. */
  function UnwoundCount<P, C>(j: Joined<P, C>): nat
  {
    if j.matched == [] then 1 else |j.matched|
  }

  /** `$unwind` with `preserveNullAndEmptyArrays: true` on one document: one
      document per array element, or the document itself, without the
      field, when the array is empty. */
  function Unwind<P, C>(j: Joined<P, C>): (r: seq<Unwound<P, C>>)
    ensures |r| == UnwoundCount(j) && |r| >= 1
    ensures forall i :: 0 <= i < |r| ==> r[i].doc == j.doc
    ensures j.matched == [] <==> r == [Unwound(j.doc, None)]
    ensures j.matched != [] ==> forall i :: 0 <= i < |r| ==> r[i] == Unwound(j.doc, Some(j.matched[i]))
    ensures Children(r) == j.matched
  {
    if j.matched == [] then
      var r: seq<Unwound<P, C>> := [Unwound(j.doc, None)];
      assert r[..0] == [];
      r
    else UnwindEach(j.doc, j.matched)
  }

  /** The `$unwind` stage over a whole stream of documents. */
  function UnwindAll<P, C>(js: seq<Joined<P, C>>): seq<Unwound<P, C>>
  {
    FlatMap(js, Unwind)
  }

  /** First stage: each course with the sections its `sections` array names. */
  function LookupSections(courses: seq<Course>, sections: seq<Section>): (r: seq<Joined<Course, Section>>)
    ensures |r| == |courses|
    ensures forall i :: 0 <= i < |r| ==> r[i].doc == courses[i]
    ensures forall i, s :: 0 <= i < |r| ==>
      (s in r[i].matched <==> s in sections && s.id in courses[i].sections)
    ensures forall i, s :: 0 <= i < |r| ==>
      multiset(r[i].matched)[s] == (if s.id in courses[i].sections then multiset(sections)[s] else 0)
  {
    seq(|courses|, i requires 0 <= i < |courses| =>
      Joined(courses[i], Lookup(sections, SectionId, courses[i].sections)))
  }

  /** A course joined to at most one of its sections. */
  type SectionRow = Unwound<Course, Section>

  /** The `section.professors` array of a row; a row without a section has
      no such field and matches no professor. */
  function ProfessorIds(row: SectionRow): seq<ObjectId>
  {
    match row.child
    case Some(s) => s.professors
    case None => []
  }

  /** Third stage: each row with the professors its section names. */
  function LookupProfessors(rows: seq<SectionRow>, professors: seq<Professor>): (r: seq<Joined<SectionRow, Professor>>)
    ensures |r| == |rows|
    ensures forall i :: 0 <= i < |r| ==> r[i].doc == rows[i]
    ensures forall i, p :: 0 <= i < |r| ==>
      (p in r[i].matched <==> rows[i].child.Some? && p in professors && p.id in rows[i].child.value.professors)
    ensures forall i, p :: 0 <= i < |r| ==>
      multiset(r[i].matched)[p] ==
        (if rows[i].child.Some? && p.id in rows[i].child.value.professors then multiset(professors)[p] else 0)
    ensures forall i :: 0 <= i < |r| && rows[i].child.None? ==> r[i].matched == []
  {
    seq(|rows|, i requires 0 <= i < |rows| =>
      Joined(rows[i], Lookup(professors, ProfessorId, ProfessorIds(rows[i]))))
  }

  type ProfessorRow = Unwound<SectionRow, Professor>

  // ---------------------------------------------------------------------
  // $project: the flat join row
  // ---------------------------------------------------------------------

  datatype ProfessorRef = ProfessorRef(firstName: Option<string>, lastName: Option<string>)

  datatype JoinRow = JoinRow(
    subjectPrefix: string,
    courseNumber: string,
    academicSession: Option<string>,
    sectionNumber: Option<string>,
    professor: ProfessorRef)

  function SessionOf(s: Option<Section>): Option<string>
  {
    match s
    case Some(s) => Some(s.academicSession)
    case None => None
  }

  function SectionNumberOf(s: Option<Section>): Option<string>
  {
    match s
    case Some(s) => Some(s.sectionNumber)
    case None => None
  }

  function ProfessorRefOf(p: Option<Professor>): ProfessorRef
  {
    match p
    case Some(p) => ProfessorRef(Some(p.firstName), Some(p.lastName))
    case None => ProfessorRef(None, None)
  }

  /** The fifth stage: keep the course's subject and number, the section's
      session name and number, and the professor's two names. */
  function ProjectRow(u: ProfessorRow): JoinRow
  {
    JoinRow(u.doc.doc.subjectPrefix, u.doc.doc.courseNumber,
            SessionOf(u.doc.child), SectionNumberOf(u.doc.child), ProfessorRefOf(u.child))
  }

  /** The first five stages: the flat rows the grouping stages consume. */
  function JoinRows(courses: seq<Course>, sections: seq<Section>, professors: seq<Professor>): seq<JoinRow>
  {
    Push(UnwindAll(LookupProfessors(UnwindAll(LookupSections(courses, sections)), professors)), ProjectRow)
  }

  // ---------------------------------------------------------------------
  // The four $group stages
  // ---------------------------------------------------------------------

  datatype SectionKey = SectionKey(subjectPrefix: string, courseNumber: string, academicSession: Option<string>, sectionNumber: Option<string>)
  datatype SessionKey = SessionKey(subjectPrefix: string, courseNumber: string, academicSession: Option<string>)
  datatype CourseKey = CourseKey(subjectPrefix: string, courseNumber: string)

  /** Output of the first `$group`: `_id` and the pushed `professor` list. */
  datatype SectionBucket = SectionBucket(id: SectionKey, professor: seq<ProfessorRef>)
  datatype SectionGroup = SectionGroup(sectionNumber: Option<string>, professors: seq<ProfessorRef>)
  /** Output of the second `$group`. */
  datatype SessionBucket = SessionBucket(id: SessionKey, sections: seq<SectionGroup>)
  datatype SessionGroup = SessionGroup(academicSession: Option<string>, sections: seq<SectionGroup>)
  /** Output of the third `$group`. */
  datatype CourseBucket = CourseBucket(id: CourseKey, academicSessions: seq<SessionGroup>)
  datatype CourseGroup = CourseGroup(courseNumber: string, academicSessions: seq<SessionGroup>)
  /** Output of the fourth `$group`. */
  datatype SubjectBucket = SubjectBucket(id: string, courseNumbers: seq<CourseGroup>)
  /** One document of the result: the final `$project` drops `_id`. */
  datatype SubjectGroup = SubjectGroup(subjectPrefix: string, courseNumbers: seq<CourseGroup>)

  function RowKey(r: JoinRow): SectionKey
  {
    SectionKey(r.subjectPrefix, r.courseNumber, r.academicSession, r.sectionNumber)
  }

  function RowProfessor(r: JoinRow): ProfessorRef { r.professor }

  function SectionBucketOf(g: Group<SectionKey, JoinRow>): SectionBucket
  {
    SectionBucket(g.key, Push(g.members, RowProfessor))
  }

  /** Stage 6: group by (subject, course, session, section), pushing each
      row's professor. */
  function GroupSections(rows: seq<JoinRow>): seq<SectionBucket>
  {
    Push(GroupBy(rows, RowKey), SectionBucketOf)
  }

  function SessionKeyOf(b: SectionBucket): SessionKey
  {
    SessionKey(b.id.subjectPrefix, b.id.courseNumber, b.id.academicSession)
  }

  function SectionGroupOf(b: SectionBucket): SectionGroup
  {
    SectionGroup(b.id.sectionNumber, b.professor)
  }

  function SessionBucketOf(g: Group<SessionKey, SectionBucket>): SessionBucket
  {
    SessionBucket(g.key, Push(g.members, SectionGroupOf))
  }

  /** Stage 7: group by (subject, course, session), pushing each section. */
  function GroupSessions(bs: seq<SectionBucket>): seq<SessionBucket>
  {
    Push(GroupBy(bs, SessionKeyOf), SessionBucketOf)
  }

  function CourseKeyOf(b: SessionBucket): CourseKey
  {
    CourseKey(b.id.subjectPrefix, b.id.courseNumber)
  }

  function SessionGroupOf(b: SessionBucket): SessionGroup
  {
    SessionGroup(b.id.academicSession, b.sections)
  }

  function CourseBucketOf(g: Group<CourseKey, SessionBucket>): CourseBucket
  {
    CourseBucket(g.key, Push(g.members, SessionGroupOf))
  }

  /** Stage 8: group by (subject, course), pushing each session. */
  function GroupCourses(bs: seq<SessionBucket>): seq<CourseBucket>
  {
    Push(GroupBy(bs, CourseKeyOf), CourseBucketOf)
  }

  function SubjectOf(b: CourseBucket): string { b.id.subjectPrefix }

  function SectionBucketId(b: SectionBucket): SectionKey { b.id }
  function SessionBucketId(b: SessionBucket): SessionKey { b.id }
  function CourseBucketId(b: CourseBucket): CourseKey { b.id }
  function SubjectBucketId(b: SubjectBucket): string { b.id }
  function SubjectPrefixOf(t: SubjectGroup): string { t.subjectPrefix }

  function CourseGroupOf(b: CourseBucket): CourseGroup
  {
    CourseGroup(b.id.courseNumber, b.academicSessions)
  }

  function SubjectBucketOf(g: Group<string, CourseBucket>): SubjectBucket
  {
    SubjectBucket(g.key, Push(g.members, CourseGroupOf))
  }

  /** Stage 9: group by subject, pushing each course. */
  function GroupSubjects(bs: seq<CourseBucket>): seq<SubjectBucket>
  {
    Push(GroupBy(bs, SubjectOf), SubjectBucketOf)
  }

  function SubjectGroupOf(b: SubjectBucket): SubjectGroup
  {
    SubjectGroup(b.id, b.courseNumbers)
  }

  /** Stage 10: rename `_id` to `subject_prefix` and drop `_id`. */
  function ProjectSubjects(bs: seq<SubjectBucket>): seq<SubjectGroup>
  {
    Push(bs, SubjectGroupOf)
  }

  /** The four grouping stages and the final projection. */
  function AutocompleteTree(rows: seq<JoinRow>): seq<SubjectGroup>
  {
    ProjectSubjects(GroupSubjects(GroupCourses(GroupSessions(GroupSections(rows)))))
  }

  /** The whole pipeline, run against the `courses` collection. */
  function AutocompletePipeline(courses: seq<Course>, sections: seq<Section>, professors: seq<Professor>): seq<SubjectGroup>
  {
    AutocompleteTree(JoinRows(courses, sections, professors))
  }

  // ---------------------------------------------------------------------
  // Reading a tree back into flat lists, one level at a time
  // ---------------------------------------------------------------------

  function CourseUnder(subject: string): CourseGroup -> CourseBucket
  {
    (c: CourseGroup) => CourseBucket(CourseKey(subject, c.courseNumber), c.academicSessions)
  }

  function SessionUnder(id: CourseKey): SessionGroup -> SessionBucket
  {
    (s: SessionGroup) => SessionBucket(SessionKey(id.subjectPrefix, id.courseNumber, s.academicSession), s.sections)
  }

  function SectionUnder(id: SessionKey): SectionGroup -> SectionBucket
  {
    (s: SectionGroup) => SectionBucket(SectionKey(id.subjectPrefix, id.courseNumber, id.academicSession, s.sectionNumber), s.professors)
  }

  function RowUnder(id: SectionKey): ProfessorRef -> JoinRow
  {
    (p: ProfessorRef) => JoinRow(id.subjectPrefix, id.courseNumber, id.academicSession, id.sectionNumber, p)
  }

  function SubjectCourses(t: SubjectGroup): seq<CourseBucket> { Push(t.courseNumbers, CourseUnder(t.subjectPrefix)) }
  function CourseSessions(b: CourseBucket): seq<SessionBucket> { Push(b.academicSessions, SessionUnder(b.id)) }
  function SessionSections(b: SessionBucket): seq<SectionBucket> { Push(b.sections, SectionUnder(b.id)) }
  function SectionRows(b: SectionBucket): seq<JoinRow> { Push(b.professor, RowUnder(b.id)) }

  /** Every (subject, course) pair of a tree, with its sessions. */
  function CourseLevel(tree: seq<SubjectGroup>): seq<CourseBucket>
  {
    FlatMap(tree, SubjectCourses)
  }

  /** Every (subject, course, session) triple of a tree, with its sections. */
  function SessionLevel(tree: seq<SubjectGroup>): seq<SessionBucket>
  {
    FlatMap(CourseLevel(tree), CourseSessions)
  }

  /** Every leaf of a tree, with its full key and its professor list. */
  function Leaves(tree: seq<SubjectGroup>): seq<SectionBucket>
  {
    FlatMap(SessionLevel(tree), SessionSections)
  }

  /** A tree flattened back into one row per professor entry. */
  function Ungroup(tree: seq<SubjectGroup>): seq<JoinRow>
  {
    FlatMap(Leaves(tree), SectionRows)
  }

  // ---------------------------------------------------------------------
  // Counting professor entries in a tree
  // ---------------------------------------------------------------------

  function SectionEntries(s: SectionGroup): nat { |s.professors| }
  function SessionEntries(s: SessionGroup): nat { SumOf(s.sections, SectionEntries) }
  function CourseEntries(c: CourseGroup): nat { SumOf(c.academicSessions, SessionEntries) }
  function SubjectEntries(t: SubjectGroup): nat { SumOf(t.courseNumbers, CourseEntries) }

  /** Total number of professor entries in a tree, summed level by level. */
  function ProfessorEntries(tree: seq<SubjectGroup>): nat { SumOf(tree, SubjectEntries) }

  // ---------------------------------------------------------------------
  // The HTTP handler
  // ---------------------------------------------------------------------

  const StatusOK := 200
  const StatusInternalServerError := 500

  datatype ResponseData = Documents(docs: seq<SubjectGroup>) | ErrorText(text: string)

  /** The `{status, message, data}` envelope. */
  datatype AutocompleteResponse = AutocompleteResponse(status: int, message: string, data: ResponseData)

  /** What the handler does: write a response, or panic. */
  datatype HandlerOutcome = Responded(response: AutocompleteResponse) | Panicked(reason: string)

  /** The store as seen by one request: the three collections, and the
      failures `Aggregate` and `cursor.All` may report instead of results. */
  datatype Store = Store(
    courses: seq<Course>,
    sections: seq<Section>,
    professors: seq<Professor>,
    aggregateError: Option<string>,
    cursorError: Option<string>)

  /** `AutocompleteDAG`: run the pipeline; a failed aggregate answers 500
      with the error text, a failed cursor read panics, and otherwise the
      handler answers 200 with the result list. */
  function AutocompleteDAG(store: Store): (r: HandlerOutcome)
    ensures store.aggregateError.Some? ==>
      r == Responded(AutocompleteResponse(StatusInternalServerError, "error", ErrorText(store.aggregateError.value)))
    ensures store.aggregateError.None? && store.cursorError.Some? ==> r == Panicked(store.cursorError.value)
    ensures store.aggregateError.None? && store.cursorError.None? ==>
      r == Responded(AutocompleteResponse(StatusOK, "success",
        Documents(AutocompletePipeline(store.courses, store.sections, store.professors))))
    ensures r.Responded? ==>
      && (r.response.status == StatusOK <==> r.response.message == "success")
      && (r.response.status == StatusOK <==> r.response.data.Documents?)
  {
    match store.aggregateError
    case Some(e) => Responded(AutocompleteResponse(StatusInternalServerError, "error", ErrorText(e)))
    case None =>
      match store.cursorError
      case Some(e) => Panicked(e)
      case None =>
        Responded(AutocompleteResponse(StatusOK, "success",
          Documents(AutocompletePipeline(store.courses, store.sections, store.professors))))
  }
}
