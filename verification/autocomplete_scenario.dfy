/** A worked example: four join rows over two subjects, one course of which
    has two sessions, and one section with two professors, run through the
    four `$group` stages and the final `$project`. */
module AutocompleteScenario {
  import opened Wrappers
  import opened Grouping
  import opened Autocomplete

  const Smith := ProfessorRef(Some("J"), Some("Smith"))
  const Doe := ProfessorRef(Some("A"), Some("Doe"))
  const Lee := ProfessorRef(Some("K"), Some("Lee"))
  /** The professor entry of a section no professor matched. */
  const Nobody := ProfessorRef(None, None)

  const R0 := JoinRow("CS", "1337", Some("Fall24"), Some("001"), Smith)
  const R1 := JoinRow("CS", "1337", Some("Fall24"), Some("001"), Doe)
  const R2 := JoinRow("CS", "1337", Some("Spring25"), Some("002"), Nobody)
  const R3 := JoinRow("MATH", "2417", Some("Fall24"), Some("901"), Lee)

  const B0 := SectionBucket(RowKey(R0), [Smith, Doe])
  const B2 := SectionBucket(RowKey(R2), [Nobody])
  const B3 := SectionBucket(RowKey(R3), [Lee])

  const S0 := SessionBucket(SessionKeyOf(B0), [SectionGroupOf(B0)])
  const S2 := SessionBucket(SessionKeyOf(B2), [SectionGroupOf(B2)])
  const S3 := SessionBucket(SessionKeyOf(B3), [SectionGroupOf(B3)])

  const C0 := CourseBucket(CourseKeyOf(S0), [SessionGroupOf(S0), SessionGroupOf(S2)])
  const C3 := CourseBucket(CourseKeyOf(S3), [SessionGroupOf(S3)])

  lemma PushOne<T, U>(a: T, f: T -> U)
    ensures Push([a], f) == [f(a)]
  {
  }

  lemma PushTwo<T, U>(a: T, b: T, f: T -> U)
    ensures Push([a, b], f) == [f(a), f(b)]
  {
  }

  lemma PushThree<T, U>(a: T, b: T, c: T, f: T -> U)
    ensures Push([a, b, c], f) == [f(a), f(b), f(c)]
  {
  }

  lemma GroupByOne<K, T>(a: T, key: T -> K)
    ensures GroupBy([a], key) == [Group(key(a), [a])]
  {
    assert [a][..0] == [];
  }

  /** Appending an element with an unseen key opens a group at the end. */
  lemma GroupBySnocNew<K, T>(xs: seq<T>, x: T, key: T -> K)
    requires forall j :: 0 <= j < |GroupBy(xs, key)| ==> GroupBy(xs, key)[j].key != key(x)
    ensures GroupBy(xs + [x], key) == GroupBy(xs, key) + [Group(key(x), [x])]
  {
    assert (xs + [x])[..|xs|] == xs;
  }

  /** Appending an element whose key is the last group's adds it there. */
  lemma GroupBySnocLast<K, T>(xs: seq<T>, x: T, key: T -> K, gs: seq<Group<K, T>>, g: Group<K, T>)
    requires GroupBy(xs, key) == gs + [g] && g.key == key(x)
    requires forall j :: 0 <= j < |gs| ==> gs[j].key != key(x)
    ensures GroupBy(xs + [x], key) == gs + [Group(g.key, g.members + [x])]
  {
    assert (xs + [x])[..|xs|] == xs;
    var all := gs + [g];
    assert forall i :: 0 <= i < |gs| ==> all[i] == gs[i];
    assert all[|gs|] == g;
    assert Find(all, key(x)) == |gs|;
  }

  /** R0 and R1 share a section; R2 and R3 are each in a section of their
      own. */
  lemma RowKeysApart()
    ensures RowKey(R1) == RowKey(R0)
    ensures RowKey(R2) != RowKey(R0)
    ensures RowKey(R3) != RowKey(R0) && RowKey(R3) != RowKey(R2)
  {
    assert "Fall24"[0] != "Spring25"[0];
    assert "MATH"[0] != "CS"[0];
  }

  lemma SectionGrouping()
    ensures GroupBy([R0, R1, R2, R3], RowKey) ==
      [Group(RowKey(R0), [R0, R1]), Group(RowKey(R2), [R2]), Group(RowKey(R3), [R3])]
  {
    RowKeysApart();
    GroupByOne(R0, RowKey);
    GroupBySnocLast([R0], R1, RowKey, [], Group(RowKey(R0), [R0]));
    assert [R0] + [R1] == [R0, R1];
    GroupBySnocNew([R0, R1], R2, RowKey);
    assert [R0, R1] + [R2] == [R0, R1, R2];
    GroupBySnocNew([R0, R1, R2], R3, RowKey);
    assert [R0, R1, R2] + [R3] == [R0, R1, R2, R3];
  }

  lemma SectionStage()
    ensures GroupSections([R0, R1, R2, R3]) == [B0, B2, B3]
  {
    SectionGrouping();
    var g1 := GroupBy([R0, R1, R2, R3], RowKey);
    PushThree(g1[0], g1[1], g1[2], SectionBucketOf);
    PushTwo(R0, R1, RowProfessor);
    PushOne(R2, RowProfessor);
    PushOne(R3, RowProfessor);
  }

  lemma SessionStage()
    ensures GroupSessions([B0, B2, B3]) == [S0, S2, S3]
  {
    GroupByOne(B0, SessionKeyOf);
    GroupBySnocNew([B0], B2, SessionKeyOf);
    assert [B0] + [B2] == [B0, B2];
    GroupBySnocNew([B0, B2], B3, SessionKeyOf);
    assert [B0, B2] + [B3] == [B0, B2, B3];
    var g := GroupBy([B0, B2, B3], SessionKeyOf);
    PushThree(g[0], g[1], g[2], SessionBucketOf);
    PushOne(B0, SectionGroupOf);
    PushOne(B2, SectionGroupOf);
    PushOne(B3, SectionGroupOf);
  }

  lemma CourseStage()
    ensures GroupCourses([S0, S2, S3]) == [C0, C3]
  {
    var k0 := CourseKeyOf(S0);
    GroupByOne(S0, CourseKeyOf);
    GroupBySnocLast([S0], S2, CourseKeyOf, [], Group(k0, [S0]));
    assert [S0] + [S2] == [S0, S2];
    GroupBySnocNew([S0, S2], S3, CourseKeyOf);
    assert [S0, S2] + [S3] == [S0, S2, S3];
    var g := GroupBy([S0, S2, S3], CourseKeyOf);
    PushTwo(g[0], g[1], CourseBucketOf);
    PushTwo(S0, S2, SessionGroupOf);
    PushOne(S3, SessionGroupOf);
  }

  lemma SubjectStage()
    ensures ProjectSubjects(GroupSubjects([C0, C3])) == [
      SubjectGroup("CS", [CourseGroupOf(C0)]), SubjectGroup("MATH", [CourseGroupOf(C3)])]
  {
    GroupByOne(C0, SubjectOf);
    GroupBySnocNew([C0], C3, SubjectOf);
    assert [C0] + [C3] == [C0, C3];
    var g := GroupBy([C0, C3], SubjectOf);
    PushTwo(g[0], g[1], SubjectBucketOf);
    PushOne(C0, CourseGroupOf);
    PushOne(C3, CourseGroupOf);
    PushTwo(GroupSubjects([C0, C3])[0], GroupSubjects([C0, C3])[1], SubjectGroupOf);
  }

  /** Two subjects in first-seen order; CS 1337 has a Fall24 session whose
      section 001 lists both professors in row order, and a Spring25
      session whose section 002 keeps the row without a professor as one
      empty entry; MATH 2417 has one session with one section and one
      professor. */
  lemma ScenarioTree()
    ensures AutocompleteTree([R0, R1, R2, R3]) == [
      SubjectGroup("CS", [CourseGroup("1337", [
        SessionGroup(Some("Fall24"), [SectionGroup(Some("001"), [Smith, Doe])]),
        SessionGroup(Some("Spring25"), [SectionGroup(Some("002"), [Nobody])])])]),
      SubjectGroup("MATH", [CourseGroup("2417", [
        SessionGroup(Some("Fall24"), [SectionGroup(Some("901"), [Lee])])])])]
  {
    SectionStage();
    SessionStage();
    CourseStage();
    SubjectStage();
  }

  lemma FlatMapOne<T, U>(a: T, f: T -> seq<U>)
    ensures FlatMap([a], f) == f(a)
  {
    assert [a][..0] == [];
  }

  /** The tree built from a single row: one chain down to one leaf. */
  lemma SingleRowTree(r: JoinRow)
    ensures AutocompleteTree([r]) == [SubjectGroup(r.subjectPrefix, [CourseGroup(r.courseNumber, [
      SessionGroup(r.academicSession, [SectionGroup(r.sectionNumber, [r.professor])])])])]
  {
    GroupByOne(r, RowKey);
    PushOne(Group(RowKey(r), [r]), SectionBucketOf);
    PushOne(r, RowProfessor);
    var b := SectionBucketOf(Group(RowKey(r), [r]));
    GroupByOne(b, SessionKeyOf);
    PushOne(Group(SessionKeyOf(b), [b]), SessionBucketOf);
    PushOne(b, SectionGroupOf);
    var s := SessionBucketOf(Group(SessionKeyOf(b), [b]));
    GroupByOne(s, CourseKeyOf);
    PushOne(Group(CourseKeyOf(s), [s]), CourseBucketOf);
    PushOne(s, SessionGroupOf);
    var c := CourseBucketOf(Group(CourseKeyOf(s), [s]));
    GroupByOne(c, SubjectOf);
    PushOne(Group(SubjectOf(c), [c]), SubjectBucketOf);
    PushOne(c, CourseGroupOf);
    var t := SubjectBucketOf(Group(SubjectOf(c), [c]));
    PushOne(t, SubjectGroupOf);
  }

  /** A `$lookup` none of whose foreign ids is listed matches nothing. */
  lemma {:induction false} LookupNone<D(!new)>(foreign: seq<D>, idOf: D -> ObjectId, local: seq<ObjectId>)
    requires forall i :: 0 <= i < |foreign| ==> idOf(foreign[i]) !in local
    ensures Lookup(foreign, idOf, local) == []
  {
    if foreign != [] {
      LookupNone(foreign[..|foreign| - 1], idOf, local);
    }
  }

  /** Null preservation through both joins: a course none of whose section
      ids names a section still reaches the response, as one chain whose
      session, section and professor are all absent. */
  lemma LoneCourse(c: Course, sections: seq<Section>, professors: seq<Professor>)
    requires forall s :: s in sections ==> s.id !in c.sections
    ensures AutocompletePipeline([c], sections, professors) == [SubjectGroup(c.subjectPrefix, [CourseGroup(c.courseNumber, [
      SessionGroup(None, [SectionGroup(None, [Nobody])])])])]
  {
    var js := LookupSections([c], sections);
    assert forall i :: 0 <= i < |sections| ==> sections[i] in sections;
    LookupNone(sections, SectionId, c.sections);
    var j0: Joined<Course, Section> := Joined(c, []);
    assert js == [j0];
    FlatMapOne(j0, Unwind);
    var u: SectionRow := Unwound(c, None);
    assert UnwindAll(js) == [u];
    var ps := LookupProfessors([u], professors);
    var j1: Joined<SectionRow, Professor> := Joined(u, []);
    assert ps == [j1];
    FlatMapOne(j1, Unwind);
    var pu: ProfessorRow := Unwound(u, None);
    assert UnwindAll(ps) == [pu];
    PushOne(pu, ProjectRow);
    var row := JoinRow(c.subjectPrefix, c.courseNumber, None, None, Nobody);
    assert JoinRows([c], sections, professors) == [row];
    SingleRowTree(row);
  }
}
