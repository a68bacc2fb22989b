/** Properties of the autocomplete pipeline: what the joins keep, what each
    `$group` stage produces, and that the finished tree is a lossless
    regrouping of the flat join rows. */
module AutocompleteProofs {
  import opened Wrappers
  import opened Grouping
  import opened Autocomplete

  // ---------------------------------------------------------------------
  // The joins
  // ---------------------------------------------------------------------

  /** `$unwind` over a stream: its length counts one row per matched
      element, and one for each document whose array is empty. */
  lemma UnwindAllLength<P, C>(js: seq<Joined<P, C>>)
    ensures |UnwindAll(js)| == SumOf(js, UnwoundCount)
  {
    FlatMapLength(js, Unwind, UnwoundCount);
  }

  /** `$unwind` keeps every document: one row per matched element, or one
      row without the field when nothing matched. */
  lemma UnwindAllKeeps<P, C>(js: seq<Joined<P, C>>)
    ensures forall i :: 0 <= i < |js| && js[i].matched == [] ==> Unwound(js[i].doc, None) in UnwindAll(js)
    ensures forall i, k :: 0 <= i < |js| && 0 <= k < |js[i].matched| ==>
      Unwound(js[i].doc, Some(js[i].matched[k])) in UnwindAll(js)
  {
    FlatMapMembers(js, Unwind);
    forall i, k | 0 <= i < |js| && 0 <= k < |js[i].matched|
      ensures Unwound(js[i].doc, Some(js[i].matched[k])) in UnwindAll(js)
    {
      assert Unwind(js[i])[k] == Unwound(js[i].doc, Some(js[i].matched[k]));
    }
  }

  /** `$unwind` invents nothing: every row is a document of the stream with
      one of its matched elements, or without one when nothing matched. */
  lemma UnwindAllSources<P, C>(js: seq<Joined<P, C>>)
    ensures forall u :: u in UnwindAll(js) ==> exists i :: (0 <= i < |js| && u.doc == js[i].doc &&
      (u.child.None? <==> js[i].matched == []) && (u.child.Some? ==> u.child.value in js[i].matched))
  {
    FlatMapMembers(js, Unwind);
    forall u | u in UnwindAll(js) ensures exists i :: (0 <= i < |js| && u.doc == js[i].doc &&
      (u.child.None? <==> js[i].matched == []) && (u.child.Some? ==> u.child.value in js[i].matched))
    {
      var i :| 0 <= i < |js| && u in Unwind(js[i]);
      UnwoundSource(js[i], u);
    }
  }

  lemma UnwoundSource<P, C>(j: Joined<P, C>, u: Unwound<P, C>)
    requires u in Unwind(j)
    ensures u.doc == j.doc && (u.child.None? <==> j.matched == []) && (u.child.Some? ==> u.child.value in j.matched)
  {
    var r := Unwind(j);
    var k :| 0 <= k < |r| && r[k] == u;
    if j.matched != [] {
      assert u == Unwound(j.doc, Some(j.matched[k]));
    }
  }

  /** Unwinding never drops a document: the stream is empty only when its
      input is. */
  lemma {:induction false} UnwindAllEmpty<P, C>(js: seq<Joined<P, C>>)
    ensures UnwindAll(js) == [] <==> js == []
  {
    if js != [] {
      assert |Unwind(js[|js| - 1])| >= 1;
    }
  }

  /** First join: a course none of whose section ids matches a section yields
      exactly one row, without a section; otherwise it yields one row per
      matching section, and only those. */
  lemma SectionJoinRows(courses: seq<Course>, sections: seq<Section>, i: nat)
    requires i < |courses|
    ensures var rows := Unwind(LookupSections(courses, sections)[i]);
      && (forall r :: r in rows ==> r.doc == courses[i])
      && ((forall s :: s in sections ==> s.id !in courses[i].sections) <==> rows == [Unwound(courses[i], None)])
      && (forall s :: s in Children(rows) <==> s in sections && s.id in courses[i].sections)
  {
    var j := LookupSections(courses, sections)[i];
    assert j.doc == courses[i];
    assert forall s :: s in j.matched <==> s in sections && s.id in courses[i].sections;
    var rows := Unwind(j);
    assert Children(rows) == j.matched;
    if j.matched != [] {
      var s0 := j.matched[0];
      assert s0 in sections && s0.id in courses[i].sections;
    }
  }

  /** Second join: a row whose section names no known professor, or that has
      no section at all, yields exactly one row without a professor;
      otherwise one row per matching professor, and only those. */
  lemma ProfessorJoinRows(rows: seq<SectionRow>, professors: seq<Professor>, i: nat)
    requires i < |rows|
    ensures var out := Unwind(LookupProfessors(rows, professors)[i]);
      && (forall r :: r in out ==> r.doc == rows[i])
      && ((forall p :: p in professors ==> p.id !in ProfessorIds(rows[i])) <==> out == [Unwound(rows[i], None)])
      && (forall p :: p in Children(out) <==> p in professors && p.id in ProfessorIds(rows[i]))
  {
    var j := LookupProfessors(rows, professors)[i];
    if j.matched != [] {
      assert j.matched[0] in professors && j.matched[0].id in ProfessorIds(rows[i]);
    }
  }

  /** Some row of an unwound stream carries document `i`. */
  lemma SomeRowOf<P, C>(js: seq<Joined<P, C>>, i: nat) returns (k: nat)
    requires i < |js|
    ensures k < |UnwindAll(js)| && UnwindAll(js)[k].doc == js[i].doc
  {
    UnwindAllKeeps(js);
    var u := if js[i].matched == [] then Unwound(js[i].doc, None) else Unwound(js[i].doc, Some(js[i].matched[0]));
    assert u in UnwindAll(js);
    k :| 0 <= k < |UnwindAll(js)| && UnwindAll(js)[k] == u;
  }

  /** Every course reaches the flat rows: some row carries its subject and
      number, whatever its sections and professors. */
  lemma CoursesReachJoinRows(courses: seq<Course>, sections: seq<Section>, professors: seq<Professor>, i: nat)
    requires i < |courses|
    ensures exists r :: (r in JoinRows(courses, sections, professors) &&
      r.subjectPrefix == courses[i].subjectPrefix && r.courseNumber == courses[i].courseNumber)
  {
    var js := LookupSections(courses, sections);
    var k := SomeRowOf(js, i);
    var ps := LookupProfessors(UnwindAll(js), professors);
    var m := SomeRowOf(ps, k);
    var rows := JoinRows(courses, sections, professors);
    assert rows[m] == ProjectRow(UnwindAll(ps)[m]);
    assert rows[m] in rows;
  }

  /** An unwound professor row reaches the flat rows through the `$project`. */
  lemma ProjectedRow(courses: seq<Course>, sections: seq<Section>, professors: seq<Professor>, u: ProfessorRow)
    requires u in UnwindAll(LookupProfessors(UnwindAll(LookupSections(courses, sections)), professors))
    ensures ProjectRow(u) in JoinRows(courses, sections, professors)
  {
    var us := UnwindAll(LookupProfessors(UnwindAll(LookupSections(courses, sections)), professors));
    var m :| 0 <= m < |us| && us[m] == u;
    assert JoinRows(courses, sections, professors)[m] == ProjectRow(u);
  }

  /** A section row of the first `$unwind` with no known professor goes
      through the second `$unwind` as a row without a professor. */
  lemma UnmatchedSectionRow(rows: seq<SectionRow>, professors: seq<Professor>, k: nat)
    requires k < |rows|
    requires forall p :: p in professors ==> p.id !in ProfessorIds(rows[k])
    ensures Unwound(rows[k], None) in UnwindAll(LookupProfessors(rows, professors))
  {
    var ps := LookupProfessors(rows, professors);
    assert ps[k].matched == [];
    UnwindAllKeeps(ps);
  }

  /** `$project` of a course no section matched: a flat row with its subject
      and number, and session, section number and professor names all
      absent. */
  lemma UnmatchedCourseRow(courses: seq<Course>, sections: seq<Section>, professors: seq<Professor>, i: nat)
    requires i < |courses|
    requires forall s :: s in sections ==> s.id !in courses[i].sections
    ensures JoinRow(courses[i].subjectPrefix, courses[i].courseNumber, None, None, ProfessorRef(None, None))
      in JoinRows(courses, sections, professors)
  {
    var js := LookupSections(courses, sections);
    assert js[i].matched == [];
    UnwindAllKeeps(js);
    var srows := UnwindAll(js);
    var u := Unwound(courses[i], None);
    var k :| 0 <= k < |srows| && srows[k] == u;
    UnmatchedSectionRow(srows, professors, k);
    ProjectedRow(courses, sections, professors, Unwound(u, None));
  }

  /** The unwound row of a document with one of its matched elements. */
  lemma UnwoundAt<P, C>(js: seq<Joined<P, C>>, i: nat, c: C) returns (k: nat)
    requires i < |js| && c in js[i].matched
    ensures k < |UnwindAll(js)| && UnwindAll(js)[k] == Unwound(js[i].doc, Some(c))
  {
    var n :| 0 <= n < |js[i].matched| && js[i].matched[n] == c;
    UnwindAllKeeps(js);
    assert Unwound(js[i].doc, Some(js[i].matched[n])) in UnwindAll(js);
    k :| 0 <= k < |UnwindAll(js)| && UnwindAll(js)[k] == Unwound(js[i].doc, Some(c));
  }

  /** The first `$unwind` row of a course with one of its sections. */
  lemma SectionRowAt(courses: seq<Course>, sections: seq<Section>, i: nat, s: Section) returns (k: nat)
    requires i < |courses| && s in sections && s.id in courses[i].sections
    ensures k < |UnwindAll(LookupSections(courses, sections))|
    ensures UnwindAll(LookupSections(courses, sections))[k] == Unwound(courses[i], Some(s))
  {
    var js := LookupSections(courses, sections);
    assert s in js[i].matched;
    k := UnwoundAt(js, i, s);
  }

  /** `$project` of a matched section no professor matched: a flat row with
      the section's session name and number, and absent professor names. */
  lemma UnmatchedProfessorRow(courses: seq<Course>, sections: seq<Section>, professors: seq<Professor>, i: nat, s: Section)
    requires i < |courses| && s in sections && s.id in courses[i].sections
    requires forall p :: p in professors ==> p.id !in s.professors
    ensures JoinRow(courses[i].subjectPrefix, courses[i].courseNumber, Some(s.academicSession), Some(s.sectionNumber),
                    ProfessorRef(None, None)) in JoinRows(courses, sections, professors)
  {
    var k := SectionRowAt(courses, sections, i, s);
    var srows := UnwindAll(LookupSections(courses, sections));
    UnmatchedSectionRow(srows, professors, k);
    ProjectedRow(courses, sections, professors, Unwound(srows[k], None));
  }

  /** `$project` of a full match: a flat row with the section's session name
      and number and the professor's two names. */
  lemma MatchedProfessorRow(courses: seq<Course>, sections: seq<Section>, professors: seq<Professor>, i: nat, s: Section, p: Professor)
    requires i < |courses| && s in sections && s.id in courses[i].sections
    requires p in professors && p.id in s.professors
    ensures JoinRow(courses[i].subjectPrefix, courses[i].courseNumber, Some(s.academicSession), Some(s.sectionNumber),
                    ProfessorRef(Some(p.firstName), Some(p.lastName))) in JoinRows(courses, sections, professors)
  {
    var k := SectionRowAt(courses, sections, i, s);
    var srows := UnwindAll(LookupSections(courses, sections));
    var ps := LookupProfessors(srows, professors);
    assert p in ps[k].matched;
    var m := UnwoundAt(ps, k, p);
    assert UnwindAll(ps)[m] in UnwindAll(ps);
    ProjectedRow(courses, sections, professors, Unwound(srows[k], Some(p)));
  }

  /** Every flat row comes from a course of the collection, and a row
      without a section has no session and no professor names either. */
  lemma JoinRowShape(courses: seq<Course>, sections: seq<Section>, professors: seq<Professor>, r: JoinRow)
    requires r in JoinRows(courses, sections, professors)
    ensures exists i :: (0 <= i < |courses| &&
      r.subjectPrefix == courses[i].subjectPrefix && r.courseNumber == courses[i].courseNumber)
    ensures r.academicSession.None? <==> r.sectionNumber.None?
    ensures r.sectionNumber.None? ==> r.professor == ProfessorRef(None, None)
  {
    var js := LookupSections(courses, sections);
    var srows := UnwindAll(js);
    var ps := LookupProfessors(srows, professors);
    var us := UnwindAll(ps);
    var rows := JoinRows(courses, sections, professors);
    var m :| 0 <= m < |rows| && rows[m] == r;
    var u := us[m];
    assert r == ProjectRow(u);
    assert u in us;
    UnwoundSource2(ps, u);
    var k :| 0 <= k < |ps| && u.doc == ps[k].doc && (u.child.None? <==> ps[k].matched == []);
    assert u.doc == srows[k];
    UnwoundSource2(js, u.doc);
    var i :| 0 <= i < |js| && u.doc.doc == js[i].doc;
    if u.doc.child.None? {
      assert ps[k].matched == [];
    }
  }

  /** Every row of an unwound stream comes from one of its documents. */
  lemma UnwoundSource2<P, C>(js: seq<Joined<P, C>>, u: Unwound<P, C>)
    requires u in UnwindAll(js)
    ensures exists i :: 0 <= i < |js| && u.doc == js[i].doc && (u.child.None? <==> js[i].matched == [])
  {
    UnwindAllSources(js);
  }

  /** The number of flat rows: one per (course, section, professor) match,
      with a course or section that matched nothing counted once. */
  lemma JoinRowsCount(courses: seq<Course>, sections: seq<Section>, professors: seq<Professor>)
    ensures var srows := UnwindAll(LookupSections(courses, sections));
      && |srows| == SumOf(LookupSections(courses, sections), UnwoundCount)
      && |JoinRows(courses, sections, professors)| == SumOf(LookupProfessors(srows, professors), UnwoundCount)
      && (JoinRows(courses, sections, professors) == [] <==> courses == [])
  {
    var js := LookupSections(courses, sections);
    var srows := UnwindAll(js);
    UnwindAllLength(js);
    UnwindAllLength(LookupProfessors(srows, professors));
    UnwindAllEmpty(js);
    UnwindAllEmpty(LookupProfessors(srows, professors));
  }

  // ---------------------------------------------------------------------
  // The four $group stages
  // ---------------------------------------------------------------------

  /** First `$group`: one document per distinct (subject, course, session,
      section) key and no two with the same key; every row lands in the
      document with its key; each document's `professor` list is the
      professor of every row with its key, in row order, duplicates kept,
      so its length is the number of such rows. */
  lemma GroupSectionsSpec(rows: seq<JoinRow>)
    ensures var out := GroupSections(rows);
      && DistinctBy(out, SectionBucketId)
      && (forall i :: 0 <= i < |rows| ==> exists j :: 0 <= j < |out| && out[j].id == RowKey(rows[i]))
      && (forall j :: 0 <= j < |out| ==> exists i :: 0 <= i < |rows| && RowKey(rows[i]) == out[j].id)
      && (forall j :: 0 <= j < |out| ==> out[j].professor == Push(Members(rows, RowKey, out[j].id), RowProfessor))
      && (forall j :: 0 <= j < |out| ==> |out[j].professor| == |Members(rows, RowKey, out[j].id)|)
  {
    var out := GroupSections(rows);
    StageDistinct(rows, RowKey, SectionBucketOf, SectionBucketId);
    StageCovers(rows, RowKey, SectionBucketOf, SectionBucketId);
    StageSources(rows, RowKey, SectionBucketOf, SectionBucketId);
    StageMembers(rows, RowKey, SectionBucketOf, SectionBucketId);
    forall j | 0 <= j < |out| ensures exists i :: 0 <= i < |rows| && RowKey(rows[i]) == out[j].id {
      assert SectionBucketId(out[j]) == out[j].id;
    }
    forall j | 0 <= j < |out| ensures out[j].professor == Push(Members(rows, RowKey, out[j].id), RowProfessor) {
      assert out[j] == SectionBucketOf(Group(out[j].id, Members(rows, RowKey, out[j].id)));
    }
  }

  /** Second `$group`: one document per distinct (subject, course, session)
      and no two alike; every section lands in the document with its key,
      which holds exactly the sections with that key, in order. */
  lemma GroupSessionsSpec(bs: seq<SectionBucket>)
    ensures var out := GroupSessions(bs);
      && DistinctBy(out, SessionBucketId)
      && (forall i :: 0 <= i < |bs| ==> exists j :: 0 <= j < |out| && out[j].id == SessionKeyOf(bs[i]))
      && (forall j :: 0 <= j < |out| ==> exists i :: 0 <= i < |bs| && SessionKeyOf(bs[i]) == out[j].id)
      && (forall j :: 0 <= j < |out| ==> out[j].sections == Push(Members(bs, SessionKeyOf, out[j].id), SectionGroupOf))
  {
    var out := GroupSessions(bs);
    StageDistinct(bs, SessionKeyOf, SessionBucketOf, SessionBucketId);
    StageCovers(bs, SessionKeyOf, SessionBucketOf, SessionBucketId);
    StageSources(bs, SessionKeyOf, SessionBucketOf, SessionBucketId);
    StageMembers(bs, SessionKeyOf, SessionBucketOf, SessionBucketId);
    forall j | 0 <= j < |out| ensures exists i :: 0 <= i < |bs| && SessionKeyOf(bs[i]) == out[j].id {
      assert SessionBucketId(out[j]) == out[j].id;
    }
    forall j | 0 <= j < |out| ensures out[j].sections == Push(Members(bs, SessionKeyOf, out[j].id), SectionGroupOf) {
      assert out[j] == SessionBucketOf(Group(out[j].id, Members(bs, SessionKeyOf, out[j].id)));
    }
  }

  /** Third `$group`: one document per distinct (subject, course) and no two
      alike; every session lands in the document with its key, which holds
      exactly the sessions with that key, in order. */
  lemma GroupCoursesSpec(bs: seq<SessionBucket>)
    ensures var out := GroupCourses(bs);
      && DistinctBy(out, CourseBucketId)
      && (forall i :: 0 <= i < |bs| ==> exists j :: 0 <= j < |out| && out[j].id == CourseKeyOf(bs[i]))
      && (forall j :: 0 <= j < |out| ==> exists i :: 0 <= i < |bs| && CourseKeyOf(bs[i]) == out[j].id)
      && (forall j :: 0 <= j < |out| ==> out[j].academicSessions == Push(Members(bs, CourseKeyOf, out[j].id), SessionGroupOf))
  {
    var out := GroupCourses(bs);
    StageDistinct(bs, CourseKeyOf, CourseBucketOf, CourseBucketId);
    StageCovers(bs, CourseKeyOf, CourseBucketOf, CourseBucketId);
    StageSources(bs, CourseKeyOf, CourseBucketOf, CourseBucketId);
    StageMembers(bs, CourseKeyOf, CourseBucketOf, CourseBucketId);
    forall j | 0 <= j < |out| ensures exists i :: 0 <= i < |bs| && CourseKeyOf(bs[i]) == out[j].id {
      assert CourseBucketId(out[j]) == out[j].id;
    }
    forall j | 0 <= j < |out| ensures out[j].academicSessions == Push(Members(bs, CourseKeyOf, out[j].id), SessionGroupOf) {
      assert out[j] == CourseBucketOf(Group(out[j].id, Members(bs, CourseKeyOf, out[j].id)));
    }
  }

  /** Fourth `$group`: one document per distinct subject and no two alike;
      every course lands in the document with its subject, which holds
      exactly the courses of that subject, in order. */
  lemma GroupSubjectsSpec(bs: seq<CourseBucket>)
    ensures var out := GroupSubjects(bs);
      && DistinctBy(out, SubjectBucketId)
      && (forall i :: 0 <= i < |bs| ==> exists j :: 0 <= j < |out| && out[j].id == SubjectOf(bs[i]))
      && (forall j :: 0 <= j < |out| ==> exists i :: 0 <= i < |bs| && SubjectOf(bs[i]) == out[j].id)
      && (forall j :: 0 <= j < |out| ==> out[j].courseNumbers == Push(Members(bs, SubjectOf, out[j].id), CourseGroupOf))
  {
    var out := GroupSubjects(bs);
    StageDistinct(bs, SubjectOf, SubjectBucketOf, SubjectBucketId);
    StageCovers(bs, SubjectOf, SubjectBucketOf, SubjectBucketId);
    StageSources(bs, SubjectOf, SubjectBucketOf, SubjectBucketId);
    StageMembers(bs, SubjectOf, SubjectBucketOf, SubjectBucketId);
    forall j | 0 <= j < |out| ensures exists i :: 0 <= i < |bs| && SubjectOf(bs[i]) == out[j].id {
      assert SubjectBucketId(out[j]) == out[j].id;
    }
    forall j | 0 <= j < |out| ensures out[j].courseNumbers == Push(Members(bs, SubjectOf, out[j].id), CourseGroupOf) {
      assert out[j] == SubjectBucketOf(Group(out[j].id, Members(bs, SubjectOf, out[j].id)));
    }
  }

  /** The final `$project`: each output document keeps only the subject and
      its course list, and no two output documents share a subject. */
  lemma ProjectSubjectsSpec(bs: seq<CourseBucket>)
    ensures var out := ProjectSubjects(GroupSubjects(bs));
      && |out| == |GroupSubjects(bs)|
      && DistinctBy(out, SubjectPrefixOf)
      && (forall j :: 0 <= j < |out| ==>
            out[j] == SubjectGroup(GroupSubjects(bs)[j].id, GroupSubjects(bs)[j].courseNumbers))
  {
    StageDistinct(bs, SubjectOf, SubjectBucketOf, SubjectBucketId);
    var gs := GroupSubjects(bs);
    var out := ProjectSubjects(gs);
    assert |out| == |gs|;
    forall j | 0 <= j < |out| ensures out[j] == SubjectGroup(gs[j].id, gs[j].courseNumbers) {
      assert out[j] == SubjectGroupOf(gs[j]);
    }
    forall i, j | 0 <= i < j < |out| ensures SubjectPrefixOf(out[i]) != SubjectPrefixOf(out[j]) {
      assert SubjectBucketId(gs[i]) != SubjectBucketId(gs[j]);
    }
  }

  /** The subject stage and projection read as one `$group`. */
  function SubjectDocOf(g: Group<string, CourseBucket>): SubjectGroup
  {
    SubjectGroupOf(SubjectBucketOf(g))
  }

  lemma SubjectStageAsOne(bs: seq<CourseBucket>)
    ensures ProjectSubjects(GroupSubjects(bs)) == Push(GroupBy(bs, SubjectOf), SubjectDocOf)
  {
    var gs := GroupBy(bs, SubjectOf);
    var a := ProjectSubjects(GroupSubjects(bs));
    var b := Push(gs, SubjectDocOf);
    assert |a| == |b|;
    forall j | 0 <= j < |a| ensures a[j] == b[j] {
      assert GroupSubjects(bs)[j] == SubjectBucketOf(gs[j]);
    }
  }

  // ---------------------------------------------------------------------
  // The tree is a lossless regrouping of the rows
  // ---------------------------------------------------------------------

  lemma SectionRowsUndo()
    ensures forall g :: Uniform(g, RowKey) ==> SectionRows(SectionBucketOf(g)) == g.members
  {
    forall g | Uniform(g, RowKey) ensures SectionRows(SectionBucketOf(g)) == g.members {
      var r := SectionRows(SectionBucketOf(g));
      assert |r| == |g.members|;
      forall i | 0 <= i < |r| ensures r[i] == g.members[i] {
        var m := g.members[i];
        assert RowKey(m) == g.key;
        assert r[i] == RowUnder(g.key)(RowProfessor(m));
      }
    }
  }

  lemma SessionSectionsUndo()
    ensures forall g :: Uniform(g, SessionKeyOf) ==> SessionSections(SessionBucketOf(g)) == g.members
  {
    forall g | Uniform(g, SessionKeyOf) ensures SessionSections(SessionBucketOf(g)) == g.members {
      var r := SessionSections(SessionBucketOf(g));
      assert |r| == |g.members|;
      forall i | 0 <= i < |r| ensures r[i] == g.members[i] {
        var m := g.members[i];
        assert SessionKeyOf(m) == g.key;
        assert r[i] == SectionUnder(g.key)(SectionGroupOf(m));
      }
    }
  }

  lemma CourseSessionsUndo()
    ensures forall g :: Uniform(g, CourseKeyOf) ==> CourseSessions(CourseBucketOf(g)) == g.members
  {
    forall g | Uniform(g, CourseKeyOf) ensures CourseSessions(CourseBucketOf(g)) == g.members {
      var r := CourseSessions(CourseBucketOf(g));
      assert |r| == |g.members|;
      forall i | 0 <= i < |r| ensures r[i] == g.members[i] {
        var m := g.members[i];
        assert CourseKeyOf(m) == g.key;
        assert r[i] == SessionUnder(g.key)(SessionGroupOf(m));
      }
    }
  }

  lemma SubjectCoursesUndo()
    ensures forall g :: Uniform(g, SubjectOf) ==> SubjectCourses(SubjectDocOf(g)) == g.members
  {
    forall g | Uniform(g, SubjectOf) ensures SubjectCourses(SubjectDocOf(g)) == g.members {
      var r := SubjectCourses(SubjectDocOf(g));
      assert |r| == |g.members|;
      forall i | 0 <= i < |r| ensures r[i] == g.members[i] {
        var m := g.members[i];
        assert SubjectOf(m) == g.key;
        assert r[i] == CourseUnder(g.key)(CourseGroupOf(m));
      }
    }
  }

  /** Each level of the finished tree, read back, is a permutation of the
      output of the corresponding `$group` stage; and the tree read back
      into rows is a permutation of the rows it was built from. Nothing is
      lost, duplicated or invented by the four groupings. */
  lemma TreeRoundTrip(rows: seq<JoinRow>)
    ensures var l1 := GroupSections(rows);
      var l2 := GroupSessions(l1);
      var l3 := GroupCourses(l2);
      var tree := AutocompleteTree(rows);
      && multiset(CourseLevel(tree)) == multiset(l3)
      && multiset(SessionLevel(tree)) == multiset(l2)
      && multiset(Leaves(tree)) == multiset(l1)
      && multiset(Ungroup(tree)) == multiset(rows)
  {
    var l1 := GroupSections(rows);
    var l2 := GroupSessions(l1);
    var l3 := GroupCourses(l2);
    var tree := AutocompleteTree(rows);
    SectionRowsUndo();
    SessionSectionsUndo();
    CourseSessionsUndo();
    SubjectCoursesUndo();
    SubjectStageAsOne(l3);
    StageRoundTrip(l3, SubjectOf, SubjectDocOf, SubjectCourses);
    StageRoundTrip(l2, CourseKeyOf, CourseBucketOf, CourseSessions);
    StageRoundTrip(l1, SessionKeyOf, SessionBucketOf, SessionSections);
    StageRoundTrip(rows, RowKey, SectionBucketOf, SectionRows);
    assert multiset(CourseLevel(tree)) == multiset(l3);
    FlatMapPermutes(CourseLevel(tree), l3, CourseSessions);
    assert multiset(SessionLevel(tree)) == multiset(l2);
    FlatMapPermutes(SessionLevel(tree), l2, SessionSections);
    assert multiset(Leaves(tree)) == multiset(l1);
    FlatMapPermutes(Leaves(tree), l1, SectionRows);
  }

  // ---------------------------------------------------------------------
  // Conservation of professor entries
  // ---------------------------------------------------------------------

  function LeafSize(b: SectionBucket): nat { |b.professor| }
  function SessionBucketEntries(b: SessionBucket): nat { SumOf(b.sections, SectionEntries) }
  function CourseBucketEntries(b: CourseBucket): nat { SumOf(b.academicSessions, SessionEntries) }

  lemma LeavesEntries(tree: seq<SubjectGroup>)
    ensures |Ungroup(tree)| == SumOf(SessionLevel(tree), SessionBucketEntries)
  {
    var sl := SessionLevel(tree);
    FlatMapLength(Leaves(tree), SectionRows, LeafSize);
    forall i | 0 <= i < |sl| ensures SumOf(SessionSections(sl[i]), LeafSize) == SessionBucketEntries(sl[i]) {
      SumOfPush(sl[i].sections, SectionUnder(sl[i].id), LeafSize, SectionEntries);
    }
    SumOfFlatMap(sl, SessionSections, LeafSize, SessionBucketEntries);
  }

  lemma SessionLevelEntries(tree: seq<SubjectGroup>)
    ensures SumOf(SessionLevel(tree), SessionBucketEntries) == SumOf(CourseLevel(tree), CourseBucketEntries)
  {
    var cl := CourseLevel(tree);
    forall i | 0 <= i < |cl| ensures SumOf(CourseSessions(cl[i]), SessionBucketEntries) == CourseBucketEntries(cl[i]) {
      SumOfPush(cl[i].academicSessions, SessionUnder(cl[i].id), SessionBucketEntries, SessionEntries);
    }
    SumOfFlatMap(cl, CourseSessions, SessionBucketEntries, CourseBucketEntries);
  }

  lemma CourseLevelEntries(tree: seq<SubjectGroup>)
    ensures SumOf(CourseLevel(tree), CourseBucketEntries) == ProfessorEntries(tree)
  {
    forall i | 0 <= i < |tree| ensures SumOf(SubjectCourses(tree[i]), CourseBucketEntries) == SubjectEntries(tree[i]) {
      SumOfPush(tree[i].courseNumbers, CourseUnder(tree[i].subjectPrefix), CourseBucketEntries, CourseEntries);
    }
    SumOfFlatMap(tree, SubjectCourses, CourseBucketEntries, SubjectEntries);
  }

  /** Counting professor entries level by level agrees with counting the
      rows the tree unfolds into, for any tree. */
  lemma EntriesAreRows(tree: seq<SubjectGroup>)
    ensures ProfessorEntries(tree) == |Ungroup(tree)|
  {
    LeavesEntries(tree);
    SessionLevelEntries(tree);
    CourseLevelEntries(tree);
  }

  /** Conservation: the tree holds exactly one professor entry per row that
      entered the first `$group`, so the length of every section's
      professor list, summed over the tree, is the number of rows. */
  lemma TreeConservation(rows: seq<JoinRow>)
    ensures ProfessorEntries(AutocompleteTree(rows)) == |rows|
  {
    var tree := AutocompleteTree(rows);
    TreeRoundTrip(rows);
    EntriesAreRows(tree);
    assert |multiset(Ungroup(tree))| == |multiset(rows)|;
  }

  /** End to end: the number of professor entries in the response is the
      number of rows after the second `$unwind`. */
  lemma PipelineConservation(courses: seq<Course>, sections: seq<Section>, professors: seq<Professor>)
    ensures var srows := UnwindAll(LookupSections(courses, sections));
      ProfessorEntries(AutocompletePipeline(courses, sections, professors))
        == |UnwindAll(LookupProfessors(srows, professors))|
        == SumOf(LookupProfessors(srows, professors), UnwoundCount)
  {
    TreeConservation(JoinRows(courses, sections, professors));
    JoinRowsCount(courses, sections, professors);
  }

  // ---------------------------------------------------------------------
  // Distinct keys at every level of the tree
  // ---------------------------------------------------------------------

  /** No subject appears twice in the result, no (subject, course) twice,
      no (subject, course, session) twice and no full section key twice:
      each level of the tree is a set of distinct keys. */
  lemma TreeKeysDistinct(rows: seq<JoinRow>)
    ensures var tree := AutocompleteTree(rows);
      && DistinctBy(tree, SubjectPrefixOf)
      && DistinctBy(CourseLevel(tree), CourseBucketId)
      && DistinctBy(SessionLevel(tree), SessionBucketId)
      && DistinctBy(Leaves(tree), SectionBucketId)
  {
    var l1 := GroupSections(rows);
    var l2 := GroupSessions(l1);
    var l3 := GroupCourses(l2);
    var tree := AutocompleteTree(rows);
    ProjectSubjectsSpec(l3);
    TreeRoundTrip(rows);
    StageDistinct(l2, CourseKeyOf, CourseBucketOf, CourseBucketId);
    DistinctByPermutation(CourseLevel(tree), l3, CourseBucketId);
    StageDistinct(l1, SessionKeyOf, SessionBucketOf, SessionBucketId);
    DistinctByPermutation(SessionLevel(tree), l2, SessionBucketId);
    StageDistinct(rows, RowKey, SectionBucketOf, SectionBucketId);
    DistinctByPermutation(Leaves(tree), l1, SectionBucketId);
  }

  /** The leaves of the tree are the documents of the first `$group`. */
  lemma LeavesAreSectionBuckets(rows: seq<JoinRow>)
    ensures |Leaves(AutocompleteTree(rows))| == |GroupSections(rows)|
    ensures forall b :: b in Leaves(AutocompleteTree(rows)) <==> b in GroupSections(rows)
  {
    var leaves := Leaves(AutocompleteTree(rows));
    var l1 := GroupSections(rows);
    TreeRoundTrip(rows);
    assert |multiset(leaves)| == |multiset(l1)|;
    forall b ensures b in leaves <==> b in l1 {
      assert b in leaves <==> b in multiset(leaves);
      assert b in l1 <==> b in multiset(l1);
    }
  }

  /** What the first `$group` puts in each document, stated per document. */
  lemma SectionBucketFacts(rows: seq<JoinRow>)
    ensures forall b :: b in GroupSections(rows) ==>
      b.professor == Push(Members(rows, RowKey, b.id), RowProfessor) && |Members(rows, RowKey, b.id)| >= 1
    ensures forall i :: 0 <= i < |rows| ==> exists b :: b in GroupSections(rows) && b.id == RowKey(rows[i])
    ensures |GroupSections(rows)| == |KeySet(rows, RowKey)|
  {
    var gs := GroupBy(rows, RowKey);
    var l1 := GroupSections(rows);
    assert l1 == Push(gs, SectionBucketOf);
    forall b | b in l1 ensures b.professor == Push(Members(rows, RowKey, b.id), RowProfessor) && |Members(rows, RowKey, b.id)| >= 1 {
      var j :| 0 <= j < |l1| && l1[j] == b;
      SectionBucketAt(rows, j);
    }
    forall i | 0 <= i < |rows| ensures exists b :: b in l1 && b.id == RowKey(rows[i]) {
      var j := SectionBucketOfRow(rows, i);
      assert l1[j] in l1;
    }
    SectionBucketCount(rows);
  }

  lemma SectionBucketCount(rows: seq<JoinRow>)
    ensures |GroupSections(rows)| == |KeySet(rows, RowKey)|
  {
    GroupCount(rows, RowKey);
  }

  lemma SectionBucketAt(rows: seq<JoinRow>, j: nat)
    requires j < |GroupSections(rows)|
    ensures var b := GroupSections(rows)[j];
      b.professor == Push(Members(rows, RowKey, b.id), RowProfessor) && |Members(rows, RowKey, b.id)| >= 1
  {
    var gs := GroupBy(rows, RowKey);
    GroupByMembers(rows, RowKey);
    GroupByKeys(rows, RowKey);
    var b := GroupSections(rows)[j];
    assert b == SectionBucketOf(gs[j]);
    assert gs[j].key == FirstKeys(rows, RowKey)[j];
    var i :| 0 <= i < |rows| && RowKey(rows[i]) == gs[j].key;
    assert rows[i] in Members(rows, RowKey, b.id);
  }

  lemma SectionBucketOfRow(rows: seq<JoinRow>, i: nat) returns (j: nat)
    requires i < |rows|
    ensures j < |GroupSections(rows)| && GroupSections(rows)[j].id == RowKey(rows[i])
  {
    var gs := GroupBy(rows, RowKey);
    GroupByKeys(rows, RowKey);
    assert RowKey(rows[i]) in Keys(gs);
    j :| 0 <= j < |gs| && Keys(gs)[j] == RowKey(rows[i]);
    assert GroupSections(rows)[j] == SectionBucketOf(gs[j]);
  }

  /** Every leaf of the tree lists the professor of each row with its
      section key, in row order, duplicates kept, so it is never empty;
      every row's section key has a leaf; and there are exactly as many
      leaves as distinct section keys among the rows. */
  lemma LeafContents(rows: seq<JoinRow>)
    ensures var leaves := Leaves(AutocompleteTree(rows));
      && (forall b :: b in leaves ==> b.professor == Push(Members(rows, RowKey, b.id), RowProfessor))
      && (forall b :: b in leaves ==> |b.professor| == |Members(rows, RowKey, b.id)| >= 1)
      && (forall i :: 0 <= i < |rows| ==> exists b :: b in leaves && b.id == RowKey(rows[i]))
      && |leaves| == |KeySet(rows, RowKey)|
  {
    LeavesAreSectionBuckets(rows);
    SectionBucketFacts(rows);
  }

  // ---------------------------------------------------------------------
  // Empty input and end-to-end reachability
  // ---------------------------------------------------------------------

  /** The tree is empty exactly when there are no rows. */
  lemma TreeEmpty(rows: seq<JoinRow>)
    ensures AutocompleteTree(rows) == [] <==> rows == []
  {
    var l1 := GroupSections(rows);
    var l2 := GroupSessions(l1);
    var l3 := GroupCourses(l2);
    GroupByEmpty(rows, RowKey);
    GroupByEmpty(l1, SessionKeyOf);
    GroupByEmpty(l2, CourseKeyOf);
    GroupByEmpty(l3, SubjectOf);
  }

  /** An empty `courses` collection gives an empty result list, and a
      non-empty one never does. */
  lemma PipelineEmpty(courses: seq<Course>, sections: seq<Section>, professors: seq<Professor>)
    ensures AutocompletePipeline(courses, sections, professors) == [] <==> courses == []
  {
    JoinRowsCount(courses, sections, professors);
    TreeEmpty(JoinRows(courses, sections, professors));
  }

  /** Any row a tree unfolds into sits under a subject document and a
      course entry carrying its subject and course number. */
  lemma UngroupedRowPlace(tree: seq<SubjectGroup>, r: JoinRow) returns (t: SubjectGroup, c: CourseGroup)
    requires r in Ungroup(tree)
    ensures t in tree && c in t.courseNumbers
    ensures t.subjectPrefix == r.subjectPrefix && c.courseNumber == r.courseNumber
  {
    FlatMapMembers(Leaves(tree), SectionRows);
    var b :| b in Leaves(tree) && r in SectionRows(b);
    RowUnderKey(b, r);
    FlatMapMembers(SessionLevel(tree), SessionSections);
    var s :| s in SessionLevel(tree) && b in SessionSections(s);
    SectionUnderKey(s, b);
    FlatMapMembers(CourseLevel(tree), CourseSessions);
    var cb :| cb in CourseLevel(tree) && s in CourseSessions(cb);
    SessionUnderKey(cb, s);
    FlatMapMembers(tree, SubjectCourses);
    t :| t in tree && cb in SubjectCourses(t);
    c := CourseUnderKey(t, cb);
  }

  /** Every row's (subject, course) pair is a course entry of the tree,
      under that subject's document. */
  lemma RowsReachTree(rows: seq<JoinRow>, r: JoinRow)
    requires r in rows
    ensures exists t, c :: (t in AutocompleteTree(rows) && c in t.courseNumbers &&
      t.subjectPrefix == r.subjectPrefix && c.courseNumber == r.courseNumber)
  {
    var tree := AutocompleteTree(rows);
    TreeRoundTrip(rows);
    assert r in multiset(Ungroup(tree));
    var t, c := UngroupedRowPlace(tree, r);
  }

  lemma RowUnderKey(b: SectionBucket, r: JoinRow)
    requires r in SectionRows(b)
    ensures r.subjectPrefix == b.id.subjectPrefix && r.courseNumber == b.id.courseNumber
  {
    var k :| 0 <= k < |SectionRows(b)| && SectionRows(b)[k] == r;
  }

  lemma SectionUnderKey(s: SessionBucket, b: SectionBucket)
    requires b in SessionSections(s)
    ensures b.id.subjectPrefix == s.id.subjectPrefix && b.id.courseNumber == s.id.courseNumber
  {
    var k :| 0 <= k < |SessionSections(s)| && SessionSections(s)[k] == b;
  }

  lemma SessionUnderKey(cb: CourseBucket, s: SessionBucket)
    requires s in CourseSessions(cb)
    ensures s.id.subjectPrefix == cb.id.subjectPrefix && s.id.courseNumber == cb.id.courseNumber
  {
    var k :| 0 <= k < |CourseSessions(cb)| && CourseSessions(cb)[k] == s;
  }

  lemma CourseUnderKey(t: SubjectGroup, cb: CourseBucket) returns (c: CourseGroup)
    requires cb in SubjectCourses(t)
    ensures c in t.courseNumbers && t.subjectPrefix == cb.id.subjectPrefix && c.courseNumber == cb.id.courseNumber
  {
    var k :| 0 <= k < |SubjectCourses(t)| && SubjectCourses(t)[k] == cb;
    c := t.courseNumbers[k];
  }

  /** Null preservation end to end: every course of the collection appears
      in the response, under its subject, whether or not any section or
      professor matched it. */
  lemma EveryCourseListed(courses: seq<Course>, sections: seq<Section>, professors: seq<Professor>, i: nat)
    requires i < |courses|
    ensures exists t, c :: (t in AutocompletePipeline(courses, sections, professors) && c in t.courseNumbers &&
      t.subjectPrefix == courses[i].subjectPrefix && c.courseNumber == courses[i].courseNumber)
  {
    CoursesReachJoinRows(courses, sections, professors, i);
    var rows := JoinRows(courses, sections, professors);
    var r :| r in rows && r.subjectPrefix == courses[i].subjectPrefix && r.courseNumber == courses[i].courseNumber;
    RowsReachTree(rows, r);
  }
}
