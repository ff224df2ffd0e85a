/** The courses admin page: a list of courses searchable by title or
    language and filterable by language, with add, edit, toggle and a
    two-step delete. */
module Courses {

  import opened Options
  import opened Lists
  import opened Text

  datatype Course = Course(id: int, title: string, language: string, active: bool)

  /** The two fields the course form registers. */
  datatype CourseForm = CourseForm(title: string, language: string)

  /** The language selector's value meaning "no language filter". */
  const AllLanguages: string := "all"

  const InitialCourses: seq<Course> := [
    Course(1, "Introduction au Fang", "Fang", true),
    Course(2, "Grammaire Nzebi", "Nzebi", true),
    Course(3, "Expressions courantes en Teke", "Teke", true)
  ]

  /** The lower-cased search occurs in the lower-cased title or language. */
  predicate MatchesSearch(c: Course, search: string)
  {
    Includes(Lower(c.title), Lower(search)) || Includes(Lower(c.language), Lower(search))
  }

  /** The language filter compares exactly, without case folding. */
  predicate MatchesLanguage(c: Course, languageFilter: string)
  {
    languageFilter == AllLanguages || c.language == languageFilter
  }

  predicate Listed(c: Course, search: string, languageFilter: string)
  {
    MatchesSearch(c, search) && MatchesLanguage(c, languageFilter)
  }

  /** `filteredCourses`: the courses that match the search and the language
      filter, in their original order. */
  function FilteredCourses(cs: seq<Course>, search: string, languageFilter: string): (r: seq<Course>)
    ensures IsSubsequence(r, cs)
    ensures forall c :: c in r <==> c in cs && Listed(c, search, languageFilter)
  {
    var keep := (c: Course) => Listed(c, search, languageFilter);
    FilterIsSubsequence(cs, keep);
    FilterMembers(cs, keep);
    Filter(cs, keep)
  }

  /** An empty search with the "all" filter lists every course. */
  lemma EmptySearchListsAll(cs: seq<Course>)
    ensures FilteredCourses(cs, "", AllLanguages) == cs
  {
    forall c: Course ensures MatchesSearch(c, "") {
      EmptyIncluded(Lower(c.title));
    }
    FilterKeepsAll(cs, (c: Course) => Listed(c, "", AllLanguages));
  }

  /** `courses.map(course => course.language)`. */
  function LanguagesOf(cs: seq<Course>): (ls: seq<string>)
    ensures |ls| == |cs| && forall i :: 0 <= i < |cs| ==> ls[i] == cs[i].language
  {
    if cs == [] then [] else [cs[0].language] + LanguagesOf(cs[1..])
  }

  /** `languages`: the options of the language selector. */
  function Languages(cs: seq<Course>): seq<string>
  {
    Distinct(LanguagesOf(cs))
  }

  /** Each course language is offered exactly once, nothing else is, and the
      languages come in the order in which they first occur among the courses. */
  lemma LanguagesAreDistinctInFirstOccurrenceOrder(cs: seq<Course>)
    ensures NoDuplicates(Languages(cs))
    ensures forall i :: 0 <= i < |cs| ==> cs[i].language in Languages(cs)
    ensures forall l :: l in Languages(cs) ==> exists i :: 0 <= i < |cs| && cs[i].language == l
    ensures forall i, j :: 0 <= i < j < |Languages(cs)| ==>
      FirstIndex(LanguagesOf(cs), Languages(cs)[i]) < FirstIndex(LanguagesOf(cs), Languages(cs)[j])
  {
    var ls := LanguagesOf(cs);
    DistinctFirstOccurrenceOrder(ls);
    forall l | l in Languages(cs)
      ensures exists i :: 0 <= i < |cs| && cs[i].language == l
    {
      var k := FirstIndex(ls, l);
      assert cs[k].language == l;
    }
  }

  /** The submitted form passes the two `required` rules. */
  predicate FormValid(data: CourseForm)
  {
    data.title != "" && data.language != ""
  }

  /** `prev.map(c => c.id === editingCourse.id ? { ...c, ...data } : c)`.
      `reset(course)` loaded the whole edited course into the form, so the
      submitted values are its id and active flag with the typed title and
      language: a matching record takes all four, its id being the same. */
  function Edited(cs: seq<Course>, edited: Course, data: CourseForm): seq<Course>
  {
    MapWhere(cs, (c: Course) => c.id == edited.id,
      (c: Course) => c.(title := data.title, language := data.language, active := edited.active))
  }

  /** Editing overlays the submitted title and language and the edited
      course's active flag on the records with its id, and changes nothing
      else; the length is kept. */
  lemma EditedOverlaysOnlyMatching(cs: seq<Course>, edited: Course, data: CourseForm)
    ensures |Edited(cs, edited, data)| == |cs|
    ensures forall i :: 0 <= i < |cs| ==>
      Edited(cs, edited, data)[i] ==
        if cs[i].id == edited.id then Course(cs[i].id, data.title, data.language, edited.active) else cs[i]
  {
    MapWhereAt(cs, (c: Course) => c.id == edited.id,
      (c: Course) => c.(title := data.title, language := data.language, active := edited.active));
  }

  /** When the edited course is in the list and ids are unique, it is the
      only record the edit touches, so every active flag stays as it was and
      only that record's title and language change. */
  lemma EditKeepsActiveFlags(cs: seq<Course>, edited: Course, data: CourseForm)
    requires UniqueIds(cs) && edited in cs
    ensures forall i :: 0 <= i < |cs| ==>
      Edited(cs, edited, data)[i] ==
        if cs[i] == edited then edited.(title := data.title, language := data.language) else cs[i]
  {
    EditedOverlaysOnlyMatching(cs, edited, data);
    var j :| 0 <= j < |cs| && cs[j] == edited;
    forall i | 0 <= i < |cs| && cs[i].id == edited.id ensures i == j {
    }
  }

  /** `[...prev, { ...data, id: Date.now(), active: true }]`, the clock reading
      being `newId`. */
  function Added(cs: seq<Course>, data: CourseForm, newId: int): (r: seq<Course>)
    ensures |r| == |cs| + 1 && r[..|cs|] == cs
    ensures r[|cs|] == Course(newId, data.title, data.language, true)
  {
    cs + [Course(newId, data.title, data.language, true)]
  }

  /** `prev.map(c => c.id === id ? { ...c, active: !c.active } : c)`. */
  function Toggled(cs: seq<Course>, id: int): seq<Course>
  {
    MapWhere(cs, (c: Course) => c.id == id, (c: Course) => c.(active := !c.active))
  }

  /** Toggling flips `active` on the records with that id and changes nothing else. */
  lemma ToggledFlipsOnlyActive(cs: seq<Course>, id: int)
    ensures |Toggled(cs, id)| == |cs|
    ensures forall i :: 0 <= i < |cs| ==>
      Toggled(cs, id)[i] == if cs[i].id == id then cs[i].(active := !cs[i].active) else cs[i]
  {
    MapWhereAt(cs, (c: Course) => c.id == id, (c: Course) => c.(active := !c.active));
  }

  /** Toggling the same id twice restores the list. */
  lemma ToggleTwiceIsIdentity(cs: seq<Course>, id: int)
    ensures Toggled(Toggled(cs, id), id) == cs
  {
    MapWhereTwice(cs, (c: Course) => c.id == id, (c: Course) => c.(active := !c.active));
  }

  /** `prev.filter(c => c.id !== id)`. */
  function Removed(cs: seq<Course>, id: int): seq<Course>
  {
    Filter(cs, (c: Course) => c.id != id)
  }

  /** Deleting removes exactly the records with that id and keeps every
      other record, as often as it occurred and in its order. */
  lemma RemovedKeepsOthers(cs: seq<Course>, id: int)
    ensures IsSubsequence(Removed(cs, id), cs)
    ensures forall c :: c in Removed(cs, id) <==> c in cs && c.id != id
    ensures forall c: Course :: c.id != id ==> multiset(Removed(cs, id))[c] == multiset(cs)[c]
  {
    FilterIsSubsequence(cs, (c: Course) => c.id != id);
    FilterMembers(cs, (c: Course) => c.id != id);
    FilterCounts(cs, (c: Course) => c.id != id);
  }

  /** No two courses share an id. */
  predicate UniqueIds(cs: seq<Course>)
  {
    forall i, j :: 0 <= i < j < |cs| ==> cs[i].id != cs[j].id
  }

  predicate HasId(cs: seq<Course>, id: int)
  {
    exists i :: 0 <= i < |cs| && cs[i].id == id
  }

  /** Editing keeps ids unique: it never touches an id. */
  lemma EditKeepsUniqueIds(cs: seq<Course>, edited: Course, data: CourseForm)
    requires UniqueIds(cs)
    ensures UniqueIds(Edited(cs, edited, data))
  {
    EditedOverlaysOnlyMatching(cs, edited, data);
  }

  /** Toggling keeps ids unique. */
  lemma ToggleKeepsUniqueIds(cs: seq<Course>, id: int)
    requires UniqueIds(cs)
    ensures UniqueIds(Toggled(cs, id))
  {
    ToggledFlipsOnlyActive(cs, id);
  }

  /** Deleting keeps ids unique. */
  lemma RemoveKeepsUniqueIds(cs: seq<Course>, id: int)
    requires UniqueIds(cs)
    ensures UniqueIds(Removed(cs, id))
  {
    FilterIsSubsequence(cs, (c: Course) => c.id != id);
    SubsequenceKeepsUniqueIds(Removed(cs, id), cs);
  }

  /** Adding keeps ids unique when the clock reading is not already an id. */
  lemma AddKeepsUniqueIds(cs: seq<Course>, data: CourseForm, newId: int)
    requires UniqueIds(cs) && !HasId(cs, newId)
    ensures UniqueIds(Added(cs, data, newId))
  {
    var r := Added(cs, data, newId);
    forall i, j | 0 <= i < j < |r| ensures r[i].id != r[j].id {
      assert r[i] == cs[i];
      if j < |cs| {
        assert r[j] == cs[j];
      }
    }
  }

  lemma {:induction false} SubsequenceKeepsUniqueIds(a: seq<Course>, b: seq<Course>)
    requires IsSubsequence(a, b) && UniqueIds(b)
    ensures UniqueIds(a)
    decreases |b|
  {
    if a != [] {
      assert b != [];
      if a[0] == b[0] {
        SubsequenceKeepsUniqueIds(a[1..], b[1..]);
        SubsequenceMembers(a[1..], b[1..]);
        forall j | 0 < j < |a| ensures a[0].id != a[j].id {
          assert a[1..][j - 1] in b[1..];
          var k :| 0 <= k < |b[1..]| && b[1..][k] == a[j];
          assert b[k + 1] == a[j];
        }
      } else {
        assert UniqueIds(b[1..]) by {
          forall i, j | 0 <= i < j < |b[1..]| ensures b[1..][i].id != b[1..][j].id {
            assert b[1..][i] == b[i + 1] && b[1..][j] == b[j + 1];
          }
        }
        SubsequenceKeepsUniqueIds(a, b[1..]);
      }
    }
  }

  lemma {:induction false} SubsequenceMembers(a: seq<Course>, b: seq<Course>)
    requires IsSubsequence(a, b)
    ensures forall x :: x in a ==> x in b
    decreases |b|
  {
    if a != [] {
      if a[0] == b[0] {
        SubsequenceMembers(a[1..], b[1..]);
        assert a == [a[0]] + a[1..];
      } else {
        SubsequenceMembers(a, b[1..]);
      }
    }
  }

  /** The page's state. */
  class CoursesPage {
    var courses: seq<Course>
    var search: string
    var languageFilter: string
    var isOpen: bool
    var editingCourse: Option<Course>
    var showDeleteConfirm: Option<int>

    /** What the grid shows. */
    function Shown(): (r: seq<Course>)
      reads this
      ensures forall c :: c in r <==> c in courses && Listed(c, search, languageFilter)
    {
      FilteredCourses(courses, search, languageFilter)
    }

    constructor ()
      ensures courses == InitialCourses && search == "" && languageFilter == AllLanguages
      ensures !isOpen && editingCourse == None && showDeleteConfirm == None
    {
      courses := InitialCourses;
      search, languageFilter := "", AllLanguages;
      isOpen, editingCourse, showDeleteConfirm := false, None, None;
    }

    method SetSearch(text: string)
      modifies this
      ensures search == text
      ensures courses == old(courses) && languageFilter == old(languageFilter)
      ensures isOpen == old(isOpen) && editingCourse == old(editingCourse)
      ensures showDeleteConfirm == old(showDeleteConfirm)
    {
      search := text;
    }

    method SetLanguageFilter(language: string)
      modifies this
      ensures languageFilter == language
      ensures courses == old(courses) && search == old(search)
      ensures isOpen == old(isOpen) && editingCourse == old(editingCourse)
      ensures showDeleteConfirm == old(showDeleteConfirm)
    {
      languageFilter := language;
    }

    /** `openModal(course?)`: edit the given course, or add a new one. */
    method OpenModal(course: Option<Course>)
      modifies this
      ensures isOpen && editingCourse == course
      ensures courses == old(courses) && search == old(search) && languageFilter == old(languageFilter)
      ensures showDeleteConfirm == old(showDeleteConfirm)
    {
      editingCourse := course;
      isOpen := true;
    }

    method CloseModal()
      modifies this
      ensures !isOpen && editingCourse == None
      ensures courses == old(courses) && search == old(search) && languageFilter == old(languageFilter)
      ensures showDeleteConfirm == old(showDeleteConfirm)
    {
      isOpen := false;
      editingCourse := None;
    }

    /** `onSubmit`: overlay the form on the records with the edited id, or append a new
        active course whose id is the clock reading `newId`; then close. The
        form only submits when both required fields are filled. */
    method OnSubmit(data: CourseForm, newId: int)
      requires FormValid(data)
      modifies this
      ensures courses == match old(editingCourse)
        case Some(e) => Edited(old(courses), e, data)
        case None => Added(old(courses), data, newId)
      ensures !isOpen && editingCourse == None
      ensures search == old(search) && languageFilter == old(languageFilter)
      ensures showDeleteConfirm == old(showDeleteConfirm)
    {
      if editingCourse.Some? {
        courses := Edited(courses, editingCourse.value, data);
      } else {
        courses := Added(courses, data, newId);
      }
      CloseModal();
    }

    method ToggleActiveStatus(id: int)
      modifies this
      ensures courses == Toggled(old(courses), id)
      ensures search == old(search) && languageFilter == old(languageFilter)
      ensures isOpen == old(isOpen) && editingCourse == old(editingCourse)
      ensures showDeleteConfirm == old(showDeleteConfirm)
    {
      courses := Toggled(courses, id);
    }

    /** The trash button: ask for confirmation on course `id`. */
    method AskDelete(id: int)
      modifies this
      ensures showDeleteConfirm == Some(id)
      ensures courses == old(courses) && search == old(search) && languageFilter == old(languageFilter)
      ensures isOpen == old(isOpen) && editingCourse == old(editingCourse)
    {
      showDeleteConfirm := Some(id);
    }

    /** The "Non" button. */
    method CancelDelete()
      modifies this
      ensures showDeleteConfirm == None
      ensures courses == old(courses) && search == old(search) && languageFilter == old(languageFilter)
      ensures isOpen == old(isOpen) && editingCourse == old(editingCourse)
    {
      showDeleteConfirm := None;
    }

    /** `deleteCourse`, the "Oui" button. */
    method DeleteCourse(id: int)
      modifies this
      ensures courses == Removed(old(courses), id) && showDeleteConfirm == None
      ensures search == old(search) && languageFilter == old(languageFilter)
      ensures isOpen == old(isOpen) && editingCourse == old(editingCourse)
    {
      courses := Removed(courses, id);
      showDeleteConfirm := None;
    }
  }
}
