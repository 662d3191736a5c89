/** The "Disciplinas" page (src/pages/Disciplines.tsx): the derivation of the
    displayed accordion tree from the fetched terms and the global category
    list, and the page's search state. */
module Disciplines {
  import opened Catalog
  import opened Seqs
  import Decimal

  const NoTestsForTerm := "Nenhuma prova para esse período..."
  const NoTestsForDiscipline := "Nenhuma prova para essa disciplina..."

  /** One rendered test link: its id (sent by the view counter), its href and its text. */
  datatype TestLine = TestLine(testId: int, href: string, text: string)

  /** A category heading and the lines rendered below it. */
  datatype CategoryGroup = CategoryGroup(category: Category, lines: seq<TestLine>)

  datatype DisciplineBody =
    | DisciplinePlaceholder(text: string)
    | CategoryGroups(groups: seq<CategoryGroup>)

  datatype DisciplineNode = DisciplineNode(id: int, name: string, body: DisciplineBody)

  datatype TermBody =
    | TermPlaceholder(text: string)
    | DisciplineNodes(nodes: seq<DisciplineNode>)

  datatype TermNode = TermNode(id: int, number: int, body: TermBody)

  /** The `{ tests, teacherName }` records built by `TeachersDisciplines`. */
  datatype TestsWithTeacher = TestsWithTeacher(tests: seq<Test>, teacherName: string)

  // ---------------------------------------------------------------------------
  // Which categories are visible under a discipline

  /** Whether any test of the list is filed under the category with the given id,
      checked from the first test on. */
  function HasTestOfCategory(tests: seq<Test>, categoryId: int): (r: bool)
    ensures r <==> exists i :: 0 <= i < |tests| && tests[i].category.id == categoryId
  {
    if tests == [] then false
    else tests[0].category.id == categoryId || HasTestOfCategory(tests[1..], categoryId)
  }

  /** Some test of this assignment is filed under a category with the same id. */
  function TestOfThisCategory(td: TeacherDiscipline, category: Category): (r: bool)
    ensures r <==> exists i :: 0 <= i < |td.tests| && td.tests[i].category.id == category.id
  {
    HasTestOfCategory(td.tests, category.id)
  }

  /** How many assignments of the discipline have at least one test of the category. */
  function CountAssignmentsWithCategory(tds: seq<TeacherDiscipline>, category: Category): (n: nat)
    ensures n <= |tds|
    ensures n > 0 <==> exists j :: 0 <= j < |tds| && TestOfThisCategory(tds[j], category)
  {
    if tds == [] then 0
    else (if TestOfThisCategory(tds[0], category) then 1 else 0)
         + CountAssignmentsWithCategory(tds[1..], category)
  }

  /** A category is visible iff some test of some assignment carries its id. */
  function DoesCategoryHaveTests(tds: seq<TeacherDiscipline>, category: Category): (r: bool)
    ensures r <==> exists j, i :: 0 <= j < |tds| && 0 <= i < |tds[j].tests|
                                  && tds[j].tests[i].category.id == category.id
  {
    CountPositiveIffSomeTest(tds, category);
    CountAssignmentsWithCategory(tds, category) > 0
  }

  /** Some assignment has a test of the category exactly when some test of some
      assignment carries the category's id. */
  lemma CountPositiveIffSomeTest(tds: seq<TeacherDiscipline>, category: Category)
    ensures CountAssignmentsWithCategory(tds, category) > 0
        <==> exists j, i :: 0 <= j < |tds| && 0 <= i < |tds[j].tests|
                            && tds[j].tests[i].category.id == category.id
  {
    if CountAssignmentsWithCategory(tds, category) > 0 {
      var j :| 0 <= j < |tds| && TestOfThisCategory(tds[j], category);
      var i :| 0 <= i < |tds[j].tests| && tds[j].tests[i].category.id == category.id;
    } else {
      assert forall j :: 0 <= j < |tds| ==> !TestOfThisCategory(tds[j], category);
    }
  }

  /** The categories of the global list that have a test under the discipline:
      each occurrence is kept or dropped as a whole, in the global list's order. */
  function VisibleCategories(categories: seq<Category>, tds: seq<TeacherDiscipline>): (r: seq<Category>)
    ensures forall c :: c in r <==> c in categories && DoesCategoryHaveTests(tds, c)
    ensures forall c :: multiset(r)[c] == if DoesCategoryHaveTests(tds, c) then multiset(categories)[c] else 0
  {
    if categories == [] then []
    else
      MultisetOfCons(categories);
      if DoesCategoryHaveTests(tds, categories[0])
      then [categories[0]] + VisibleCategories(categories[1..], tds)
      else VisibleCategories(categories[1..], tds)
  }

  lemma {:induction false} VisibleCategoriesKeepOrder(categories: seq<Category>, tds: seq<TeacherDiscipline>)
    ensures IsSubsequence(VisibleCategories(categories, tds), categories)
  {
    if categories != [] {
      VisibleCategoriesKeepOrder(categories[1..], tds);
      var r := VisibleCategories(categories, tds);
      if DoesCategoryHaveTests(tds, categories[0]) {
        assert r[0] == categories[0] && r[1..] == VisibleCategories(categories[1..], tds);
      }
    }
  }

  /** The ids of the visible categories are the ids of the global list that
      some test of the discipline refers to. */
  lemma VisibleCategoryIds(categories: seq<Category>, tds: seq<TeacherDiscipline>)
    ensures (set c | c in VisibleCategories(categories, tds) :: c.id)
         == (set c | c in categories :: c.id) * TestCategoryIds(tds)
  {
    var r := VisibleCategories(categories, tds);
    forall c | c in categories && c.id in TestCategoryIds(tds)
      ensures c.id in (set x | x in r :: x.id)
    {
      var j, i :| 0 <= j < |tds| && 0 <= i < |tds[j].tests| && tds[j].tests[i].category.id == c.id;
      assert DoesCategoryHaveTests(tds, c);
      assert c in r;
    }
  }

  /** Ids of the categories that the tests of the assignments refer to. */
  ghost function TestCategoryIds(tds: seq<TeacherDiscipline>): set<int>
  {
    set j, i | 0 <= j < |tds| && 0 <= i < |tds[j].tests| :: tds[j].tests[i].category.id
  }

  // ---------------------------------------------------------------------------
  // The lines listed under a visible category

  /** The text of a test link: the test's name, the teacher's name in
      parentheses, then the view count in parentheses followed by " views". */
  function LineText(test: Test, teacherName: string): (r: string)
    ensures var count := Decimal.IntToString(test.view);
            var teacherAt := |test.name| + 2;
            var countAt := teacherAt + |teacherName| + 3;
            && |r| == countAt + |count| + 7
            && r[..|test.name|] == test.name
            && r[|test.name|..teacherAt] == " ("
            && r[teacherAt..teacherAt + |teacherName|] == teacherName
            && r[teacherAt + |teacherName|..countAt] == ") ("
            && r[countAt..countAt + |count|] == count
            && r[countAt + |count|..] == " views)"
  {
    test.name + " (" + teacherName + ") (" + Decimal.IntToString(test.view) + " views)"
  }

  /** The link rendered for a test: its id, its PDF address and its text. */
  function Line(test: Test, teacherName: string): TestLine
  {
    TestLine(test.id, test.pdfUrl, LineText(test, teacherName))
  }

  /** Two lines for the same test name and teacher show the same count only
      if the counts agree: the view count can be read back from the text. */
  lemma LineTextDeterminesView(t1: Test, t2: Test, teacherName: string)
    requires t1.name == t2.name
    requires LineText(t1, teacherName) == LineText(t2, teacherName)
    ensures t1.view == t2.view
  {
    var prefix := t1.name + " (" + teacherName + ") (";
    var s1, s2 := Decimal.IntToString(t1.view), Decimal.IntToString(t2.view);
    assert LineText(t1, teacherName) == prefix + s1 + " views)";
    assert LineText(t2, teacherName) == prefix + s2 + " views)";
    assert |s1| == |s2|;
    assert s1 == (prefix + s1 + " views)")[|prefix|..|prefix| + |s1|];
    assert s2 == (prefix + s2 + " views)")[|prefix|..|prefix| + |s2|];
    Decimal.IntToStringInjective(t1.view, t2.view);
  }

  /** Pairs each assignment's tests with its teacher's name, one record per assignment, in order. */
  function TeachersDisciplines(tds: seq<TeacherDiscipline>): (r: seq<TestsWithTeacher>)
    ensures |r| == |tds|
    ensures forall j :: 0 <= j < |tds| ==> r[j].tests == tds[j].tests && r[j].teacherName == tds[j].teacher.name
  {
    seq(|tds|, j requires 0 <= j < |tds| => TestsWithTeacher(tds[j].tests, tds[j].teacher.name))
  }

  /** The lines of one `{ tests, teacherName }` record, in test order. */
  function LinesOf(twt: TestsWithTeacher): (r: seq<TestLine>)
    ensures |r| == |twt.tests|
    ensures forall i :: 0 <= i < |r| ==> r[i] == Line(twt.tests[i], twt.teacherName)
  {
    seq(|twt.tests|, i requires 0 <= i < |twt.tests| => Line(twt.tests[i], twt.teacherName))
  }

  /** One line group per record, in record order. */
  function LineGroups(twts: seq<TestsWithTeacher>): (r: seq<seq<TestLine>>)
    ensures |r| == |twts|
    ensures forall j :: 0 <= j < |r| ==> r[j] == LinesOf(twts[j])
  {
    seq(|twts|, j requires 0 <= j < |twts| => LinesOf(twts[j]))
  }

  /** Flattening the line groups gives exactly the line of each test of each
      record, labelled with that record's teacher name. */
  lemma LineGroupsMember(twts: seq<TestsWithTeacher>)
    ensures forall l :: l in Flatten(LineGroups(twts))
              <==> exists j, i :: 0 <= j < |twts| && 0 <= i < |twts[j].tests|
                                  && l == Line(twts[j].tests[i], twts[j].teacherName)
  {
    var gs := LineGroups(twts);
    forall l
      ensures l in Flatten(gs)
          <==> exists j, i :: 0 <= j < |twts| && 0 <= i < |twts[j].tests|
                              && l == Line(twts[j].tests[i], twts[j].teacherName)
    {
      FlattenMember(gs, l);
      if l in Flatten(gs) {
        var j, i :| 0 <= j < |gs| && 0 <= i < |gs[j]| && gs[j][i] == l;
        assert l == Line(twts[j].tests[i], twts[j].teacherName);
      }
      if exists j, i :: 0 <= j < |twts| && 0 <= i < |twts[j].tests| && l == Line(twts[j].tests[i], twts[j].teacherName) {
        var j, i :| 0 <= j < |twts| && 0 <= i < |twts[j].tests| && l == Line(twts[j].tests[i], twts[j].teacherName);
        assert gs[j][i] == l;
      }
    }
  }

  /** The `Tests` component: the line groups rendered one after another, so
      one line per test, records in order and tests in order within a record.
      A line is listed iff it is the line of some test of some record. */
  function Tests(twts: seq<TestsWithTeacher>): (r: seq<TestLine>)
    ensures forall l :: l in r
              <==> exists j, i :: 0 <= j < |twts| && 0 <= i < |twts[j].tests|
                                  && l == Line(twts[j].tests[i], twts[j].teacherName)
  {
    LineGroupsMember(twts);
    Flatten(LineGroups(twts))
  }

  /** The lines rendered under every visible category of a discipline: every
      line comes from some test of some assignment, labelled with that
      assignment's teacher, and every test gives a line (no filtering by category). */
  function DisciplineLines(tds: seq<TeacherDiscipline>): (r: seq<TestLine>)
    ensures forall l :: l in r
              <==> exists j, i :: 0 <= j < |tds| && 0 <= i < |tds[j].tests|
                                  && l == Line(tds[j].tests[i], tds[j].teacher.name)
  {
    Tests(TeachersDisciplines(tds))
  }

  /** Number of tests over all assignments. */
  function TestCount(tds: seq<TeacherDiscipline>): nat
  {
    if tds == [] then 0 else |tds[0].tests| + TestCount(tds[1..])
  }

  lemma {:induction false} DisciplineLinesUnfold(tds: seq<TeacherDiscipline>)
    requires tds != []
    ensures DisciplineLines(tds)
         == LinesOf(TestsWithTeacher(tds[0].tests, tds[0].teacher.name)) + DisciplineLines(tds[1..])
  {
    var gs := LineGroups(TeachersDisciplines(tds));
    assert gs[1..] == LineGroups(TeachersDisciplines(tds[1..]));
  }

  /** No line is dropped: there are as many lines as tests in the discipline. */
  lemma {:induction false} DisciplineLinesCount(tds: seq<TeacherDiscipline>)
    ensures |DisciplineLines(tds)| == TestCount(tds)
  {
    if tds != [] {
      DisciplineLinesUnfold(tds);
      DisciplineLinesCount(tds[1..]);
    }
  }

  /** Assignment order, then test order: the lines of the assignments before
      `j`, then those of assignment `j`, then those after it. */
  lemma DisciplineLinesSplit(tds: seq<TeacherDiscipline>, j: nat)
    requires j < |tds|
    ensures DisciplineLines(tds)
         == DisciplineLines(tds[..j])
          + LinesOf(TestsWithTeacher(tds[j].tests, tds[j].teacher.name))
          + DisciplineLines(tds[j + 1..])
  {
    var gs := LineGroups(TeachersDisciplines(tds));
    assert gs == LineGroups(TeachersDisciplines(tds[..j])) + [gs[j]] + LineGroups(TeachersDisciplines(tds[j + 1..]));
    FlattenAppend(LineGroups(TeachersDisciplines(tds[..j])) + [gs[j]], LineGroups(TeachersDisciplines(tds[j + 1..])));
    FlattenAppend(LineGroups(TeachersDisciplines(tds[..j])), [gs[j]]);
    assert Flatten([gs[j]]) == gs[j] + Flatten([]);
  }

  // ---------------------------------------------------------------------------
  // The accordion tree

  /** The `Categories` component for one discipline. */
  function Categories(categories: seq<Category>, tds: seq<TeacherDiscipline>): (r: DisciplineBody)
    ensures r.DisciplinePlaceholder? <==> tds == []
    ensures r.DisciplinePlaceholder? ==> r.text == NoTestsForDiscipline
    ensures r.CategoryGroups? ==>
              |r.groups| == |VisibleCategories(categories, tds)|
              && forall k :: 0 <= k < |r.groups| ==>
                   r.groups[k].category == VisibleCategories(categories, tds)[k]
                   && r.groups[k].lines == DisciplineLines(tds)
  {
    if tds == [] then DisciplinePlaceholder(NoTestsForDiscipline)
    else CategoryGroups(GroupsOf(VisibleCategories(categories, tds), DisciplineLines(tds)))
  }

  /** One group per visible category, in order, each listing the same lines. */
  function GroupsOf(visible: seq<Category>, lines: seq<TestLine>): (r: seq<CategoryGroup>)
    ensures |r| == |visible|
    ensures forall k :: 0 <= k < |r| ==> r[k].category == visible[k] && r[k].lines == lines
  {
    seq(|visible|, k requires 0 <= k < |visible| => CategoryGroup(visible[k], lines))
  }

  /** A discipline that has assignments but no test at all gets neither the
      placeholder nor any category group. */
  lemma AssignmentsWithoutTestsShowNothing(categories: seq<Category>, tds: seq<TeacherDiscipline>)
    requires tds != []
    requires forall j :: 0 <= j < |tds| ==> tds[j].tests == []
    ensures Categories(categories, tds) == CategoryGroups([])
  {
    var visible := VisibleCategories(categories, tds);
    if visible != [] {
      assert false;
    }
  }

  /** The `DisciplinesAccordions` component for one term. */
  function DisciplinesAccordions(categories: seq<Category>, disciplines: seq<Discipline>): (r: TermBody)
    ensures r.TermPlaceholder? <==> disciplines == []
    ensures r.TermPlaceholder? ==> r.text == NoTestsForTerm
    ensures r.DisciplineNodes? ==>
              |r.nodes| == |disciplines|
              && forall k :: 0 <= k < |disciplines| ==>
                   r.nodes[k] == DisciplineNode(disciplines[k].id, disciplines[k].name,
                                                Categories(categories, disciplines[k].teacherDisciplines))
  {
    if disciplines == [] then TermPlaceholder(NoTestsForTerm)
    else DisciplineNodes(seq(|disciplines|, k requires 0 <= k < |disciplines| =>
           DisciplineNode(disciplines[k].id, disciplines[k].name,
                          Categories(categories, disciplines[k].teacherDisciplines))))
  }

  /** The `TermsAccordions` component: one node per term, in server order. */
  function TermsAccordions(categories: seq<Category>, terms: seq<Term>): (r: seq<TermNode>)
    ensures |r| == |terms|
    ensures forall k :: 0 <= k < |terms| ==>
              r[k] == TermNode(terms[k].id, terms[k].number, DisciplinesAccordions(categories, terms[k].disciplines))
  {
    seq(|terms|, k requires 0 <= k < |terms| =>
      TermNode(terms[k].id, terms[k].number, DisciplinesAccordions(categories, terms[k].disciplines)))
  }

  /** Anywhere in the tree, a category group is shown under a discipline iff
      the discipline has assignments, the category is in the global list and
      some test of the discipline carries the category's id. */
  lemma ViewCategoryGroup(categories: seq<Category>, terms: seq<Term>, k: nat, d: nat, c: Category)
    requires k < |terms| && d < |terms[k].disciplines|
    ensures var tds := terms[k].disciplines[d].teacherDisciplines;
            var body := TermsAccordions(categories, terms)[k].body.nodes[d].body;
            (body.CategoryGroups? && exists g :: 0 <= g < |body.groups| && body.groups[g].category == c)
            <==> (tds != [] && c in categories
                  && exists j, i :: 0 <= j < |tds| && 0 <= i < |tds[j].tests| && tds[j].tests[i].category.id == c.id)
  {
    var tds := terms[k].disciplines[d].teacherDisciplines;
    var visible := VisibleCategories(categories, tds);
    var body := TermsAccordions(categories, terms)[k].body.nodes[d].body;
    assert body == Categories(categories, tds);
    if tds != [] && c in visible {
      var g :| 0 <= g < |visible| && visible[g] == c;
      assert body.groups[g].category == c;
    }
  }

  /** Anywhere in the tree, every line under a category group is the line of
      some test of that discipline, labelled with its assignment's teacher. */
  lemma ViewLineOrigin(categories: seq<Category>, terms: seq<Term>, k: nat, d: nat, g: nat, l: TestLine)
    requires k < |terms| && d < |terms[k].disciplines|
    requires var body := TermsAccordions(categories, terms)[k].body.nodes[d].body;
             body.CategoryGroups? && g < |body.groups| && l in body.groups[g].lines
    ensures var tds := terms[k].disciplines[d].teacherDisciplines;
            exists j, i :: 0 <= j < |tds| && 0 <= i < |tds[j].tests| && l == Line(tds[j].tests[i], tds[j].teacher.name)
  {
    var tds := terms[k].disciplines[d].teacherDisciplines;
    assert TermsAccordions(categories, terms)[k].body.nodes[d].body == Categories(categories, tds);
  }

  /** The single line of the example below. */
  lemma OneTestLines(p1: Test, tds: seq<TeacherDiscipline>)
    requires p1 == Test(5, "P1", 3, "p1.pdf", Category(2, "Midterm"))
    requires tds == [TeacherDiscipline(1, Teacher(1, "Dr. A"), [p1])]
    ensures DisciplineLines(tds) == [TestLine(5, "p1.pdf", "P1 (Dr. A) (3 views)")]
  {
    assert Decimal.IntToString(3) == "3";
    assert LineText(p1, "Dr. A") == "P1 (Dr. A) (3 views)";
    DisciplineLinesUnfold(tds);
    assert DisciplineLines(tds[1..]) == [];
    assert LinesOf(TestsWithTeacher(tds[0].tests, tds[0].teacher.name)) == [Line(p1, "Dr. A")];
  }

  /** The example of one term, one discipline, one assignment and one test. */
  lemma OneTestExample()
    ensures var midterm := Category(2, "Midterm");
            var p1 := Test(5, "P1", 3, "p1.pdf", midterm);
            var algebra := Discipline(1, "Algebra", [TeacherDiscipline(1, Teacher(1, "Dr. A"), [p1])]);
            TermsAccordions([midterm], [Term(1, 1, [algebra])])
            == [TermNode(1, 1, DisciplineNodes([DisciplineNode(1, "Algebra", CategoryGroups(
                 [CategoryGroup(midterm, [TestLine(5, "p1.pdf", "P1 (Dr. A) (3 views)")])]))]))]
  {
    var midterm := Category(2, "Midterm");
    var p1 := Test(5, "P1", 3, "p1.pdf", midterm);
    var tds := [TeacherDiscipline(1, Teacher(1, "Dr. A"), [p1])];
    OneTestLines(p1, tds);
    assert VisibleCategories([midterm], tds) == [midterm] by {
      assert tds[0].tests[0].category.id == midterm.id;
    }
    var group := CategoryGroup(midterm, [TestLine(5, "p1.pdf", "P1 (Dr. A) (3 views)")]);
    assert Categories([midterm], tds) == CategoryGroups([group]);
    var algebra := Discipline(1, "Algebra", tds);
    assert DisciplinesAccordions([midterm], [algebra])
        == DisciplineNodes([DisciplineNode(1, "Algebra", CategoryGroups([group]))]);
  }

  /** The lines under a category are not restricted to that category: with two
      categories that both have a test, each group lists both tests. */
  lemma LinesNotGroupedByCategoryExample()
    ensures var c1, c2 := Category(1, "P1"), Category(2, "P2");
            var t1, t2 := Test(10, "a", 0, "a.pdf", c1), Test(11, "b", 0, "b.pdf", c2);
            var tds := [TeacherDiscipline(1, Teacher(1, "T"), [t1, t2])];
            var body := Categories([c1, c2], tds);
            body.CategoryGroups? && |body.groups| == 2
            && body.groups[0].category == c1 && Line(t2, "T") in body.groups[0].lines
  {
    var c1, c2 := Category(1, "P1"), Category(2, "P2");
    var t1, t2 := Test(10, "a", 0, "a.pdf", c1), Test(11, "b", 0, "b.pdf", c2);
    var tds := [TeacherDiscipline(1, Teacher(1, "T"), [t1, t2])];
    assert tds[0].tests[0].category.id == c1.id;
    assert tds[0].tests[1].category.id == c2.id;
    assert VisibleCategories([c1, c2], tds) == [c1, c2];
    assert Line(tds[0].tests[1], tds[0].teacher.name) == Line(t2, "T");
  }

  // ---------------------------------------------------------------------------
  // Page state: the fetched lists, the search box and the alert slot

  class DisciplinesPage {
    var terms: seq<Term>
    var categories: seq<Category>
    var search: string
    var message: Option<Alert>

    /** The page as it mounts; `alert` is what the shared alert slot holds at that moment. */
    constructor (alert: Option<Alert>)
      ensures terms == [] && categories == [] && search == "" && message == alert
    {
      terms := [];
      categories := [];
      search := "";
      message := alert;
    }

    /** What the page renders below the buttons. */
    function View(): (r: seq<TermNode>)
      reads this
      ensures |r| == |terms|
      ensures forall k :: 0 <= k < |terms| ==>
                r[k].id == terms[k].id && r[k].number == terms[k].number
                && r[k].body == DisciplinesAccordions(categories, terms[k].disciplines)
    {
      TermsAccordions(categories, terms)
    }

    /** The results of the initial load: the catalog, then the category list. */
    method Load(fetchedTerms: seq<Term>, fetchedCategories: seq<Category>)
      modifies this
      ensures terms == fetchedTerms && categories == fetchedCategories
      ensures search == old(search) && message == old(message)
    {
      terms := fetchedTerms;
      categories := fetchedCategories;
    }

    /** Typing in the search box. */
    method HandleInputChange(value: string)
      modifies this
      ensures search == value
      ensures terms == old(terms) && categories == old(categories) && message == old(message)
    {
      search := value;
    }

    /** Submitting the search: the message is cleared, the query sent is the
        current search text, and `response` is what the server answered.
        Only a success touches the catalog; a failure keeps what is shown. */
    method HandleSubmit(response: Response<seq<Term>>) returns (query: string)
      modifies this
      ensures query == search
      ensures search == old(search) && categories == old(categories)
      ensures response.Ok? ==> terms == response.data && message == None
      ensures response.Ok? ==> View() == TermsAccordions(categories, response.data)
      ensures response.ErrorWithResponse? ==>
                terms == old(terms) && message == Some(ErrorAlert(response.responseData))
      ensures response.ErrorWithoutResponse? ==> terms == old(terms) && message == None
      ensures !response.Ok? ==> View() == old(View())
    {
      message := None;
      query := search;
      match response {
        case Ok(data) =>
          terms := data;
        case ErrorWithResponse(data) =>
          message := Some(ErrorAlert(data));
        case ErrorWithoutResponse =>
      }
    }
  }
}
