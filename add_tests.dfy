/** The "Adicionar" page (src/pages/AddTests.tsx): the five-field form, its
    validation and submission outcome, and the option lists of its selects. */
module AddTests {
  import opened Catalog
  import opened Seqs

  const RequiredFieldsMessage := "Todos os campos são obrigatórios!"
  const GenericErrorMessage := "Erro, tente novamente em alguns segundos!"
  const DisciplinesRoute := "/app/disciplinas"

  /** The `name` attributes of the form's five inputs. */
  datatype Field = TestTitleField | PdfTestField | CategoryField | DisciplineField | TeacherField

  /** The form record; it is also the body sent to `addTest` (`TestData` has the same fields). */
  datatype FormData = FormData(testTitle: string, pdfTest: string, category: string,
                               discipline: string, teacher: string)

  const EmptyForm := FormData("", "", "", "", "")

  function Get(form: FormData, f: Field): string
  {
    match f
    case TestTitleField => form.testTitle
    case PdfTestField => form.pdfTest
    case CategoryField => form.category
    case DisciplineField => form.discipline
    case TeacherField => form.teacher
  }

  /** The form with the named field replaced by the value and the other four kept. */
  function WithField(form: FormData, f: Field, value: string): (r: FormData)
    ensures Get(r, f) == value
    ensures forall g :: g != f ==> Get(r, g) == Get(form, g)
  {
    match f
    case TestTitleField => form.(testTitle := value)
    case PdfTestField => form.(pdfTest := value)
    case CategoryField => form.(category := value)
    case DisciplineField => form.(discipline := value)
    case TeacherField => form.(teacher := value)
  }

  /** The form is rejected exactly when some field is the empty string (a
      string is falsy only when empty, so blanks pass). */
  function ValidationError(form: FormData): (r: Option<string>)
    ensures r.Some? <==> exists f :: Get(form, f) == ""
    ensures r.Some? ==> r.value == RequiredFieldsMessage
  {
    if Get(form, TestTitleField) == "" || Get(form, PdfTestField) == "" || Get(form, CategoryField) == ""
       || Get(form, DisciplineField) == "" || Get(form, TeacherField) == ""
    then Some(RequiredFieldsMessage)
    else None
  }

  /** The message shown when `addTest` rejects: the server's response data if
      there is a response, the generic retry message otherwise. */
  function FailureMessage(response: Response<()>): (text: string)
    requires !response.Ok?
    ensures response.ErrorWithResponse? ==> text == response.responseData
    ensures response.ErrorWithoutResponse? ==> text == GenericErrorMessage
  {
    if response.ErrorWithResponse? then response.responseData else GenericErrorMessage
  }

  /** Filling the five fields one after another, starting from the empty form,
      yields exactly the values typed, and such a form passes validation when
      every value is non-empty (whitespace included). */
  lemma FillingEveryField(title: string, pdf: string, category: string, discipline: string, teacher: string)
    requires title != "" && pdf != "" && category != "" && discipline != "" && teacher != ""
    ensures var form := WithField(WithField(WithField(WithField(WithField(EmptyForm,
                          TestTitleField, title), PdfTestField, pdf), CategoryField, category),
                          DisciplineField, discipline), TeacherField, teacher);
            form == FormData(title, pdf, category, discipline, teacher) && ValidationError(form) == None
  {
  }

  /** A blank but non-empty title is accepted; the empty form is not. */
  lemma BlankIsNotEmpty()
    ensures ValidationError(FormData(" ", "x", "x", "x", "x")) == None
    ensures ValidationError(EmptyForm) == Some(RequiredFieldsMessage)
  {
    assert Get(EmptyForm, TestTitleField) == "";
  }

  // ---------------------------------------------------------------------------
  // The option lists of the three selects

  /** The category select's options: each category's name, in list order. */
  function CategoryOptions(categories: seq<Category>): (r: seq<string>)
    ensures |r| == |categories|
    ensures forall k :: 0 <= k < |categories| ==> r[k] == categories[k].name
  {
    seq(|categories|, k requires 0 <= k < |categories| => categories[k].name)
  }

  function DisciplineNames(disciplines: seq<Discipline>): seq<string>
  {
    seq(|disciplines|, d requires 0 <= d < |disciplines| => disciplines[d].name)
  }

  /** One group of discipline names per term, in term order. */
  function DisciplineNameGroups(terms: seq<Term>): seq<seq<string>>
  {
    seq(|terms|, t requires 0 <= t < |terms| => DisciplineNames(terms[t].disciplines))
  }

  /** A name is in the flattened groups iff some discipline of some term has it. */
  lemma DisciplineNameGroupsMember(terms: seq<Term>)
    ensures forall name :: name in Flatten(DisciplineNameGroups(terms))
              <==> exists t, d :: 0 <= t < |terms| && 0 <= d < |terms[t].disciplines|
                                  && terms[t].disciplines[d].name == name
  {
    var ss := DisciplineNameGroups(terms);
    forall name
      ensures name in Flatten(ss)
          <==> exists t, d :: 0 <= t < |terms| && 0 <= d < |terms[t].disciplines|
                              && terms[t].disciplines[d].name == name
    {
      FlattenMember(ss, name);
      if name in Flatten(ss) {
        var t, d :| 0 <= t < |ss| && 0 <= d < |ss[t]| && ss[t][d] == name;
        assert terms[t].disciplines[d].name == name;
      }
      if exists t, d :: 0 <= t < |terms| && 0 <= d < |terms[t].disciplines| && terms[t].disciplines[d].name == name {
        var t, d :| 0 <= t < |terms| && 0 <= d < |terms[t].disciplines| && terms[t].disciplines[d].name == name;
        assert ss[t][d] == name;
      }
    }
  }

  /** The discipline select's options: the names of every term's disciplines,
      terms in order and each term's disciplines in order. A name is offered
      iff it is the name of a discipline of some term. */
  function DisciplineOptions(terms: seq<Term>): (r: seq<string>)
    ensures forall name :: name in r
              <==> exists t, d :: 0 <= t < |terms| && 0 <= d < |terms[t].disciplines|
                                  && terms[t].disciplines[d].name == name
  {
    DisciplineNameGroupsMember(terms);
    Flatten(DisciplineNameGroups(terms))
  }

  function TeacherNames(tds: seq<TeacherDiscipline>): seq<string>
  {
    seq(|tds|, a requires 0 <= a < |tds| => tds[a].teacher.name)
  }

  /** One group of teacher names per discipline, in discipline order. */
  function TeacherNameGroups(disciplines: seq<Discipline>): seq<seq<string>>
  {
    seq(|disciplines|, d requires 0 <= d < |disciplines| => TeacherNames(disciplines[d].teacherDisciplines))
  }

  /** A name is in the flattened groups iff some assignment of some discipline has a teacher of that name. */
  lemma TeacherNameGroupsMember(disciplines: seq<Discipline>)
    ensures forall name :: name in Flatten(TeacherNameGroups(disciplines))
              <==> exists d, a :: 0 <= d < |disciplines| && 0 <= a < |disciplines[d].teacherDisciplines|
                                  && disciplines[d].teacherDisciplines[a].teacher.name == name
  {
    var ss := TeacherNameGroups(disciplines);
    forall name
      ensures name in Flatten(ss)
          <==> exists d, a :: 0 <= d < |disciplines| && 0 <= a < |disciplines[d].teacherDisciplines|
                              && disciplines[d].teacherDisciplines[a].teacher.name == name
    {
      FlattenMember(ss, name);
      if name in Flatten(ss) {
        var d, a :| 0 <= d < |ss| && 0 <= a < |ss[d]| && ss[d][a] == name;
        assert disciplines[d].teacherDisciplines[a].teacher.name == name;
      }
      if exists d, a :: 0 <= d < |disciplines| && 0 <= a < |disciplines[d].teacherDisciplines|
                        && disciplines[d].teacherDisciplines[a].teacher.name == name {
        var d, a :| 0 <= d < |disciplines| && 0 <= a < |disciplines[d].teacherDisciplines|
                    && disciplines[d].teacherDisciplines[a].teacher.name == name;
        assert ss[d][a] == name;
      }
    }
  }

  /** The teacher names of one term, discipline by discipline. */
  function TermTeacherNames(disciplines: seq<Discipline>): (r: seq<string>)
    ensures forall name :: name in r
              <==> exists d, a :: 0 <= d < |disciplines| && 0 <= a < |disciplines[d].teacherDisciplines|
                                  && disciplines[d].teacherDisciplines[a].teacher.name == name
  {
    TeacherNameGroupsMember(disciplines);
    Flatten(TeacherNameGroups(disciplines))
  }

  /** One group of teacher names per term, in term order. */
  function TermTeacherNameGroups(terms: seq<Term>): seq<seq<string>>
  {
    seq(|terms|, t requires 0 <= t < |terms| => TermTeacherNames(terms[t].disciplines))
  }

  /** A name is in the flattened groups iff some assignment of some discipline of some term has it. */
  lemma TermTeacherNameGroupsMember(terms: seq<Term>)
    ensures forall name :: name in Flatten(TermTeacherNameGroups(terms))
              <==> exists t, d, a :: 0 <= t < |terms| && 0 <= d < |terms[t].disciplines|
                                     && 0 <= a < |terms[t].disciplines[d].teacherDisciplines|
                                     && terms[t].disciplines[d].teacherDisciplines[a].teacher.name == name
  {
    var ss := TermTeacherNameGroups(terms);
    forall name
      ensures name in Flatten(ss)
          <==> exists t, d, a :: 0 <= t < |terms| && 0 <= d < |terms[t].disciplines|
                                 && 0 <= a < |terms[t].disciplines[d].teacherDisciplines|
                                 && terms[t].disciplines[d].teacherDisciplines[a].teacher.name == name
    {
      FlattenMember(ss, name);
      if name in Flatten(ss) {
        var t, k :| 0 <= t < |ss| && 0 <= k < |ss[t]| && ss[t][k] == name;
        assert name in TermTeacherNames(terms[t].disciplines);
        var d, a :| 0 <= d < |terms[t].disciplines| && 0 <= a < |terms[t].disciplines[d].teacherDisciplines|
                    && terms[t].disciplines[d].teacherDisciplines[a].teacher.name == name;
      }
      if exists t, d, a :: 0 <= t < |terms| && 0 <= d < |terms[t].disciplines|
                           && 0 <= a < |terms[t].disciplines[d].teacherDisciplines|
                           && terms[t].disciplines[d].teacherDisciplines[a].teacher.name == name {
        var t, d, a :| 0 <= t < |terms| && 0 <= d < |terms[t].disciplines|
                       && 0 <= a < |terms[t].disciplines[d].teacherDisciplines|
                       && terms[t].disciplines[d].teacherDisciplines[a].teacher.name == name;
        assert name in ss[t];
      }
    }
  }

  /** The teacher select's options: one teacher name per assignment, over every
      discipline of every term, in that order and with repetitions kept. A name
      is offered iff some assignment of some discipline of some term has a
      teacher of that name. */
  function TeacherOptions(terms: seq<Term>): (r: seq<string>)
    ensures forall name :: name in r
              <==> exists t, d, a :: 0 <= t < |terms| && 0 <= d < |terms[t].disciplines|
                                     && 0 <= a < |terms[t].disciplines[d].teacherDisciplines|
                                     && terms[t].disciplines[d].teacherDisciplines[a].teacher.name == name
  {
    TermTeacherNameGroupsMember(terms);
    Flatten(TermTeacherNameGroups(terms))
  }

  function DisciplineCount(terms: seq<Term>): nat
  {
    if terms == [] then 0 else |terms[0].disciplines| + DisciplineCount(terms[1..])
  }

  function AssignmentCountOf(disciplines: seq<Discipline>): nat
  {
    if disciplines == [] then 0
    else |disciplines[0].teacherDisciplines| + AssignmentCountOf(disciplines[1..])
  }

  function AssignmentCount(terms: seq<Term>): nat
  {
    if terms == [] then 0 else AssignmentCountOf(terms[0].disciplines) + AssignmentCount(terms[1..])
  }

  lemma {:induction false} DisciplineOptionsUnfold(terms: seq<Term>)
    requires terms != []
    ensures DisciplineOptions(terms) == DisciplineNames(terms[0].disciplines) + DisciplineOptions(terms[1..])
  {
    assert DisciplineNameGroups(terms)[1..] == DisciplineNameGroups(terms[1..]);
  }

  /** One option per discipline, duplicates kept. */
  lemma {:induction false} DisciplineOptionsCount(terms: seq<Term>)
    ensures |DisciplineOptions(terms)| == DisciplineCount(terms)
  {
    if terms != [] {
      DisciplineOptionsUnfold(terms);
      DisciplineOptionsCount(terms[1..]);
    }
  }

  /** Terms in order, each term's disciplines in order. */
  lemma DisciplineOptionsAppend(a: seq<Term>, b: seq<Term>)
    ensures DisciplineOptions(a + b) == DisciplineOptions(a) + DisciplineOptions(b)
  {
    assert DisciplineNameGroups(a + b) == DisciplineNameGroups(a) + DisciplineNameGroups(b);
    FlattenAppend(DisciplineNameGroups(a), DisciplineNameGroups(b));
  }

  lemma {:induction false} TermTeacherNamesUnfold(disciplines: seq<Discipline>)
    requires disciplines != []
    ensures TermTeacherNames(disciplines)
         == TeacherNames(disciplines[0].teacherDisciplines) + TermTeacherNames(disciplines[1..])
  {
    assert TeacherNameGroups(disciplines)[1..] == TeacherNameGroups(disciplines[1..]);
  }

  lemma {:induction false} TeacherOptionsUnfold(terms: seq<Term>)
    requires terms != []
    ensures TeacherOptions(terms) == TermTeacherNames(terms[0].disciplines) + TeacherOptions(terms[1..])
  {
    assert TermTeacherNameGroups(terms)[1..] == TermTeacherNameGroups(terms[1..]);
  }

  lemma {:induction false} TermTeacherNamesCount(disciplines: seq<Discipline>)
    ensures |TermTeacherNames(disciplines)| == AssignmentCountOf(disciplines)
  {
    if disciplines != [] {
      TermTeacherNamesUnfold(disciplines);
      TermTeacherNamesCount(disciplines[1..]);
    }
  }

  /** One option per teacher assignment: a teacher with several assignments is offered several times. */
  lemma {:induction false} TeacherOptionsCount(terms: seq<Term>)
    ensures |TeacherOptions(terms)| == AssignmentCount(terms)
  {
    if terms != [] {
      TeacherOptionsUnfold(terms);
      TermTeacherNamesCount(terms[0].disciplines);
      TeacherOptionsCount(terms[1..]);
    }
  }

  /** Terms in order, then disciplines, then assignments. */
  lemma TeacherOptionsAppend(a: seq<Term>, b: seq<Term>)
    ensures TeacherOptions(a + b) == TeacherOptions(a) + TeacherOptions(b)
  {
    assert TermTeacherNameGroups(a + b) == TermTeacherNameGroups(a) + TermTeacherNameGroups(b);
    FlattenAppend(TermTeacherNameGroups(a), TermTeacherNameGroups(b));
  }

  // ---------------------------------------------------------------------------
  // Page state

  class AddTestForm {
    var terms: seq<Term>
    var categories: seq<Category>
    var formData: FormData
    var message: Option<Alert>
    /** Where the page has navigated to, if anywhere. */
    var location: Option<string>

    /** The page as it mounts; `alert` is what the shared alert slot holds at that moment. */
    constructor (alert: Option<Alert>)
      ensures formData == EmptyForm
      ensures terms == [] && categories == [] && message == alert && location == None
    {
      terms := [];
      categories := [];
      formData := EmptyForm;
      message := alert;
      location := None;
    }

    /** The results of the initial load: the catalog, then the category list. */
    method Load(fetchedTerms: seq<Term>, fetchedCategories: seq<Category>)
      modifies this
      ensures terms == fetchedTerms && categories == fetchedCategories
      ensures formData == old(formData) && message == old(message) && location == old(location)
    {
      terms := fetchedTerms;
      categories := fetchedCategories;
    }

    /** `handleInputChange`: the input named `f` now holds `value`. */
    method HandleInputChange(f: Field, value: string)
      modifies this
      ensures Get(formData, f) == value
      ensures forall g :: g != f ==> Get(formData, g) == Get(old(formData), g)
      ensures terms == old(terms) && categories == old(categories)
      ensures message == old(message) && location == old(location)
    {
      formData := WithField(formData, f, value);
    }

    /** `handleSubmit`: `request` is the body passed to `addTest` (None when it
        is not called) and `response` is what that call yields. The form's
        values are never reset. */
    method HandleSubmit(response: Response<()>) returns (request: Option<FormData>)
      modifies this
      ensures formData == old(formData) && terms == old(terms) && categories == old(categories)
      ensures (exists f :: Get(formData, f) == "") ==>
                request == None && message == Some(ErrorAlert(RequiredFieldsMessage))
                && location == old(location)
      ensures (forall f :: Get(formData, f) != "") ==> request == Some(formData)
      ensures (forall f :: Get(formData, f) != "") && response.Ok? ==>
                location == Some(DisciplinesRoute) && message == None
      ensures (forall f :: Get(formData, f) != "") && response.ErrorWithResponse? ==>
                location == old(location) && message == Some(ErrorAlert(response.responseData))
      ensures (forall f :: Get(formData, f) != "") && response.ErrorWithoutResponse? ==>
                location == old(location) && message == Some(ErrorAlert(GenericErrorMessage))
    {
      message := None;
      var invalid := ValidationError(formData);
      if invalid.Some? {
        message := Some(ErrorAlert(invalid.value));
        request := None;
        return;
      }
      request := Some(formData);
      if response.Ok? {
        location := Some(DisciplinesRoute);
      } else {
        message := Some(ErrorAlert(FailureMessage(response)));
      }
    }

  }
}
