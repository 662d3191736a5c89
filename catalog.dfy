/** The records the server sends (src/services/api.ts) and the abstract
    outcome of an HTTP call. The back-references `Discipline.term` and
    `TeacherDisciplines.discipline` are omitted: nothing in the pages reads them. */
module Catalog {

  datatype Option<+T> = None | Some(value: T)

  datatype Category = Category(id: int, name: string)

  datatype Teacher = Teacher(id: int, name: string)

  datatype Test = Test(id: int, name: string, view: int, pdfUrl: string, category: Category)

  /** One teacher assigned to one discipline, with the tests filed under that assignment. */
  datatype TeacherDiscipline = TeacherDiscipline(id: int, teacher: Teacher, tests: seq<Test>)

  datatype Discipline = Discipline(id: int, name: string, teacherDisciplines: seq<TeacherDiscipline>)

  /** A term together with its disciplines (the `TestByDiscipline` payload). */
  datatype Term = Term(id: int, number: int, disciplines: seq<Discipline>)

  /** What an awaited API call yields: its data, a rejection that carries a
      response (whose `data` is shown to the user), or a rejection without one. */
  datatype Response<+T> = Ok(data: T) | ErrorWithResponse(responseData: string) | ErrorWithoutResponse

  /** The alert banner's content; both pages only ever raise error alerts. */
  datatype Alert = ErrorAlert(text: string)
}
