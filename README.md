# Test catalog front end: catalog aggregation and test registration

This project models two pages of a test-catalog web client. The server sends a tree: term → discipline → teacher assignment (`TeacherDisciplines`) → test. It also sends a global list of categories.

- **Disciplines page** (`Disciplines`). This is the pure derivation from the terms and the category list to the accordion tree the page shows. It covers the term and discipline placeholders, the categories visible under each discipline, and the test lines with their text `name (teacher) (N views)`. It also covers the page's search state: the search text, the held terms and the alert slot.
- **Add-test page** (`AddTests`). This covers the five-field form record, the update of one field, the submit validation and its outcomes (navigate, server message, generic message), and the option lists of the three selects.

Supporting modules:
- `Catalog` holds the server records and the abstract outcome of an HTTP call (`Response`).
- `Seqs` holds flattening and the subsequence relation.
- `Decimal` holds how a template literal prints an integer, with its read-back, so that the view count in a line's text is determined by that text.

The pages' state lives in the two classes `Disciplines.DisciplinesPage` and `AddTests.AddTestForm`. The `HandleSubmit` methods take the outcome of their awaited call as a `Response` parameter and return the query or the request body they send; the `Load` methods take the lists the initial load fetched and return nothing.

## Behaviour of the code worth noting

- Under every visible category, the lines of **all** tests of the discipline are listed, not only those of that category. `Categories` passes the whole `teachersDisciplines` to `TeachersDisciplines`. `LinesNotGroupedByCategoryExample` shows a case.
- A discipline whose assignments all have empty test lists gets **no** placeholder and zero category groups (`AssignmentsWithoutTestsShowNothing`). Only an empty assignment list gets the placeholder.
- A test whose category is not in the global list is still listed, under the other visible categories, whenever the discipline has at least one visible category.
- Form validation rejects only empty strings. Whitespace-only values pass.
- In both `handleSubmit`s the alert is cleared first. A search that fails without a response therefore leaves the terms unchanged and clears the message.
- There is no last-request-wins ordering for searches.

## Model

| member | source | states |
|---|---|---|
| Disciplines.HasTestOfCategory | src/pages/Disciplines.tsx:216-218 | true iff some test in the list has a category whose id equals the given id |
| Disciplines.TestOfThisCategory | src/pages/Disciplines.tsx:212-219 | true iff some test of the assignment has `category.id` equal to the category's id (the name is never compared) |
| Disciplines.CountAssignmentsWithCategory | src/pages/Disciplines.tsx:207-209 | the filtered assignment count is at most the number of assignments and is positive iff some assignment has a test of the category |
| Disciplines.DoesCategoryHaveTests | src/pages/Disciplines.tsx:205-210 | true iff some test of some assignment of the discipline carries the category's id |
| Disciplines.VisibleCategories | src/pages/Disciplines.tsx:189-191 | a category is kept iff it is in the global list and has a test; each kept category keeps its exact multiplicity from the global list, and a dropped one has none |
| Disciplines.VisibleCategoriesKeepOrder | src/pages/Disciplines.tsx:189-191 | the visible categories are an order-preserving subsequence of the global category list |
| Disciplines.VisibleCategoryIds | src/pages/Disciplines.tsx:189-191 | the ids of the visible categories are exactly the ids in the global list that some test of the discipline refers to |
| Decimal.NatToString | src/pages/Disciplines.tsx:252 | the printed count is a non-empty string of decimal digits with no leading zero |
| Decimal.NatToStringRoundTrip | src/pages/Disciplines.tsx:252 | reading the digits back gives the original natural number |
| Decimal.IntToStringRoundTrip | src/pages/Disciplines.tsx:252 | reading the printed integer back (sign included) gives the original integer |
| Decimal.IntToStringInjective | src/pages/Disciplines.tsx:252 | two integers that print the same are equal |
| Decimal.IntToString | src/pages/Disciplines.tsx:252 | the printed number is non-empty, starts with '-' exactly when the number is negative, and is decimal digits after any sign |
| Disciplines.LineText | src/pages/Disciplines.tsx:252 | the link text is the test name, " (", the teacher name, ") (", the printed view count and " views)", each at its exact position |
| Disciplines.LineTextDeterminesView | src/pages/Disciplines.tsx:252 | two line texts with the same test name and teacher are equal only if the view counts are equal |
| Disciplines.TeachersDisciplines | src/pages/Disciplines.tsx:221-225 | one record per assignment, in order, holding that assignment's tests and its teacher's name |
| Disciplines.LinesOf | src/pages/Disciplines.tsx:244-255 | one line per test of the record, in test order, each the line of that test labelled with the record's teacher name |
| Disciplines.LineGroups | src/pages/Disciplines.tsx:243-256 | one line group per record, in record order, each holding that record's lines |
| Disciplines.Tests | src/pages/Disciplines.tsx:232-258 | a line is listed iff it is the line of some test of some record, labelled with that record's teacher name |
| Disciplines.DisciplineLines | src/pages/Disciplines.tsx:221-258 | a line is listed under a visible category iff it is the line of some test of some assignment with that assignment's teacher name; there is no category filter |
| Seqs.FlattenLength | src/pages/Disciplines.tsx:243-244 | the flattened nested list is as long as the sum of the inner lengths |
| Seqs.FlattenAppend | src/pages/Disciplines.tsx:243-244 | flattening distributes over concatenation: outer order is kept |
| Seqs.FlattenMember | src/pages/Disciplines.tsx:243-244 | an element is in the flattening iff it is in one of the inner lists |
| Disciplines.DisciplineLinesUnfold | src/pages/Disciplines.tsx:243-244 | the lines are the first assignment's lines followed by the lines of the remaining assignments |
| Disciplines.DisciplineLinesCount | src/pages/Disciplines.tsx:194 | the number of lines under a visible category equals the total number of tests over all assignments |
| Disciplines.DisciplineLinesSplit | src/pages/Disciplines.tsx:243-244 | the lines are in assignment order then test order: those before assignment j, then j's own, then those after |
| Disciplines.Categories | src/pages/Disciplines.tsx:183-198 | gives the placeholder "Nenhuma prova para essa disciplina..." iff there are no assignments; otherwise gives one group per visible category, in visible order, each listing all of the discipline's lines |
| Disciplines.AssignmentsWithoutTestsShowNothing | src/pages/Disciplines.tsx:184-196 | non-empty assignments that all have empty test lists give zero groups and no placeholder |
| Disciplines.DisciplinesAccordions | src/pages/Disciplines.tsx:149-176 | gives the placeholder "Nenhuma prova para esse período..." iff the term has no disciplines; otherwise one node per discipline, in input order, with its id, its name and its category body |
| Disciplines.TermsAccordions | src/pages/Disciplines.tsx:124-142 | one node per term, in server order, with its id, its number and its discipline body |
| Disciplines.ViewCategoryGroup | src/pages/Disciplines.tsx:124-196 | anywhere in the tree, a category is shown under a discipline iff the discipline has assignments, the category is in the global list, and some test of the discipline carries its id |
| Disciplines.ViewLineOrigin | src/pages/Disciplines.tsx:124-258 | anywhere in the tree, every listed line is the line of some test of that same discipline, labelled with its teacher |
| Disciplines.OneTestExample | src/pages/Disciplines.tsx:124-258 | one term, one discipline, one assignment and one test of category "Midterm" render exactly one group with the line "P1 (Dr. A) (3 views)" |
| Disciplines.LinesNotGroupedByCategoryExample | src/pages/Disciplines.tsx:189-196 | with two categories that each have one test, the first category's group also lists the other category's test |
| Disciplines.DisciplinesPage.constructor | src/pages/Disciplines.tsx:31-34 | the terms, the categories and the search text start empty; the message is whatever the shared alert slot holds when the page mounts |
| Disciplines.DisciplinesPage.View | src/pages/Disciplines.tsx:113 | one term node per held term, in order, with the term's id and number and the accordions of its disciplines under the held categories |
| Disciplines.DisciplinesPage.Load | src/pages/Disciplines.tsx:40-43 | the fetched terms and categories replace the held ones; search and message are unchanged |
| Disciplines.DisciplinesPage.HandleInputChange | src/pages/Disciplines.tsx:48-50 | the search text becomes the typed value; nothing else changes |
| Disciplines.DisciplinesPage.HandleSubmit | src/pages/Disciplines.tsx:52-68 | the query sent is the current search text and the message is cleared. Success replaces the terms wholesale. An error with a response sets its data as the message and keeps the terms. An error without a response keeps the terms and leaves the message cleared. On any failure the view is unchanged |
| AddTests.WithField | src/pages/AddTests.tsx:66-68 | the named field gets the value and the other four fields are unchanged |
| AddTests.ValidationError | src/pages/AddTests.tsx:74-77 | rejects with "Todos os campos são obrigatórios!" iff some field is the empty string |
| AddTests.FailureMessage | src/pages/AddTests.tsx:83-96 | the server's response data if the error has a response, else "Erro, tente novamente em alguns segundos!" |
| AddTests.FillingEveryField | src/pages/AddTests.tsx:47-77 | setting all five fields of the empty form to non-empty values gives exactly those values, and the result passes validation |
| AddTests.BlankIsNotEmpty | src/pages/AddTests.tsx:47-77 | a whitespace-only field passes validation; the initial empty form does not |
| AddTests.CategoryOptions | src/pages/AddTests.tsx:168-172 | one option per category, in list order, holding the category's name |
| AddTests.DisciplineOptions | src/pages/AddTests.tsx:185-189 | a name is offered iff some discipline of some term has that name |
| AddTests.DisciplineOptionsUnfold | src/pages/AddTests.tsx:185-189 | the discipline options are the first term's discipline names followed by those of the remaining terms |
| AddTests.DisciplineOptionsCount | src/pages/AddTests.tsx:185-189 | one option per discipline over all terms, duplicates kept |
| AddTests.DisciplineOptionsAppend | src/pages/AddTests.tsx:185-189 | the options of concatenated term lists are the concatenated options (term order is kept) |
| AddTests.TermTeacherNames | src/pages/AddTests.tsx:202-207 | a name is among one term's teacher options iff some assignment of some discipline of that term has a teacher of that name |
| AddTests.TermTeacherNamesUnfold | src/pages/AddTests.tsx:202-207 | a term's teacher options are the first discipline's teacher names followed by the rest |
| AddTests.TermTeacherNamesCount | src/pages/AddTests.tsx:202-207 | one teacher option per assignment of the term's disciplines |
| AddTests.TeacherOptions | src/pages/AddTests.tsx:202-207 | a name is offered iff some assignment of some discipline of some term has a teacher of that name |
| AddTests.TeacherOptionsUnfold | src/pages/AddTests.tsx:202-207 | the teacher options are the first term's teacher names followed by those of the remaining terms |
| AddTests.TeacherOptionsCount | src/pages/AddTests.tsx:202-207 | one option per teacher assignment over all terms and disciplines; a teacher with several assignments is offered several times |
| AddTests.TeacherOptionsAppend | src/pages/AddTests.tsx:202-207 | the options of concatenated term lists are the concatenated options |
| AddTests.AddTestForm.constructor | src/pages/AddTests.tsx:43-53 | all five form fields are "", the lists are empty, there is no navigation, and the message is whatever the shared alert slot holds when the page mounts |
| AddTests.AddTestForm.Load | src/pages/AddTests.tsx:55-64 | the fetched terms and categories replace the held ones; the form is unchanged |
| AddTests.AddTestForm.HandleInputChange | src/pages/AddTests.tsx:66-68 | field f holds the value, the other four fields are unchanged, and so is everything else |
| AddTests.AddTestForm.HandleSubmit | src/pages/AddTests.tsx:70-97 | if any field is empty: the required-fields message, no addTest request, no navigation. Otherwise exactly one request whose body equals the form. Success navigates to "/app/disciplinas". An error with a response shows the server data; an error without one shows the generic message. The form data is never reset |

## Left out

- HTTP transport: the axios instance, the base URL, the bearer header and the endpoint paths. Each call is modelled by its outcome (`Response`: data, an error with a response, an error without one). For the same reason the unescaped `findBy=${name}` query string and `addTest` being called without a token are not modelled.
- React hooks, effect sequencing, the auth token guard in `loadPage`, routing and MUI rendering. Only their data results are modelled: `Load` receives the fetched lists, and navigation is the `location` field. Headings such as "`{number}` Período" are given by the node's `number` and `name` and are not rendered to text.
- The view counter (`postView` on clicking a line) and `console.log` are left out. A line carries the test id and href that the click would use. The view count itself is incremented only on the server.
- Disciplines.DisciplinesPage.constructor, AddTests.AddTestForm.constructor: the alert is one slot shared by every page through the `useAlert` context, so a message set on one page is still shown after navigating to the other. Each page models that slot as its own `message` field, seeded from the slot's content when the page mounts; what other pages write to it while this page is mounted is not modelled.
- Disciplines.DisciplinesPage.Load, AddTests.AddTestForm.Load: the initial load awaits the catalog and then the categories, and the page renders in between. `Load` takes both lists at once, so the state between the two awaits is reachable only as `Load(terms, [])`, and a load that fails part-way is not modelled.
- The back-references `Discipline.term` and `TeacherDisciplines.discipline` are not modelled. No displayed value reads them.
- `TeacherDisciplines.id`, `Teacher.id` and `Test.id` are used only as React keys, or carried in the line. Duplicate keys have no effect on the model.
- AddTests.AddTestForm.HandleInputChange: the input name is one of five enumerated fields. A JavaScript event with any other `name` would add an extra key to the record. No input of the form carries such a name.
- Decimal.IntToString: view counts are integers printed in plain decimal. JavaScript would print non-integral numbers, and integers of magnitude 10^21 or more, in another form. A view counter never takes such values.
- Concurrent searches with last-request-wins are not modelled. The code does not implement that ordering.
- The "Pessoa Instrutora" page and sign-in/sign-up are not part of this model.
