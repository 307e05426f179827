# School planner — verified model of the page logic

This project models, in Dafny, what the school-planner web app computes on
its pages and in its two forms. The app keeps a student's subjects,
weighted grades, weekly class schedule, tasks and calendar events in
Firestore. The modelled logic covers:

- the weighted final grade of a subject, the mean of the positive final
  grades, and the progress of courses 1 to 4 (grades page);
- the join of schedule entries with their subjects, and their distribution
  into Monday-first day lists (schedule page);
- the weekday name of the selected date, and the classes, open tasks and
  events of that day (calendar);
- the subjects with their tasks, and the completion toggle (tasks page);
- the schedule and task forms: their fields, reset, day toggle, validation
  and write payloads;
- the grouping of subjects by course, shared by four files.

Every fetched collection is a sequence in fetch order. Every Firestore
`where` clause other than `user_id` is an in-memory filter, except
`cargarNotas`'s `asignatura_id` query, which is left out. Every write is returned as a request
value instead of being sent.

Modules:

- `Wrappers`: `Option`.
- `Seqs`: filter, map and sum over sequences with order and permutation
  lemmas.
- `Registros`: the stored records, plus the id-to-subject `Map` and its
  `?.nombre || fallback` lookup.
- `Texto`: `String.prototype.trim`.
- `Cursos`: the course `reduce`, plus the ascending order of
  `Object.entries`.
- `Notas`, `Horarios`, `Calendario`, `Tareas`, `ModalHorario`,
  `ModalTarea`, `Asignaturas`: one module per modelled source file.

The two forms are classes whose fields are the React state variables.

## Model

| member | source | states |
|---|---|---|
| Registros.IndexById | pages/horarios.tsx:73-78 | the id-to-subject map: its keys are exactly the fetched ids, and each entry is a fetched subject with that id |
| Registros.IndexByIdFinds | components/CalendarioUsuario.tsx:86-91 | with unique ids, looking up a subject's id finds that very subject |
| Registros.NombreO | components/CalendarioUsuario.tsx:109 | `?.nombre \|\| fallback`: the fallback when the subject is missing, the name when it is present and non-empty, the fallback when it is present with an empty name; the result is empty only if the fallback is |
| Texto.Trim | components/ModalTarea.tsx:74 | the result is the part of the input between leading and trailing white space; its ends are not white space; it is empty exactly when the input is all white space |
| Texto.TrimIdempotent | components/ModalTarea.tsx:94 | trimming an already trimmed title changes nothing |
| Cursos.AgruparPorCurso | pages/asignaturas.tsx:76-80 | the dictionary `reduce` builds exactly `Grupos`: one group per course, holding that course's items in input order |
| Cursos.GruposSnoc | pages/asignaturas.tsx:77-78 | pushing one item changes only its own course's group, by appending it there (creating the group if absent) |
| Cursos.GruposParticion | pages/asignaturas.tsx:76-80 | the keys are the distinct courses present; every item is in its course's group; group members have that course; no group is empty |
| Cursos.GruposOrden | components/ModalTarea.tsx:136-140 | within a group, items keep their input order: the groups of a concatenation are concatenations |
| Cursos.GruposVacio | pages/asignaturas.tsx:95 | there are no groups exactly when there are no items |
| Cursos.Secciones | pages/notas.tsx:373-374 | `Object.entries` sorted by course: every group exactly once, with strictly ascending keys |
| Cursos.SeccionesPermutacion | pages/notas.tsx:373-378 | the listed groups, read one after the other, are a permutation of the input: nothing lost, nothing repeated |
| Notas.NotaFinal | pages/notas.tsx:144-148 | `calcularNotaFinal`: 0 when the weights add up to 0, otherwise Σ nota·peso/100; its properties are the lemmas NotaFinalSinPeso, NotaFinalOrden, AporteAcotado, NotaFinalAcotada and NotaFinalEjemplo below |
| Notas.NotaFinalSinPeso | pages/notas.tsx:144-146 | when every weight is 0, including the empty list, the final grade is 0 |
| Notas.NotaFinalOrden | pages/notas.tsx:144-148 | the final grade does not depend on the order of the grades |
| Notas.AporteAcotado | pages/notas.tsx:147 | with scores in [0, 10] and non-negative weights, Σ nota·peso/100 is between 0 and a tenth of the total weight |
| Notas.NotaFinalAcotada | pages/notas.tsx:144-147 | the final grade is between 0 and a tenth of the total weight, so it is in [0, 10] when the weights add up to 100 |
| Notas.NotaFinalEjemplo | pages/notas.tsx:144-148 | scores 8 and 6 weighing 40 % and 60 % give 6.8 |
| Notas.Agrupar | pages/notas.tsx:92-95 | `agrupadas` has exactly the fetched subject ids as keys; each list is exactly that subject's grades in input order; a grade of an unknown subject is in no list |
| Notas.NotasDeAgrupadas | pages/notas.tsx:151 | read through `notasPorAsignatura[id] \|\| []` over the `agrupadas` map (lines 92-95), a fetched subject's entry is exactly its fetched grades in order, any other id reads as `[]`, and a grade is listed under an id exactly when it names that fetched subject |
| Notas.NotasFinalesDeNotas | pages/notas.tsx:150-156 | over `agrupadas`, the final grades are exactly the fetched subjects whose own fetched grades give a positive `calcularNotaFinal`, each with that grade |
| Notas.NotasFinales | pages/notas.tsx:150-156 | exactly the fetched subjects whose final grade is > 0, each paired with that grade; never more entries than subjects |
| Notas.NotasFinalesOrden | pages/notas.tsx:150-156 | the final grades keep the subjects' order |
| Notas.MediaGlobal | pages/notas.tsx:165-168 | the mean is absent exactly when there are no positive final grades |
| Notas.MediaAcotada | pages/notas.tsx:165-168 | the mean lies between any lower and any upper bound of the final grades |
| Notas.MediaPositiva | pages/notas.tsx:165-168 | the mean of the positive final grades is present and positive whenever some subject has a positive final grade |
| Notas.MediaOrden | pages/notas.tsx:165-168 | the mean does not depend on the order of the final grades |
| Notas.MediaEjemplo | pages/notas.tsx:150-168 | finals 0, 7.5 and 0 give one positive entry and a mean of 7.5, not 2.5 |
| Notas.ProgresoDe | pages/notas.tsx:171-180 | `total` is the course's subject count; `conNota` is the number of those with at least one grade, so `conNota <= total`; `progreso` is `conNota / total` when `total > 0`, so the ring and the `conNota/total` legend agree; 0 <= progreso <= 1; progreso is 0 for an empty course, and 1 exactly when the course is non-empty and every subject in it has a grade |
| Notas.ProgresoDeNotas | pages/notas.tsx:171-180 | over `agrupadas`, a course's ring is full exactly when the course has subjects and each has a fetched grade naming it |
| Notas.ProgresoCompleto | pages/notas.tsx:174 | all of a course's subjects count as graded exactly when each has at least one grade |
| Notas.Proporcion | pages/notas.tsx:179 | `conNota / total` with `conNota <= total` and `total > 0` is in [0, 1], and is 1 exactly when they are equal |
| Notas.ProgresoPorCurso | pages/notas.tsx:170-181 | four entries, the progress of courses 1, 2, 3 and 4 in that order |
| Notas.ProgresoFueraDeCursos | pages/notas.tsx:170-172 | a subject whose course is not 1 to 4 is counted in no course's progress |
| Notas.AsignaturasPorCurso | pages/notas.tsx:183-187 | the selector's groups are the course partition of the subjects |
| Notas.NotasPorCurso | pages/notas.tsx:158-163 | `notasPorCurso` is the course partition of the positive final grades |
| Horarios.DiasSemanaDistintos | pages/horarios.tsx:26-34 | `diasSemana` lists seven pairwise different names |
| Horarios.UnirHorarios | pages/horarios.tsx:80-91 | one entry per stored document, in order, with the stored fields copied; a subject is attached exactly when a fetched subject has that id, and it is a subject with that id |
| Horarios.UnirEncuentra | pages/horarios.tsx:82 | with unique subject ids, the attached subject is the one the entry names |
| Horarios.NombreMostrado | pages/horarios.tsx:128 | the subject's name when it is present and non-empty, otherwise `'Asignatura'`; never empty |
| Horarios.HorariosPorDia | pages/horarios.tsx:113-116 | the `reduce` over the seven days builds exactly `PorDia`: for each day, the entries whose `dias` contain it |
| Horarios.PorDiaMiembros | pages/horarios.tsx:113-116 | exactly the seven day keys; an entry is in a day's list if and only if its `dias` contain that day; an entry without `dias` is in no list |
| Horarios.PorDiaOrden | pages/horarios.tsx:114 | each day's list keeps the input order |
| Horarios.PorDiaCuantos | pages/horarios.tsx:113-116 | the days whose list holds an entry are its valid `dias` names; an entry with k distinct valid names is in exactly k lists |
| Horarios.DiaInicial | pages/horarios.tsx:44-47 | today's name when it is one of the seven, otherwise `'todos'`; always one of the eight tabs |
| Calendario.DiaNombre | components/CalendarioUsuario.tsx:80-81 | weekday index 0..6 (Sunday first) gives one of the Monday-first names, the one `(i + 6) % 7` along that list |
| Calendario.MismosDias | components/CalendarioUsuario.tsx:80 | the Sunday-first and Monday-first lists hold the same seven names, so every saved day is some weekday's name |
| Calendario.HorariosDelDia | components/CalendarioUsuario.tsx:93-99 | `array-contains`: an entry is selected if and only if its `dias` contain the day name |
| Calendario.HorariosDelDiaOrden | components/CalendarioUsuario.tsx:93-99 | the selected entries keep the fetched order, and a list of distinct entries selects no entry twice |
| Calendario.ClasesDelDia | components/CalendarioUsuario.tsx:101-111 | one class per selected entry, in order, with its fields; named `''` when no subject has its id; a non-empty name is that subject's name |
| Calendario.ClasesDelDiaNombre | components/CalendarioUsuario.tsx:101-109 | with distinct subject ids, a class whose subject was fetched is shown with that subject's name (`asignatura?.nombre \|\| ''`) |
| Calendario.ClasesDelDiaExactas | components/CalendarioUsuario.tsx:93-111 | every listed class is held on that day, and every entry held that day is listed |
| Calendario.PendientesDelDia | components/CalendarioUsuario.tsx:113-120 | a task is selected if and only if its due date equals the selected date and it is not completed |
| Calendario.PendientesDelDiaOrden | components/CalendarioUsuario.tsx:113-120 | the selected tasks keep the fetched order, and a list of distinct tasks selects no task twice |
| Calendario.TareasDelDia | components/CalendarioUsuario.tsx:122-130 | one row per selected task, in order, with its id and title; named `''` when no subject has its id; a non-empty name is that subject's name |
| Calendario.TareasDelDiaNombre | components/CalendarioUsuario.tsx:122-128 | with distinct subject ids, a task whose subject was fetched is shown with that subject's name (`asignatura?.nombre \|\| ''`) |
| Calendario.TareasDelDiaExcluye | components/CalendarioUsuario.tsx:116-118 | a completed task, or one without a due date, is never selected |
| Calendario.EventosDelDia | components/CalendarioUsuario.tsx:136 | exactly the events whose `start` equals the selected date |
| Calendario.EventosDelDiaOrden | components/CalendarioUsuario.tsx:136 | the day's events keep the fetched order |
| Calendario.ClasesEjemplo | components/CalendarioUsuario.tsx:80-111 | a Monday and Wednesday class is listed on a Wednesday, named after its subject, and not on a Tuesday |
| Calendario.TareasEjemplo | components/CalendarioUsuario.tsx:113-130 | an open task due on the date is listed; the same task completed, or due the next day, is not |
| Tareas.AsignaturasConTareas | pages/tareas.tsx:87-92 | exactly the fetched subjects with at least one task, each with exactly its tasks in fetched order |
| Tareas.AsignaturasConTareasOrden | pages/tareas.tsx:87-92 | subjects are listed in fetched order |
| Tareas.AsignaturasConTareasUbica | pages/tareas.tsx:87-92 | a task, completed or not, is listed under the fetched subject it names; a task of an unknown subject is listed nowhere |
| Tareas.AsignaturasConTareasVacio | pages/tareas.tsx:145-146 | the "no tasks" state shows exactly when no task names a fetched subject |
| Tareas.CambiarEstado | pages/tareas.tsx:98-99 | the task with that id gets the new `completada`, with every other field unchanged; every other task is unchanged |
| Tareas.CambiarEstadoDeshace | pages/tareas.tsx:98-99 | setting the flag back to its old value restores the original list |
| Tareas.CambiarEstadoPorAsignatura | pages/tareas.tsx:98-100 | after the update, a subject's tasks are its earlier tasks, updated |
| Tareas.CambiarEstadoConserva | pages/tareas.tsx:98-100 | toggling a task neither adds nor removes a subject from the page, nor changes how many tasks it shows |
| ModalHorario.Toggle | components/ModalHorario.tsx:86-92 | a present day is removed and nothing else changes membership; an absent day is appended at the end |
| ModalHorario.ToggleAusente | components/ModalHorario.tsx:86-92 | toggling an absent day twice gives back exactly the original list |
| ModalHorario.TogglePresente | components/ModalHorario.tsx:86-92 | toggling a present day twice gives back the same set of days, with that day moved to the end |
| ModalHorario.ToggleSinRepetidos | components/ModalHorario.tsx:86-92 | toggling keeps a list free of repeated days |
| ModalHorario.PulsarSemana | components/ModalHorario.tsx:187-194 | pressing only the week's day buttons, starting from distinct week days (for example `[]`), keeps `dias` a list of distinct week days |
| ModalHorario.SolicitudHorario | components/ModalHorario.tsx:94-117 | rejected exactly when the subject, the hour or the days are empty; then no session exactly when the user is empty; otherwise a write whose payload is exactly the five values, an update of the entry's id exactly when an entry with an id is being edited |
| ModalHorario.GuardarSinCambios | components/ModalHorario.tsx:66-78 | opening a stored entry and saving it unchanged updates that entry with its own fields |
| ModalHorario.Formulario.constructor | components/ModalHorario.tsx:40-44 | initial fields are `''`, theory, `''`, `[]`, with no subjects loaded |
| ModalHorario.Formulario.CargarAsignaturas | components/ModalHorario.tsx:55-60 | stores the fetched subjects; the form fields are untouched |
| ModalHorario.Formulario.Restablecer | components/ModalHorario.tsx:66-78 | copies the edited entry's fields (a missing `dias` becomes `[]`), or restores the initial values when there is no entry |
| ModalHorario.Formulario.ToggleDia | components/ModalHorario.tsx:86-92 | `dias` becomes `Toggle(old dias, dia)`, other fields unchanged, and no repeated day appears |
| ModalHorario.Formulario.Guardar | components/ModalHorario.tsx:94-117 | returns the request for the current fields; the state is unchanged |
| ModalHorario.Formulario.AsignaturasPorCurso | components/ModalHorario.tsx:80-84 | the selector's groups are the course partition of the loaded subjects |
| ModalTarea.SolicitudTarea | components/ModalTarea.tsx:73-109 | rejected exactly when the title is blank or no subject is chosen; then no session exactly when the user is empty; otherwise a write with the trimmed (non-empty) title, `null` for an empty date, the subject and the user; an edit of the prop's task exactly when a task is being edited |
| ModalTarea.TareaCreada | components/ModalTarea.tsx:104-108 | a created task is the payload with `completada = false` |
| ModalTarea.TareaEditada | components/ModalTarea.tsx:101-102 | an edit replaces the four payload fields and keeps `completada`, the id and the creation time |
| ModalTarea.PropDe | pages/tareas.tsx:185-191 | the prop the tasks page passes: the task's fields, with a missing date as `''` |
| ModalTarea.EditarSinCambios | pages/tareas.tsx:185-191 | opening a task and saving it unchanged leaves the stored task as it was (title without surrounding blanks, date not `''`) |
| ModalTarea.Formulario.constructor | components/ModalTarea.tsx:36-39 | initial fields are the prop's fields, or `''` without a prop |
| ModalTarea.Formulario.CargarAsignaturas | components/ModalTarea.tsx:50-55 | stores the fetched subjects; the form fields are untouched |
| ModalTarea.Formulario.Restablecer | components/ModalTarea.tsx:61-71 | the reset effect gives the same field values as a fresh form |
| ModalTarea.Formulario.HandleGuardar | components/ModalTarea.tsx:73-121 | returns the request for the fields before the call; after a write that succeeded all three fields are `''`, so saving again is rejected; otherwise they are unchanged |
| ModalTarea.Formulario.AsignaturasPorCurso | components/ModalTarea.tsx:135-140 | the selector's groups are the course partition of the loaded subjects |
| Asignaturas.AsignaturasPorCurso | pages/asignaturas.tsx:76-80 | the course partition: keys are the courses present; every subject is in its own course's group and only there, in fetched order; no group is empty; no groups exactly when no subjects |

## Left out

- Firestore I/O is not modelled. This covers `getDocs`, `addDoc`, `updateDoc`, `deleteDoc`, the `user_id` query clauses and `orderBy`: each fetched list is an input in the order the query returned it.
- `onAuthStateChanged` and the login redirects are not modelled. A missing user is the empty string.
- Loading flags, confirmation dialogs and toasts are not modelled; the toasts are rendering only.
- The delete handlers are left out: each is a single remote call followed by a reload.
- `cargarNotas` (pages/notas.tsx:106-124) is a server-side query for one subject's grades. The final grade shown for it is `Notas.NotaFinal` of that list.
- Both `toFixed(2)` roundings and IEEE floating point are left out. Scores, weights, grades and the mean are exact reals.
- The SVG progress arcs (pages/notas.tsx:298-341) are float rendering and are not modelled.
- Dates come in as parameters:
  - `new Date(d).getDay()` is the `i` parameter of `Calendario.DiaNombre`;
  - the lower-cased weekday name `toLocaleDateString('es-ES', { weekday: 'long' }).toLowerCase()` is the `hoy` parameter of `Horarios.DiaInicial`;
  - `toISOString` and `serverTimestamp` are given values.
- An unparsable date, whose weekday index is `NaN` in JavaScript, is excluded by `DiaNombre`'s requirement `i < 7`.
- Races between overlapping fetches and stale responses are concurrency and are not modelled.
- `ModalHorario.Formulario.Guardar` and `ModalTarea.Formulario.HandleGuardar` return the write request instead of sending it. The schedule form's `onSuccess`/`onClose` callbacks belong to the parent page.
- The grades, event and subject forms (ModalNota, ModalEvento, ModalAsignatura), the auth pages, push notifications and the reminder endpoint are not part of this model.
- `Notas.ProgresoPorCurso` covers only courses 1 to 4, as the source's `[1, 2, 3, 4]` does. Subjects of any other course count towards no progress entry; `Notas.ProgresoFueraDeCursos` states this.
- Stored `dias` may be missing, and the code handles that with `?.` and `|| []`. The model follows the code and makes `dias` an `Option`, although the schedule form itself only ever saves a non-empty list.
- Course keys are naturals. `Object.entries` lists array-index keys (integers below 2^32 − 1) in ascending order, so `Cursos.Secciones` orders ascending both where the source sorts and where it does not. This rests on course numbers being small school years; a course key beyond that bound would be listed in insertion order, and the model does not capture that.
