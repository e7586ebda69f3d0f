# Assessments and learning outcomes: a Dafny model

This project models the assessment ("prueba") part of an Express/Mongoose backend where
teachers record student grades. Each grade belongs to a learning outcome ("resultado de
aprendizaje", RA).

An assessment belongs to one academic program and lists the learning outcomes it evaluates.
It holds groups. Each group has a responsible user and a roster of students, and each
student carries grades tagged with a learning outcome. Three tiers of averages are cached
on the document and recomputed from the grades whenever an assessment is read:

- one average per learning outcome per group;
- one average per group;
- one average for the whole assessment.

Learning outcomes carry the list of programs they belong to. Handlers add programs to that
list and remove them.

The modules follow the source's layout:

| module | file | models |
|---|---|---|
| `Respuestas` | respuestas.dfy | the kinds of HTTP result the handlers answer with (200, 201, 400, 404, 500) |
| `Texto` | texto.dfy | decimal rendering of group numbers, ASCII `toLowerCase` |
| `Esquema` | esquema.dfy | the schema of models/Prueba.js as datatypes, and what `save()` validation accepts |
| `Consultas` | consultas.dfy | what `find({_id: {$in: ids}}).length` reveals about a list of ids |
| `Promedios` | promedios.dfy | the three averaging helpers, the recompute, and reference definitions for them |
| `Plantilla` | plantilla.dfy | the roster and group-list transformations the handlers apply |
| `Pruebas` | pruebas.dfy | the stored assessment document (`PruebaDoc`) and the handlers of controllers/pruebaController.js |
| `ResultadosAprendizaje` | resultados_aprendizaje.dfy | the stored learning outcome and its program-list handlers |

The database is an environment the handlers are given:

- A document that `findById` returns is a `PruebaDoc` or `ResultadoAprendizaje` object; `null` means that nothing was found.
- A handler writes the object's fields only on a path where `save()` succeeds. The object is the *stored* document, so a request that fails leaves it as it was.
- Existence lookups (`Program.findById`, `User.findById`, `Model.find`) are sets of existing ids.
- The ObjectIds Mongoose assigns to new subdocuments are a parameter `ids`. A precondition says they are fresh.
- A request field that is absent, `null` or `""` is the empty string, since both the JavaScript truthiness tests and Mongoose `required` treat the three alike. An absent optional field is `None`.
- Grades and averages are exact `real`s.

Every stored assessment in the model is `PruebaDoc.Valid()`: it meets the schema's `required`
rules, and its group ids, and the student ids within each group, are distinct. Every assessment
handler keeps this. A stored learning outcome is not assumed valid: updateResultadoAprendizaje
writes with `findByIdAndUpdate`, which runs no validators, so a stored outcome may have an empty
required field. The program handlers take any outcome, answer 500 when its `save()` would fail
that validation, and keep a program list free of repetition when it was so before.

## Model

| member | source | states |
|---|---|---|
| Esquema.CumpleEsquema | models/Prueba.js:4-35 | `save()` accepts an assessment exactly when nombre, descripcion, semestre and fecha are non-empty, and every group has a nombre and every student a documento and a nombre |
| Texto.MinusculasDe | controllers/pruebaController.js:99 | `toLowerCase()` of a cell equals a lower-case word exactly when each character matches it or is the same letter in upper case |
| Texto.DecimalInyectiva | controllers/pruebaController.js:30 | different group numbers render to different decimal strings |
| Consultas.TodosEncontrados | controllers/pruebaController.js:17-20 | the count of documents found is at most the number of ids requested, and equals it exactly when every id exists and none is repeated |
| Plantilla.IndiceGrupo | controllers/pruebaController.js:64-67 | `grupos.id(id)` is the first group with that id, or -1 exactly when no group has it |
| Plantilla.IndiceEstudiante | controllers/pruebaController.js:392 | `estudiantes.id(id)` is the first student with that id, or -1 exactly when none has it |
| Plantilla.NombresDeGrupoDistintos | controllers/pruebaController.js:30 | the generated names `Grupo i+1` differ for different i |
| Plantilla.ConstruirGrupos | controllers/pruebaController.js:22-34 | the loop succeeds exactly when every one of the first `cantidadGrupos` responsible users exists (404 otherwise); the result is the list `GruposNuevos` of that many empty groups |
| Plantilla.GruposNuevosValidos | controllers/pruebaController.js:29-33 | the generated groups pass validation, have empty rosters, distinct ids and pairwise distinct names |
| Plantilla.Importar | controllers/pruebaController.js:99-105 | the import succeeds exactly when the header row reads `documento`, `nombre` case-insensitively (500 otherwise); the old roster stays as a prefix and one student with no grades is appended per data row, in order |
| Plantilla.ImportacionValida | controllers/pruebaController.js:103-106 | the merged roster passes validation exactly when no data row has an empty documento or nombre cell |
| Plantilla.ImportacionConservaIds | controllers/pruebaController.js:105 | the imported students keep the roster's ids distinct |
| Plantilla.FilasAEstudiantes | controllers/pruebaController.js:103 | row k becomes a student whose documento is cell 0 and nombre is cell 1, with no grades |
| Plantilla.EjemploImportacion | controllers/pruebaController.js:99-105 | a sheet with a `Documento`/`Nombre` header and two rows appends those two students |
| Plantilla.TieneDocumento | controllers/pruebaController.js:358 | `find(est => est.documento === documento)` finds something exactly when some student has that document |
| Plantilla.AgregarEstudiante | controllers/pruebaController.js:358-370 | refused with 400 exactly when the document is already in the group; otherwise the new student, with no grades, is appended |
| Plantilla.AgregarConservaDocumentosDistintos | controllers/pruebaController.js:357-370 | a roster without repeated documents keeps that property when a student is created |
| Plantilla.Depurar | controllers/pruebaController.js:401-409 | the map-and-filter keeps exactly the entries with an `_id`, or with both `ra` and `nota` |
| Plantilla.DepurarConcatena | controllers/pruebaController.js:401-409 | the map-and-filter works element by element, so the kept entries keep the request's order and multiplicity |
| Plantilla.DepurarUno | controllers/pruebaController.js:402-408 | one entry is kept verbatim exactly when it has an `_id`, or both `ra` and `nota`, and dropped otherwise |
| Plantilla.AGuardar | models/Prueba.js:7-10 | a grade list can be saved exactly when every entry has both `ra` and `nota`, and then it is those pairs in order |
| Plantilla.DepuradasSeGuardan | controllers/pruebaController.js:401-412 | the filtered list saves exactly when every entry kept for its `_id` also has `ra` and `nota` |
| Plantilla.ActualizarEstudiante | controllers/pruebaController.js:396-412 | an update keeps the id, replaces nombre and documento only when non-empty, replaces the grades only when a list is given, and fails when a kept grade is incomplete |
| Plantilla.ActualizarConListaVacia | controllers/pruebaController.js:400-410 | an empty grade list clears the student's grades |
| Plantilla.EstudianteCreado | controllers/pruebaController.js:416-422 | a new student needs a documento and a nombre (400 otherwise); its grades are the list as given or `[]`, and it fails with 500 when a grade is incomplete |
| Plantilla.EliminarEstudiante | controllers/pruebaController.js:321-326 | fails with 404 exactly when no student has the id; otherwise the first such student is spliced out and the rest keep their order |
| Plantilla.EliminarConIdsDistintos | controllers/pruebaController.js:326 | with distinct ids, exactly the student with that id is gone, ids stay distinct, and the roster loses only that one student (multiset) |
| Plantilla.Insertar | controllers/pruebaController.js:69 | inserting into a roster sorted by name keeps it sorted and adds exactly that student |
| Plantilla.OrdenarPorNombre | controllers/pruebaController.js:69 | under a total order on names the roster comes back sorted and is a permutation of the original |
| Promedios.DeRA | controllers/pruebaController.js:159-165 | the grades selected for an RA are all for that RA and include every grade for it |
| Promedios.CalcularPromedioRA | controllers/pruebaController.js:142-171 | the loops compute the mean of the group's grades for that RA, and 0 when there is none |
| Promedios.ReduccionesPlanas | controllers/pruebaController.js:175-180 | the per-student reductions equal the sum and the count of the flattened grades |
| Promedios.CalcularPromedioGrupo | controllers/pruebaController.js:174-182 | the group average is the mean of all its students' grades, and 0 when there is none |
| Promedios.CalcularPromedioPrueba | controllers/pruebaController.js:185-199 | the loops compute the mean of every grade in every group, and 0 when there is none |
| Promedios.PromediosPorRA | controllers/pruebaController.js:228-231 | one entry per outcome of the assessment, in its order, holding that outcome's group average |
| Promedios.Recalculada | controllers/pruebaController.js:227-236 | the recompute changes only the cached averages: each group's `promediosRA` follows the assessment's outcome list, `promedioGrupo` is the group mean, `promedioPrueba` the mean of all grades |
| Promedios.Recalcular | controllers/pruebaController.js:121-132 | the forEach loops over groups and outcomes produce exactly `Recalculada` of the assessment |
| Promedios.RecalculoIgnoraCaches | controllers/pruebaController.js:227-236 | the result does not depend on the cached values that were stored before |
| Promedios.RecalculoIdempotente | controllers/pruebaController.js:227-238 | recomputing a recomputed assessment changes nothing |
| Promedios.MismasNotas | controllers/pruebaController.js:189-196 | group lists with the same rosters have the same grades |
| Promedios.PromedioPruebaPonderado | controllers/pruebaController.js:185-199 | the assessment average times the number of grades is the sum over groups of each group's grade total, so each group weighs by its number of grades |
| Promedios.NoEsMediaDeMedias | controllers/pruebaController.js:185-199 | a group with one grade of 10 and a group with three grades of 0 average 2.5 over the assessment, while the mean of the two group averages is 5.0 |
| Promedios.EjemploPromedioRA | controllers/pruebaController.js:159-169 | grades 4, 5 and 3 on one outcome, spread over two students, give that outcome an average of 4 |
| Promedios.DefectosDeGrupoNuevo | models/Prueba.js:18-22 | a new group's caches are 0, and recompute gives it 0 for every outcome |
| Pruebas.PruebaDoc.constructor | controllers/pruebaController.js:36-44 | the new document holds exactly the values given |
| Pruebas.IdsDeGrupoUsados | models/Prueba.js:14-17 | a group's student ids are among the ids the document uses |
| Pruebas.ConRosterValido | models/Prueba.js:4-35 | replacing one roster by a valid roster with distinct ids keeps the document valid |
| Pruebas.RecalculadaValida | controllers/pruebaController.js:227-238 | the recomputed document still passes validation, so the save in getPrueba cannot fail |
| Pruebas.CrearPrueba | controllers/pruebaController.js:8-53 | 404 when the program, an outcome (or a repeated one) or a responsible user is missing; otherwise 500 when a required string is missing, else 201 with a fresh valid document holding the fields, the generated groups and a 0 average |
| Pruebas.ObtenerGrupo | controllers/pruebaController.js:56-76 | 404 for a missing assessment or group; otherwise that group with its roster sorted by name |
| Pruebas.ImportarEstudiantesAGrupo | controllers/pruebaController.js:79-113 | 404 for a missing assessment or group; 500, with nothing stored, when the header is wrong or a row misses a cell; otherwise only that group's roster changes, to the import merge |
| Pruebas.ObtenerPruebas | controllers/pruebaController.js:116-139 | answers every assessment recomputed, in order |
| Pruebas.ObtenerPrueba | controllers/pruebaController.js:203-245 | 404 for a missing assessment; otherwise the stored document becomes its recomputation and is answered |
| Pruebas.EditarPrueba | controllers/pruebaController.js:266-304 | 404 for a missing assessment or responsible user; 500 for a missing program or required string; otherwise the scalar fields are overwritten and the groups replaced by fresh empty ones, while fecha and the cached average stay |
| Pruebas.EliminarEstudianteDeGrupo | controllers/pruebaController.js:307-335 | 404 for a missing assessment, group or student, with nothing changed; otherwise only that group's roster changes, losing that student |
| Pruebas.CrearEstudiante | controllers/pruebaController.js:338-378 | 400 for a missing documento or nombre before any lookup; 404 for a missing assessment or group; 400 for an existing document; otherwise 201 and the student is appended to that group alone |
| Pruebas.AnexarConservaIds | controllers/pruebaController.js:370 | appending a student with a fresh id keeps the roster's ids distinct |
| Pruebas.CrearOActualizarEstudiante | controllers/pruebaController.js:381-429 | for an existing student, 200 and that student alone is updated, or 500 when a kept grade is incomplete; for an unknown id, 201 with the new student appended, or the refusal `EstudianteCreado` gives |
| ResultadosAprendizaje.ResultadoAprendizaje.constructor | controllers/resultadoAprendizajeController.js:20-25 | the new outcome holds exactly the values given |
| ResultadosAprendizaje.ComoLista | controllers/resultadoAprendizajeController.js:48 | a single id is treated as a one-element list, a list as itself |
| ResultadosAprendizaje.ProgramasAlCrearComoEscrito | controllers/resultadoAprendizajeController.js:12-17 | as written, a non-empty `programas` always fails with 500, and otherwise the list is `[]` |
| ResultadosAprendizaje.ProgramasAlCrear | controllers/resultadoAprendizajeController.js:12-24 | the intended check: an omitted list becomes `[]`; a given list is kept exactly when every program exists and none is repeated, and otherwise 404 |
| ResultadosAprendizaje.CrearConProgramasFalla | controllers/resultadoAprendizajeController.js:13 | one existing program is refused with 500 as written and accepted by the intended check |
| ResultadosAprendizaje.CrearSinProgramasCoincide | controllers/resultadoAprendizajeController.js:12-24 | without programs the two versions agree and give `[]` |
| ResultadosAprendizaje.CrearResultadoAprendizaje | controllers/resultadoAprendizajeController.js:7-34 | follows the corrected lookup `ProgramasAlCrear` of the Findings table, not line 13 as written (which answers 500 for any non-empty `programas`, see `ProgramasAlCrearComoEscrito`): 404 when a program is missing or repeated; 500 when nombre, facultad or descripcion is missing; otherwise 201 with a fresh valid outcome whose `programas` is the list given or `[]` |
| ResultadosAprendizaje.NoPresentes | controllers/resultadoAprendizajeController.js:57-59 | the filtered ids are exactly the requested ids not already listed, and have no repetition when the request has none |
| ResultadosAprendizaje.NoPresentesConcatena | controllers/resultadoAprendizajeController.js:57-59 | the filter works id by id, so the new ids keep request order and multiplicity |
| ResultadosAprendizaje.NoPresentesUno | controllers/resultadoAprendizajeController.js:57-59 | one requested id is kept exactly when it is not yet listed |
| ResultadosAprendizaje.AgregarListaTodos | controllers/resultadoAprendizajeController.js:57-66 | after the new ids are appended, every requested id is listed |
| ResultadosAprendizaje.AgregarSinRepetidos | controllers/resultadoAprendizajeController.js:57-66 | appending the new ids keeps a program list without repetition free of repetition |
| ResultadosAprendizaje.AgregarProgramasARA | controllers/resultadoAprendizajeController.js:37-75 | 404 for a missing outcome or a missing or repeated program; 400, unchanged, when every id is already listed; 500, unchanged, when the stored outcome's nombre, facultad or descripcion is empty so that `save()` fails; otherwise 200 and the new ids are appended in request order after the unchanged old list; each status holds exactly in its case, and a list without repetition stays so |
| ResultadosAprendizaje.QuitarProgramas | controllers/resultadoAprendizajeController.js:194-196 | the kept programs are exactly the old ones equal to none of the requested ids |
| ResultadosAprendizaje.QuitarConcatena | controllers/resultadoAprendizajeController.js:194-196 | the filter distributes over concatenation, so kept entries keep their original order |
| ResultadosAprendizaje.QuitarAusentes | controllers/resultadoAprendizajeController.js:194-196 | removing ids none of which is listed changes nothing |
| ResultadosAprendizaje.QuitarIdempotente | controllers/resultadoAprendizajeController.js:194-196 | repeating a removal changes nothing more |
| ResultadosAprendizaje.QuitarSinRepetidos | controllers/resultadoAprendizajeController.js:194-199 | removal keeps the list free of repetition |
| ResultadosAprendizaje.QuitarProgramasDeRA | controllers/resultadoAprendizajeController.js:179-209 | 404 for a missing outcome; 500, unchanged, exactly when its nombre, facultad or descripcion is empty so that `save()` fails; otherwise 200 and `programas` becomes the filtered list, other fields unchanged; a list without repetition stays so |

## Left out

- Persistence is not modelled: `findById`, `find`, `save`, `findByIdAndDelete` and `populate` are replaced by the objects and id sets described above. A grade's `ra` is an id, never a populated document.
- `populate` with a dangling reference is not modelled: every outcome id stands for an existing outcome. In the source, a deleted outcome listed in `resultadosAprendizaje` is dropped from the populated array, so getAllPruebas and getPrueba write no `promediosRA` entry for it (controllers/pruebaController.js:123-126, :228-231). A grade whose `ra` no longer exists populates to null, and `nota.ra._id` (:161) throws, giving 500.
- Reading the uploaded XLSX file and multer's upload handling are not modelled. The parsed first sheet is a parameter, given as rows of string cells.
- Non-string cells in the sheet are not modelled, nor request fields of the wrong type (Mongoose casts, `CastError`, `toLowerCase` on a number). Ids are naturals, never malformed ids, so `new mongoose.Types.ObjectId(id)` cannot throw in the model.
- Floating-point behaviour of JavaScript numbers is not modelled: averages are exact quotients.
- `localeCompare` is not modelled; it is an abstract total order on names, given as a parameter.
- Plantilla.OrdenarPorNombre: stability of the sort is not stated, though the insertion sort that models it is stable.
- `toLowerCase` is modelled on ASCII letters only. That is exact for the two header words compared.
- The guards at controllers/pruebaController.js:146 and :154 are not modelled. They test `estudiantes` and `notas` for being non-arrays, which a document typed by the schema never is.
- Pruebas.ObtenerPruebas: it does not model the populated fields of the response. It states that the recomputed values are answered and not saved.
- The response bodies, their messages, and logging are not modelled. Only the kind of result is.
- deletePrueba (controllers/pruebaController.js:248-263) is not modelled; it is a single `findByIdAndDelete` with no in-memory logic.
- An absent `programIds` in addProgramToRA and removeProgramFromRA is not modelled. It becomes `[undefined]` in the source and depends on Mongoose casting.
- updateResultadoAprendizaje (controllers/resultadoAprendizajeController.js:125-129) is not modelled as an operation. Its one effect on the model, an outcome whose required fields were written empty without validation, is an input the program handlers accept.
- The other handlers of controllers/resultadoAprendizajeController.js are plain database reads and `findByIdAndUpdate`/`findByIdAndDelete` calls, so they are not modelled. Neither are the user, program, auth-middleware and e-mail code, which is crypto, randomness, network I/O and database queries.
- An absent `usuarios` with `cantidadGrupos > 0` (controllers/pruebaController.js:24, :284) and an absent `raIds` (:18) are not modelled. The source throws a TypeError on them and answers 500. The model's list parameters are never absent; an empty `usuarios` gives 404.
- Plantilla.Depurar and Plantilla.ActualizarEstudiante: a grade's own subdocument `_id` is not modelled, because `Nota` has no id. The source's `{ ...nota }` (controllers/pruebaController.js:404) keeps that `_id`, and the model loses it.
- Concurrency is not modelled: each handler runs as one atomic step. The source awaits between `findById` and `save`, so when two requests overlap the last save wins.
- ResultadosAprendizaje.CrearResultadoAprendizaje: models the corrected program lookup, not the 500 that line 13 gives as written. The as-written behaviour is `ProgramasAlCrearComoEscrito` (see Findings).

## Findings

| source | as written | input that shows it | evidently intended | confidence | as-written member | corrected member |
|---|---|---|---|---|---|---|
| controllers/resultadoAprendizajeController.js:13 | `Program.find({ _id: { $in: Programa } })` names `Programa`, which is not defined in the file, so the ReferenceError is caught and answered with 500 | a create request whose `programas` is one existing program id | look up `programas` and reject with 404 only when one is missing | high (not executed) | ResultadosAprendizaje.ProgramasAlCrearComoEscrito, ResultadosAprendizaje.CrearConProgramasFalla | ResultadosAprendizaje.ProgramasAlCrear, used by ResultadosAprendizaje.CrearResultadoAprendizaje |
