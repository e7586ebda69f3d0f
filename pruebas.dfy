/** The request handlers of controllers/pruebaController.js over a stored assessment
    document. A `PruebaDoc` is the document as the collection holds it: `findById` either
    yields one or null, and a handler writes its fields only when `save()` would accept the
    result, so a failed request leaves the document as it was. */
module Pruebas {
  import opened Esquema
  import opened Respuestas
  import opened Consultas
  import opened Promedios
  import opened Plantilla

  class PruebaDoc {
    var nombre: string
    var programa: ObjectId
    var resultadosAprendizaje: seq<ObjectId>
    var descripcion: string
    var grupos: seq<Grupo>
    var promedioPrueba: real
    var semestre: string
    var fecha: string

    /** The document's contents as a value. */
    function Valor(): Prueba
      reads this
    {
      Prueba(nombre, programa, resultadosAprendizaje, descripcion, grupos, promedioPrueba, semestre, fecha)
    }

    /** A stored document passed schema validation, and its subdocument ids are distinct. */
    ghost predicate Valid()
      reads this
    {
      CumpleEsquema(Valor()) && GruposConIdsDistintos(grupos)
    }

    /** `new Prueba({...})`. */
    constructor (p: Prueba)
      ensures Valor() == p
    {
      nombre, programa, resultadosAprendizaje, descripcion := p.nombre, p.programa, p.resultadosAprendizaje, p.descripcion;
      grupos, promedioPrueba, semestre, fecha := p.grupos, p.promedioPrueba, p.semestre, p.fecha;
    }

    /** Writes a whole new state: what a successful `save()` of the edited document stores. */
    method Guardar(p: Prueba)
      modifies this
      ensures Valor() == p
    {
      nombre, programa, resultadosAprendizaje, descripcion := p.nombre, p.programa, p.resultadosAprendizaje, p.descripcion;
      grupos, promedioPrueba, semestre, fecha := p.grupos, p.promedioPrueba, p.semestre, p.fecha;
    }
  }

  /** The assessment with the roster of group `k` replaced. */
  function ConRoster(p: Prueba, k: nat, es: seq<Estudiante>): Prueba
    requires k < |p.grupos|
  {
    p.(grupos := p.grupos[k := p.grupos[k].(estudiantes := es)])
  }

  lemma IdsDeGrupoUsados(p: Prueba, k: nat)
    requires k < |p.grupos|
    ensures IdsDe(p.grupos[k].estudiantes) <= IdsUsados(p)
  {
    var g := p.grupos[k];
    assert g in p.grupos;
    forall x | x in IdsDe(g.estudiantes) ensures x in IdsUsados(p) {
      var e :| e in g.estudiantes && e.id == x;
    }
  }

  /** Replacing one roster by a valid roster with distinct ids keeps the document valid. */
  lemma ConRosterValido(p: Prueba, k: nat, es: seq<Estudiante>)
    requires k < |p.grupos|
    requires CumpleEsquema(p) && GruposConIdsDistintos(p.grupos)
    requires (forall e :: e in es ==> EstudianteValido(e)) && IdsDistintos(es)
    ensures CumpleEsquema(ConRoster(p, k, es)) && GruposConIdsDistintos(ConRoster(p, k, es).grupos)
  {
    var q := ConRoster(p, k, es);
    forall g | g in q.grupos ensures GrupoValido(g) && IdsDistintos(g.estudiantes) {
      var i :| 0 <= i < |q.grupos| && q.grupos[i] == g;
      assert p.grupos[i] in p.grupos;
    }
  }

  /** Recomputing changes only caches, so the document stays valid. */
  lemma RecalculadaValida(p: Prueba)
    requires CumpleEsquema(p) && GruposConIdsDistintos(p.grupos)
    ensures CumpleEsquema(Recalculada(p)) && GruposConIdsDistintos(Recalculada(p).grupos)
  {
    var q := Recalculada(p);
    forall g | g in q.grupos ensures GrupoValido(g) && IdsDistintos(g.estudiantes) {
      var i :| 0 <= i < |q.grupos| && q.grupos[i] == g;
      assert MismoGrupo(p.grupos[i], g);
      assert p.grupos[i] in p.grupos;
    }
    forall i, j | 0 <= i < j < |q.grupos| ensures q.grupos[i].id != q.grupos[j].id {
      assert MismoGrupo(p.grupos[i], q.grupos[i]) && MismoGrupo(p.grupos[j], q.grupos[j]);
    }
  }

  // ---------------------------------------------------------------------------
  // createPrueba (8-53)
  // ---------------------------------------------------------------------------

  /** Every lookup of createPrueba succeeds: the program, each learning outcome (each once),
      and every responsible user. */
  predicate ReferenciasEncontradas(programaId: Option<ObjectId>, raIds: seq<ObjectId>, cantidadGrupos: int,
                                   usuarios: seq<ObjectId>, programasExistentes: set<ObjectId>,
                                   rasExistentes: set<ObjectId>, usuariosExistentes: set<ObjectId>)
  {
    programaId.Some? && programaId.value in programasExistentes &&
    SinRepetidos(raIds) && (forall x :: x in raIds ==> x in rasExistentes) &&
    EncargadosEncontrados(cantidadGrupos, usuarios, usuariosExistentes)
  }

  /** Creates an assessment: 404 when the program, an outcome or a responsible user is not
      found, 500 when a required string is missing, otherwise a new document with the
      requested groups, all empty, and a 0 assessment average. */
  method CrearPrueba(nombre: string, programaId: Option<ObjectId>, raIds: seq<ObjectId>, semestre: string,
                     descripcion: string, cantidadGrupos: int, usuarios: seq<ObjectId>, fecha: string,
                     programasExistentes: set<ObjectId>, rasExistentes: set<ObjectId>,
                     usuariosExistentes: set<ObjectId>, ids: seq<ObjectId>)
    returns (estado: Estado, prueba: PruebaDoc?)
    requires cantidadGrupos <= |ids| && SinRepetidos(ids)
    ensures prueba != null <==> estado == Creado
    ensures estado == NoEncontrado <==>
              !ReferenciasEncontradas(programaId, raIds, cantidadGrupos, usuarios,
                                      programasExistentes, rasExistentes, usuariosExistentes)
    ensures estado == ErrorServidor <==>
              ReferenciasEncontradas(programaId, raIds, cantidadGrupos, usuarios,
                                     programasExistentes, rasExistentes, usuariosExistentes) &&
              (nombre == "" || descripcion == "" || semestre == "" || fecha == "")
    ensures estado in {Creado, NoEncontrado, ErrorServidor}
    ensures prueba != null ==> fresh(prueba) && prueba.Valid()
    ensures prueba != null ==>
              CantidadDeGrupos(cantidadGrupos) <= |usuarios| &&
              prueba.Valor() == Prueba(nombre, programaId.value, raIds, descripcion,
                                       GruposNuevos(CantidadDeGrupos(cantidadGrupos), usuarios, ids),
                                       0.0, semestre, fecha)
  {
    prueba := null;
    if programaId.None? || programaId.value !in programasExistentes {
      return NoEncontrado, null;
    }
    TodosEncontrados(raIds, rasExistentes);
    if CantidadEncontrada(raIds, rasExistentes) != |raIds| {
      return NoEncontrado, null;
    }
    var grupos := ConstruirGrupos(cantidadGrupos, usuarios, usuariosExistentes, ids);
    if grupos.Fallo? {
      return grupos.estado, null;
    }
    GruposNuevosValidos(CantidadDeGrupos(cantidadGrupos), usuarios, ids);
    var valor := Prueba(nombre, programaId.value, raIds, descripcion, grupos.valor, 0.0, semestre, fecha);
    if !CumpleEsquema(valor) {
      return ErrorServidor, null;
    }
    prueba := new PruebaDoc(valor);
    estado := Creado;
  }

  // ---------------------------------------------------------------------------
  // getGrupoByPruebaIdAndGrupoId (56-76)
  // ---------------------------------------------------------------------------

  /** The group with its students sorted by name; the sort is not saved. */
  method ObtenerGrupo(prueba: PruebaDoc?, grupoId: ObjectId, le: (string, string) -> bool)
    returns (r: Resultado<Grupo>)
    requires Total(le)
    ensures prueba == null ==> r == Fallo(NoEncontrado)
    ensures prueba != null && IndiceGrupo(prueba.grupos, grupoId) == -1 ==> r == Fallo(NoEncontrado)
    ensures prueba != null && IndiceGrupo(prueba.grupos, grupoId) >= 0 ==>
              var g := prueba.grupos[IndiceGrupo(prueba.grupos, grupoId)];
              r == Exito(g.(estudiantes := OrdenarPorNombre(g.estudiantes, le)))
  {
    if prueba == null {
      return Fallo(NoEncontrado);
    }
    var k := IndiceGrupo(prueba.grupos, grupoId);
    if k == -1 {
      return Fallo(NoEncontrado);
    }
    var g := prueba.grupos[k];
    return Exito(g.(estudiantes := OrdenarPorNombre(g.estudiantes, le)));
  }

  // ---------------------------------------------------------------------------
  // importStudentsToGroup (79-113)
  // ---------------------------------------------------------------------------

  /** A data row the schema would refuse: its document or its name cell is empty or missing. */
  predicate FilaIncompleta(data: seq<seq<string>>)
  {
    exists k :: 1 <= k < |data| && (Celda(data[k], 0) == "" || Celda(data[k], 1) == "")
  }

  /** Imports the parsed sheet into one group: 404 for a missing assessment or group; 500 when
      the header is wrong or a row misses a cell, with nothing stored; otherwise the group's
      roster is the import merge of the sheet and nothing else changes. */
  method ImportarEstudiantesAGrupo(prueba: PruebaDoc?, grupoId: ObjectId, data: seq<seq<string>>, ids: seq<ObjectId>)
    returns (estado: Estado)
    requires prueba != null ==> prueba.Valid() && IdsFrescos(ids, IdsUsados(prueba.Valor()))
    requires |data| <= |ids| + 1
    modifies prueba
    ensures prueba == null ==> estado == NoEncontrado
    ensures prueba != null ==> prueba.Valid()
    ensures prueba != null && estado != Ok ==> unchanged(prueba)
    ensures prueba != null ==>
              var k := IndiceGrupo(old(prueba.grupos), grupoId);
              (estado == NoEncontrado <==> k == -1) &&
              (k >= 0 ==> (estado == ErrorServidor <==> !EncabezadoValido(data) || FilaIncompleta(data))) &&
              (estado == Ok ==>
                 k >= 0 &&
                 prueba.Valor() == ConRoster(old(prueba.Valor()), k,
                                             Importar(old(prueba.grupos[k].estudiantes), data, ids).valor))
    ensures estado in {Ok, NoEncontrado, ErrorServidor}
  {
    if prueba == null {
      return NoEncontrado;
    }
    var k := IndiceGrupo(prueba.grupos, grupoId);
    if k == -1 {
      return NoEncontrado;
    }
    var previos := prueba.grupos[k].estudiantes;
    var importados := Importar(previos, data, ids);
    if importados.Fallo? {
      return importados.estado;
    }
    var p := prueba.Valor();
    assert prueba.grupos[k] in prueba.grupos;
    ImportacionValida(previos, data, ids);
    IdsDeGrupoUsados(p, k);
    ImportacionConservaIds(previos, data, ids);
    if FilaIncompleta(data) {
      var fila :| 1 <= fila < |data| && (Celda(data[fila], 0) == "" || Celda(data[fila], 1) == "");
      var g := ConRoster(p, k, importados.valor).grupos[k];
      assert g in ConRoster(p, k, importados.valor).grupos;
      assert !CumpleEsquema(ConRoster(p, k, importados.valor));
      return ErrorServidor;
    }
    ConRosterValido(p, k, importados.valor);
    prueba.Guardar(ConRoster(p, k, importados.valor));
    estado := Ok;
  }

  // ---------------------------------------------------------------------------
  // getAllPruebas (116-139) and getPrueba (203-245)
  // ---------------------------------------------------------------------------

  /** Every assessment with freshly recomputed averages. The recomputed values are only
      answered: nothing is saved. */
  method ObtenerPruebas(pruebas: seq<PruebaDoc>) returns (r: seq<Prueba>)
    ensures |r| == |pruebas|
    ensures forall i :: 0 <= i < |pruebas| ==> r[i] == Recalculada(pruebas[i].Valor())
  {
    r := [];
    var i := 0;
    while i < |pruebas|
      invariant 0 <= i <= |pruebas| && |r| == i
      invariant forall j :: 0 <= j < i ==> r[j] == Recalculada(pruebas[j].Valor())
    {
      var recalculada := Recalcular(pruebas[i].Valor());
      r := r + [recalculada];
      i := i + 1;
    }
  }

  /** One assessment with freshly recomputed averages, which are also saved. */
  method ObtenerPrueba(prueba: PruebaDoc?) returns (r: Resultado<Prueba>)
    requires prueba != null ==> prueba.Valid()
    modifies prueba
    ensures prueba == null ==> r == Fallo(NoEncontrado)
    ensures prueba != null ==> prueba.Valid()
    ensures prueba != null ==> prueba.Valor() == Recalculada(old(prueba.Valor())) && r == Exito(prueba.Valor())
  {
    if prueba == null {
      return Fallo(NoEncontrado);
    }
    var recalculada := Recalcular(prueba.Valor());
    RecalculadaValida(prueba.Valor());
    prueba.Guardar(recalculada);
    return Exito(recalculada);
  }

  // ---------------------------------------------------------------------------
  // editPrueba (266-304)
  // ---------------------------------------------------------------------------

  /** Edits an assessment: the group list is rebuilt from scratch, discarding every previous
      roster and grade; nombre, programa, outcomes, semestre and descripcion are overwritten;
      fecha and the cached assessment average are left as they were. 404 for a missing
      assessment or responsible user, 500 when a required field is missing. */
  method EditarPrueba(prueba: PruebaDoc?, nombre: string, programaId: Option<ObjectId>, raIds: seq<ObjectId>,
                      semestre: string, descripcion: string, cantidadGrupos: int, usuarios: seq<ObjectId>,
                      usuariosExistentes: set<ObjectId>, ids: seq<ObjectId>)
    returns (estado: Estado)
    requires prueba != null ==> prueba.Valid()
    requires cantidadGrupos <= |ids| && SinRepetidos(ids)
    modifies prueba
    ensures prueba == null ==> estado == NoEncontrado
    ensures prueba != null ==> prueba.Valid()
    ensures prueba != null && estado != Ok ==> unchanged(prueba)
    ensures prueba != null ==>
              (estado == NoEncontrado <==> !EncargadosEncontrados(cantidadGrupos, usuarios, usuariosExistentes)) &&
              (estado == ErrorServidor <==> EncargadosEncontrados(cantidadGrupos, usuarios, usuariosExistentes) &&
                                            (programaId.None? || nombre == "" || semestre == "" || descripcion == ""))
    ensures estado in {Ok, NoEncontrado, ErrorServidor}
    ensures estado == Ok ==>
              prueba != null && CantidadDeGrupos(cantidadGrupos) <= |usuarios| && programaId.Some? &&
              prueba.Valor() == old(prueba.Valor()).(nombre := nombre, programa := programaId.value,
                                                   resultadosAprendizaje := raIds, semestre := semestre,
                                                   descripcion := descripcion,
                                                   grupos := GruposNuevos(CantidadDeGrupos(cantidadGrupos), usuarios, ids))
  {
    if prueba == null {
      return NoEncontrado;
    }
    var grupos := ConstruirGrupos(cantidadGrupos, usuarios, usuariosExistentes, ids);
    if grupos.Fallo? {
      return grupos.estado;
    }
    if programaId.None? {
      return ErrorServidor;
    }
    GruposNuevosValidos(CantidadDeGrupos(cantidadGrupos), usuarios, ids);
    var valor := prueba.Valor().(nombre := nombre, programa := programaId.value, resultadosAprendizaje := raIds,
                                 semestre := semestre, descripcion := descripcion, grupos := grupos.valor);
    if !CumpleEsquema(valor) {
      return ErrorServidor;
    }
    prueba.Guardar(valor);
    estado := Ok;
  }

  // ---------------------------------------------------------------------------
  // deleteStudentFromGroup (307-335)
  // ---------------------------------------------------------------------------

  /** Removes one student: 404 for a missing assessment, group or student, with nothing
      changed; otherwise that group's roster loses exactly that student. */
  method EliminarEstudianteDeGrupo(prueba: PruebaDoc?, grupoId: ObjectId, estudianteId: ObjectId)
    returns (estado: Estado)
    requires prueba != null ==> prueba.Valid()
    modifies prueba
    ensures prueba == null ==> estado == NoEncontrado
    ensures prueba != null ==> prueba.Valid()
    ensures prueba != null && estado != Ok ==> unchanged(prueba)
    ensures estado in {Ok, NoEncontrado}
    ensures prueba != null ==>
              var k := IndiceGrupo(old(prueba.grupos), grupoId);
              (estado == Ok <==> k >= 0 && EliminarEstudiante(old(prueba.grupos[k].estudiantes), estudianteId).Exito?) &&
              (estado == Ok ==>
                 prueba.Valor() == ConRoster(old(prueba.Valor()), k,
                                             EliminarEstudiante(old(prueba.grupos[k].estudiantes), estudianteId).valor))
  {
    if prueba == null {
      return NoEncontrado;
    }
    var k := IndiceGrupo(prueba.grupos, grupoId);
    if k == -1 {
      return NoEncontrado;
    }
    var previos := prueba.grupos[k].estudiantes;
    var restantes := EliminarEstudiante(previos, estudianteId);
    if restantes.Fallo? {
      return restantes.estado;
    }
    assert prueba.grupos[k] in prueba.grupos;
    EliminarConIdsDistintos(previos, estudianteId);
    ConRosterValido(prueba.Valor(), k, restantes.valor);
    prueba.Guardar(ConRoster(prueba.Valor(), k, restantes.valor));
    estado := Ok;
  }

  // ---------------------------------------------------------------------------
  // createStudent (338-378)
  // ---------------------------------------------------------------------------

  /** Adds one student: 400 for a missing document or name, before any lookup; 404 for a
      missing assessment or group; 400 when the document is already in the group; otherwise
      the student, with no grades, is appended to that group's roster. */
  method CrearEstudiante(prueba: PruebaDoc?, grupoId: ObjectId, documento: string, nombre: string, id: ObjectId)
    returns (estado: Estado)
    requires prueba != null ==> prueba.Valid() && id !in IdsUsados(prueba.Valor())
    modifies prueba
    ensures (documento == "" || nombre == "") ==> estado == SolicitudInvalida
    ensures documento != "" && nombre != "" && prueba == null ==> estado == NoEncontrado
    ensures prueba != null ==> prueba.Valid()
    ensures prueba != null && estado != Creado ==> unchanged(prueba)
    ensures estado in {Creado, SolicitudInvalida, NoEncontrado}
    ensures documento != "" && nombre != "" && prueba != null ==>
              var k := IndiceGrupo(old(prueba.grupos), grupoId);
              (estado == NoEncontrado <==> k == -1) &&
              (k >= 0 ==> (estado == Creado <==> AgregarEstudiante(old(prueba.grupos[k].estudiantes), documento, nombre, id).Exito?)) &&
              (estado == Creado ==>
                 prueba.Valor() == ConRoster(old(prueba.Valor()), k,
                                             old(prueba.grupos[k].estudiantes) + [EstudianteNuevo(id, documento, nombre)]))
  {
    if documento == "" || nombre == "" {
      return SolicitudInvalida;
    }
    if prueba == null {
      return NoEncontrado;
    }
    var k := IndiceGrupo(prueba.grupos, grupoId);
    if k == -1 {
      return NoEncontrado;
    }
    var previos := prueba.grupos[k].estudiantes;
    var agregados := AgregarEstudiante(previos, documento, nombre, id);
    if agregados.Fallo? {
      return agregados.estado;
    }
    assert prueba.grupos[k] in prueba.grupos;
    IdsDeGrupoUsados(prueba.Valor(), k);
    AnexarConservaIds(previos, EstudianteNuevo(id, documento, nombre));
    ConRosterValido(prueba.Valor(), k, agregados.valor);
    prueba.Guardar(ConRoster(prueba.Valor(), k, agregados.valor));
    estado := Creado;
  }

  lemma AnexarConservaIds(es: seq<Estudiante>, e: Estudiante)
    requires IdsDistintos(es) && e.id !in IdsDe(es)
    ensures IdsDistintos(es + [e])
  {
    forall i, j | 0 <= i < j < |es + [e]| ensures (es + [e])[i].id != (es + [e])[j].id {
      assert (es + [e])[i] == es[i];
      if j < |es| {
        assert (es + [e])[j] == es[j];
      } else {
        assert es[i] in es;
      }
    }
  }

  // ---------------------------------------------------------------------------
  // createOrUpdateStudent (381-429)
  // ---------------------------------------------------------------------------

  /** Creates or updates one student of a group. For a student with that id the update is
      applied in place (200), or the save fails (500) when a kept grade is incomplete; for an
      unknown id a new student is appended (201), or the request is refused as
      `EstudianteCreado` says. Nothing else changes. */
  method CrearOActualizarEstudiante(prueba: PruebaDoc?, grupoId: ObjectId, estudianteId: ObjectId,
                                    documento: string, nombre: string, notas: Option<seq<NotaEntrada>>,
                                    idNuevo: ObjectId)
    returns (estado: Estado)
    requires prueba != null ==> prueba.Valid() && idNuevo !in IdsUsados(prueba.Valor())
    modifies prueba
    ensures prueba == null ==> estado == NoEncontrado
    ensures prueba != null ==> prueba.Valid()
    ensures prueba != null && estado != Ok && estado != Creado ==> unchanged(prueba)
    ensures prueba != null ==>
              var k := IndiceGrupo(old(prueba.grupos), grupoId);
              (k == -1 ==> estado == NoEncontrado) &&
              (k >= 0 ==>
                 var es := old(prueba.grupos[k].estudiantes);
                 var i := IndiceEstudiante(es, estudianteId);
                 (i >= 0 ==>
                    var actualizado := ActualizarEstudiante(es[i], documento, nombre, notas);
                    (actualizado.None? ==> estado == ErrorServidor) &&
                    (actualizado.Some? ==> estado == Ok &&
                                           prueba.Valor() == ConRoster(old(prueba.Valor()), k, es[i := actualizado.value]))) &&
                 (i == -1 ==>
                    var creado := EstudianteCreado(idNuevo, documento, nombre, notas);
                    (creado.Fallo? ==> estado == creado.estado) &&
                    (creado.Exito? ==> estado == Creado &&
                                       prueba.Valor() == ConRoster(old(prueba.Valor()), k, es + [creado.valor]))))
  {
    if prueba == null {
      return NoEncontrado;
    }
    var k := IndiceGrupo(prueba.grupos, grupoId);
    if k == -1 {
      return NoEncontrado;
    }
    var es := prueba.grupos[k].estudiantes;
    assert prueba.grupos[k] in prueba.grupos;
    var i := IndiceEstudiante(es, estudianteId);
    if i >= 0 {
      var actualizado := ActualizarEstudiante(es[i], documento, nombre, notas);
      if actualizado.None? {
        return ErrorServidor;
      }
      assert es[i] in es;
      ReemplazarConservaIds(es, i, actualizado.value);
      ConRosterValido(prueba.Valor(), k, es[i := actualizado.value]);
      prueba.Guardar(ConRoster(prueba.Valor(), k, es[i := actualizado.value]));
      return Ok;
    }
    var creado := EstudianteCreado(idNuevo, documento, nombre, notas);
    if creado.Fallo? {
      return creado.estado;
    }
    IdsDeGrupoUsados(prueba.Valor(), k);
    AnexarConservaIds(es, creado.valor);
    ConRosterValido(prueba.Valor(), k, es + [creado.valor]);
    prueba.Guardar(ConRoster(prueba.Valor(), k, es + [creado.valor]));
    estado := Creado;
  }

  lemma ReemplazarConservaIds(es: seq<Estudiante>, i: nat, e: Estudiante)
    requires i < |es| && IdsDistintos(es) && e.id == es[i].id
    ensures IdsDistintos(es[i := e])
  {
  }
}
