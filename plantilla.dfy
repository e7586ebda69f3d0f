/** The roster operations of controllers/pruebaController.js, on values: the group list
    built by createPrueba and editPrueba, the spreadsheet import, single-student creation,
    the create-or-update of one student, the removal of one student and the sort by name. */
module Plantilla {
  import opened Texto
  import opened Esquema
  import opened Respuestas
  import opened Consultas

  // ---------------------------------------------------------------------------
  // Looking subdocuments up by `_id`.
  // ---------------------------------------------------------------------------

  /** `prueba.grupos.id(grupoId)`: the position of the first group with that `_id`, or -1. */
  function IndiceGrupo(gs: seq<Grupo>, id: ObjectId): (k: int)
    ensures -1 <= k < |gs|
    ensures k == -1 <==> forall j :: 0 <= j < |gs| ==> gs[j].id != id
    ensures 0 <= k ==> gs[k].id == id && forall j :: 0 <= j < k ==> gs[j].id != id
  {
    if gs == [] then -1
    else if gs[0].id == id then 0
    else var k := IndiceGrupo(gs[1..], id); if k == -1 then -1 else k + 1
  }

  /** `grupo.estudiantes.findIndex(est => est._id.toString() === id)`, which is also the
      student `grupo.estudiantes.id(id)` returns. */
  function IndiceEstudiante(es: seq<Estudiante>, id: ObjectId): (k: int)
    ensures -1 <= k < |es|
    ensures k == -1 <==> forall j :: 0 <= j < |es| ==> es[j].id != id
    ensures 0 <= k ==> es[k].id == id && forall j :: 0 <= j < k ==> es[j].id != id
  {
    if es == [] then -1
    else if es[0].id == id then 0
    else var k := IndiceEstudiante(es[1..], id); if k == -1 then -1 else k + 1
  }

  /** ObjectIds handed out for new subdocuments: pairwise different and not yet in use. */
  predicate IdsFrescos(ids: seq<ObjectId>, usados: set<ObjectId>)
  {
    SinRepetidos(ids) && forall k :: 0 <= k < |ids| ==> ids[k] !in usados
  }

  function IdsDe(es: seq<Estudiante>): set<ObjectId>
  {
    set e | e in es :: e.id
  }

  // ---------------------------------------------------------------------------
  // The group list of createPrueba (22-34) and editPrueba (282-294).
  // ---------------------------------------------------------------------------

  /** The template literal `Grupo ${i + 1}`. */
  function NombreGrupo(i: nat): string
  {
    "Grupo " + Decimal(i + 1)
  }

  /** Generated group names never collide. */
  lemma NombresDeGrupoDistintos(i: nat, j: nat)
    requires i != j
    ensures NombreGrupo(i) != NombreGrupo(j)
  {
    var a, b := NombreGrupo(i), NombreGrupo(j);
    assert a[6..] == Decimal(i + 1);
    assert b[6..] == Decimal(j + 1);
    if a == b {
      DecimalInyectiva(i + 1, j + 1);
    }
  }

  /** The number of iterations of `for (let i = 0; i < cantidadGrupos; i++)`. */
  function CantidadDeGrupos(cantidadGrupos: int): nat
  {
    if cantidadGrupos < 0 then 0 else cantidadGrupos
  }

  /** Every iteration finds its responsible user: `usuarios[i]` is supplied and exists. */
  predicate EncargadosEncontrados(cantidadGrupos: int, usuarios: seq<ObjectId>, usuariosExistentes: set<ObjectId>)
  {
    forall i :: 0 <= i < cantidadGrupos ==> i < |usuarios| && usuarios[i] in usuariosExistentes
  }

  /** The first `n` groups the loop pushes: group i is "Grupo i+1", led by `usuarios[i]`,
      with `_id` `ids[i]`, an empty roster and the schema's default caches. */
  function GruposNuevos(n: nat, usuarios: seq<ObjectId>, ids: seq<ObjectId>): seq<Grupo>
    requires n <= |usuarios| && n <= |ids|
  {
    seq(n, i requires 0 <= i < n => GrupoNuevo(ids[i], NombreGrupo(i), usuarios[i]))
  }

  /** A freshly built group list passes the schema, and gives its groups distinct names and,
      from distinct `_id`s, distinct ids. */
  lemma GruposNuevosValidos(n: nat, usuarios: seq<ObjectId>, ids: seq<ObjectId>)
    requires n <= |usuarios| && n <= |ids| && SinRepetidos(ids)
    ensures forall g :: g in GruposNuevos(n, usuarios, ids) ==> GrupoValido(g) && g.estudiantes == []
    ensures GruposConIdsDistintos(GruposNuevos(n, usuarios, ids))
    ensures forall i, j :: 0 <= i < j < n ==>
              GruposNuevos(n, usuarios, ids)[i].nombre != GruposNuevos(n, usuarios, ids)[j].nombre
  {
    forall i, j | 0 <= i < j < n
      ensures GruposNuevos(n, usuarios, ids)[i].nombre != GruposNuevos(n, usuarios, ids)[j].nombre
    {
      NombresDeGrupoDistintos(i, j);
    }
  }

  /** The group-building loop. It stops with 404 at the first `usuarios[i]` that is missing or
      names no user, so no partial list escapes; otherwise it yields exactly the requested
      number of new groups. `ids` are the `_id`s Mongoose gives the new groups. */
  method ConstruirGrupos(cantidadGrupos: int, usuarios: seq<ObjectId>, usuariosExistentes: set<ObjectId>,
                         ids: seq<ObjectId>)
    returns (r: Resultado<seq<Grupo>>)
    requires cantidadGrupos <= |ids|
    ensures r.Exito? <==> EncargadosEncontrados(cantidadGrupos, usuarios, usuariosExistentes)
    ensures r.Fallo? ==> r.estado == NoEncontrado
    ensures r.Exito? ==> CantidadDeGrupos(cantidadGrupos) <= |usuarios|
    ensures r.Exito? ==> r.valor == GruposNuevos(CantidadDeGrupos(cantidadGrupos), usuarios, ids)
  {
    var grupos: seq<Grupo> := [];
    var i := 0;
    while i < cantidadGrupos
      invariant 0 <= i <= CantidadDeGrupos(cantidadGrupos)
      invariant |grupos| == i
      invariant forall k :: 0 <= k < i ==>
                  k < |usuarios| && usuarios[k] in usuariosExistentes &&
                  grupos[k] == GrupoNuevo(ids[k], NombreGrupo(k), usuarios[k])
    {
      if i >= |usuarios| || usuarios[i] !in usuariosExistentes {
        return Fallo(NoEncontrado);
      }
      grupos := grupos + [GrupoNuevo(ids[i], NombreGrupo(i), usuarios[i])];
      i := i + 1;
    }
    if i > 0 {
      // Instantiates the loop invariant at the last group built, which gives i - 1 < |usuarios|.
      assert grupos[i - 1].id == ids[i - 1];
    }
    return Exito(grupos);
  }

  // ---------------------------------------------------------------------------
  // importStudentsToGroup after the sheet is parsed (99-105).
  // ---------------------------------------------------------------------------

  /** Row 0 names the columns "documento" and "nombre", in any case. A sheet with no rows,
      or a header row with fewer than two cells, makes the check itself throw. */
  predicate EncabezadoValido(data: seq<seq<string>>)
  {
    |data| > 0 && |data[0]| >= 2 &&
    Minusculas(data[0][1]) == "nombre" && Minusculas(data[0][0]) == "documento"
  }

  /** `row[k]`; a missing cell reads as "", which the schema refuses just as it refuses undefined. */
  function Celda(fila: seq<string>, k: nat): string
  {
    if k < |fila| then fila[k] else ""
  }

  /** `rows.map(row => ({ nombre: row[1], documento: row[0], notas: [] }))`. */
  function FilasAEstudiantes(filas: seq<seq<string>>, ids: seq<ObjectId>): (r: seq<Estudiante>)
    requires |filas| <= |ids|
    ensures |r| == |filas|
    ensures forall k :: 0 <= k < |filas| ==>
              r[k] == EstudianteNuevo(ids[k], Celda(filas[k], 0), Celda(filas[k], 1))
  {
    if filas == [] then []
    else [EstudianteNuevo(ids[0], Celda(filas[0], 0), Celda(filas[0], 1))] + FilasAEstudiantes(filas[1..], ids[1..])
  }

  /** The import merge: a bad header throws (answered with 500) and the roster stays as it
      was; otherwise every later row is appended, in row order, after the untouched
      existing students, with nothing deduplicated. */
  function Importar(estudiantes: seq<Estudiante>, data: seq<seq<string>>, ids: seq<ObjectId>)
    : (r: Resultado<seq<Estudiante>>)
    requires |data| <= |ids| + 1
    ensures r.Exito? <==> EncabezadoValido(data)
    ensures r.Fallo? ==> r.estado == ErrorServidor
    ensures r.Exito? ==> |r.valor| == |estudiantes| + |data| - 1 && r.valor[..|estudiantes|] == estudiantes
    ensures r.Exito? ==> forall k :: 0 <= k < |data| - 1 ==>
              r.valor[|estudiantes| + k] == EstudianteNuevo(ids[k], Celda(data[k + 1], 0), Celda(data[k + 1], 1))
  {
    if !EncabezadoValido(data) then Fallo(ErrorServidor)
    else Exito(estudiantes + FilasAEstudiantes(data[1..], ids))
  }

  /** The imported roster passes the schema exactly when every data row has a non-empty
      document and name. */
  lemma ImportacionValida(estudiantes: seq<Estudiante>, data: seq<seq<string>>, ids: seq<ObjectId>)
    requires |data| <= |ids| + 1
    requires forall e :: e in estudiantes ==> EstudianteValido(e)
    requires Importar(estudiantes, data, ids).Exito?
    ensures (forall e :: e in Importar(estudiantes, data, ids).valor ==> EstudianteValido(e)) <==>
              forall k :: 1 <= k < |data| ==> Celda(data[k], 0) != "" && Celda(data[k], 1) != ""
  {
    var r := Importar(estudiantes, data, ids).valor;
    if forall e :: e in r ==> EstudianteValido(e) {
      forall k | 1 <= k < |data| ensures Celda(data[k], 0) != "" && Celda(data[k], 1) != "" {
        assert r[|estudiantes| + k - 1] in r;
      }
    }
    if forall k :: 1 <= k < |data| ==> Celda(data[k], 0) != "" && Celda(data[k], 1) != "" {
      forall e | e in r ensures EstudianteValido(e) {
        var i :| 0 <= i < |r| && r[i] == e;
        if i < |estudiantes| {
          assert r[..|estudiantes|][i] == e;
        } else {
          assert r[|estudiantes| + (i - |estudiantes|)] == e;
        }
      }
    }
  }

  /** Freshly assigned `_id`s keep a roster's ids pairwise different. */
  lemma ImportacionConservaIds(estudiantes: seq<Estudiante>, data: seq<seq<string>>, ids: seq<ObjectId>)
    requires |data| <= |ids| + 1
    requires IdsDistintos(estudiantes) && IdsFrescos(ids, IdsDe(estudiantes))
    requires Importar(estudiantes, data, ids).Exito?
    ensures IdsDistintos(Importar(estudiantes, data, ids).valor)
  {
    var r := Importar(estudiantes, data, ids).valor;
    var n := |estudiantes|;
    forall i, j | 0 <= i < j < |r| ensures r[i].id != r[j].id {
      if j < n {
        assert r[i] == estudiantes[i] && r[j] == estudiantes[j];
      } else if i < n {
        assert r[i] == estudiantes[i];
        assert r[j].id == ids[j - n];
        assert estudiantes[i] in estudiantes;
      } else {
        assert r[i].id == ids[i - n] && r[j].id == ids[j - n];
      }
    }
  }

  /** A header `Documento, Nombre` and two rows append exactly two students with no grades. */
  lemma EjemploImportacion(previos: seq<Estudiante>)
    ensures var data := [["Documento", "Nombre"], ["123", "Ana"], ["456", "Luis"]];
            Importar(previos, data, [41, 42]) ==
              Exito(previos + [EstudianteNuevo(41, "123", "Ana"), EstudianteNuevo(42, "456", "Luis")])
  {
    var data := [["Documento", "Nombre"], ["123", "Ana"], ["456", "Luis"]];
    assert Minusculas("Documento") == "documento";
    assert Minusculas("Nombre") == "nombre";
    var r := Importar(previos, data, [41, 42]).valor;
    assert r == previos + [EstudianteNuevo(41, "123", "Ana"), EstudianteNuevo(42, "456", "Luis")];
  }

  // ---------------------------------------------------------------------------
  // createStudent after the field check (357-370).
  // ---------------------------------------------------------------------------

  /** `grupo.estudiantes.find(est => est.documento === documento)` finds a student. */
  function TieneDocumento(es: seq<Estudiante>, documento: string): (b: bool)
    ensures b <==> exists k :: 0 <= k < |es| && es[k].documento == documento
  {
    if es == [] then false
    else es[0].documento == documento || TieneDocumento(es[1..], documento)
  }

  /** A document already in the group is refused with 400 and nothing changes; otherwise
      exactly one student with no grades is appended at the end. */
  function AgregarEstudiante(es: seq<Estudiante>, documento: string, nombre: string, id: ObjectId)
    : (r: Resultado<seq<Estudiante>>)
    ensures r.Fallo? <==> exists k :: 0 <= k < |es| && es[k].documento == documento
    ensures r.Fallo? ==> r.estado == SolicitudInvalida
    ensures r.Exito? ==> r.valor == es + [EstudianteNuevo(id, documento, nombre)]
  {
    if TieneDocumento(es, documento) then Fallo(SolicitudInvalida)
    else Exito(es + [EstudianteNuevo(id, documento, nombre)])
  }

  predicate DocumentosDistintos(es: seq<Estudiante>)
  {
    forall i, j :: 0 <= i < j < |es| ==> es[i].documento != es[j].documento
  }

  /** Single-student creation never introduces a duplicate document. */
  lemma AgregarConservaDocumentosDistintos(es: seq<Estudiante>, documento: string, nombre: string, id: ObjectId)
    requires DocumentosDistintos(es)
    requires AgregarEstudiante(es, documento, nombre, id).Exito?
    ensures DocumentosDistintos(AgregarEstudiante(es, documento, nombre, id).valor)
  {
    var r := AgregarEstudiante(es, documento, nombre, id).valor;
    forall i, j | 0 <= i < j < |r| ensures r[i].documento != r[j].documento {
      if j == |es| {
        assert r[i] == es[i];
      } else {
        assert r[i] == es[i] && r[j] == es[j];
      }
    }
  }

  // ---------------------------------------------------------------------------
  // createOrUpdateStudent (392-423).
  // ---------------------------------------------------------------------------

  /** One element of the request's `notas`: its `_id`, `ra` and `nota`, each possibly absent
      (for `_id` and `ra`, absent means falsy; for `nota`, null or undefined). */
  datatype NotaEntrada = NotaEntrada(id: Option<ObjectId>, ra: Option<ObjectId>, nota: Option<real>)

  /** The elements the map-and-filter keeps: one with an `_id` verbatim, one with a truthy
      `ra` and a non-null `nota` (a 0 counts) as `{ra, nota}`. */
  predicate SeConserva(n: NotaEntrada)
  {
    n.id.Some? || (n.ra.Some? && n.nota.Some?)
  }

  /** `notas.map(...).filter(nota => nota)`: the kept elements, in order. */
  function Depurar(notas: seq<NotaEntrada>): (r: seq<NotaEntrada>)
    ensures |r| <= |notas|
    ensures forall n :: n in r ==> n in notas && SeConserva(n)
    ensures forall n :: n in notas && SeConserva(n) ==> n in r
  {
    if notas == [] then []
    else (if SeConserva(notas[0]) then [notas[0]] else []) + Depurar(notas[1..])
  }

  /** The map-and-filter keeps the request's order: it works element by element. */
  lemma {:induction false} DepurarConcatena(a: seq<NotaEntrada>, b: seq<NotaEntrada>)
    ensures Depurar(a + b) == Depurar(a) + Depurar(b)
  {
    if a == [] {
      assert a + b == b;
    } else {
      assert (a + b)[1..] == a[1..] + b;
      assert (a + b)[0] == a[0];
      DepurarConcatena(a[1..], b);
    }
  }

  /** A single element is kept verbatim exactly when it has an `_id`, or a `ra` and a `nota`. */
  lemma DepurarUno(n: NotaEntrada)
    ensures Depurar([n]) == (if SeConserva(n) then [n] else [])
  {
    assert [n][1..] == [];
  }

  predicate Completa(n: NotaEntrada)
  {
    n.ra.Some? && n.nota.Some?
  }

  /** What `save()` makes of a list of grades: every one needs its required `ra` and `nota`,
      or validation fails. */
  function AGuardar(notas: seq<NotaEntrada>): (r: Option<seq<Nota>>)
    ensures r.Some? <==> forall k :: 0 <= k < |notas| ==> Completa(notas[k])
    ensures r.Some? ==> |r.value| == |notas|
    ensures r.Some? ==> forall k :: 0 <= k < |notas| ==> r.value[k] == Nota(notas[k].ra.value, notas[k].nota.value)
  {
    if notas == [] then Some([])
    else if !Completa(notas[0]) then None
    else match AGuardar(notas[1..])
         case None => None
         case Some(resto) => Some([Nota(notas[0].ra.value, notas[0].nota.value)] + resto)
  }

  /** The kept grades save exactly when every element carrying an `_id` also has a `ra` and
      a `nota`; elements without `_id` that lack either are silently dropped. */
  lemma DepuradasSeGuardan(notas: seq<NotaEntrada>)
    ensures AGuardar(Depurar(notas)).Some? <==> forall n :: n in notas && n.id.Some? ==> Completa(n)
  {
    var d := Depurar(notas);
    if forall n :: n in notas && n.id.Some? ==> Completa(n) {
      forall n | n in d ensures Completa(n) {
        assert n in notas && SeConserva(n);
      }
    }
  }

  /** The update of an existing student: a non-empty `nombre` or `documento` replaces the old
      one; a supplied `notas` list replaces the grades entirely by its kept elements; an absent
      `notas` leaves them untouched. None when the replaced grades fail validation. */
  function ActualizarEstudiante(e: Estudiante, documento: string, nombre: string, notas: Option<seq<NotaEntrada>>)
    : (r: Option<Estudiante>)
    ensures r.Some? <==> notas.None? || AGuardar(Depurar(notas.value)).Some?
    ensures r.Some? ==> r.value.id == e.id
    ensures r.Some? ==> r.value.nombre == (if nombre != "" then nombre else e.nombre)
    ensures r.Some? ==> r.value.documento == (if documento != "" then documento else e.documento)
    ensures r.Some? && notas.None? ==> r.value.notas == e.notas
    ensures r.Some? && notas.Some? ==> r.value.notas == AGuardar(Depurar(notas.value)).value
  {
    var conNombre := e.(nombre := if nombre != "" then nombre else e.nombre);
    var conDocumento := conNombre.(documento := if documento != "" then documento else e.documento);
    match notas
    case None => Some(conDocumento)
    case Some(lista) =>
      match AGuardar(Depurar(lista))
      case None => None
      case Some(nuevas) => Some(conDocumento.(notas := nuevas))
  }

  /** An update that supplies `notas: []` leaves the student with no grades. */
  lemma ActualizarConListaVacia(e: Estudiante, documento: string, nombre: string)
    ensures ActualizarEstudiante(e, documento, nombre, Some([])).Some?
    ensures ActualizarEstudiante(e, documento, nombre, Some([])).value.notas == []
  {
  }

  /** A student created by the upsert: both fields are required (400), and `notas || []` is
      stored unfiltered, so an incomplete grade fails the save (500). */
  function EstudianteCreado(id: ObjectId, documento: string, nombre: string, notas: Option<seq<NotaEntrada>>)
    : (r: Resultado<Estudiante>)
    ensures (documento == "" || nombre == "") ==> r == Fallo(SolicitudInvalida)
    ensures documento != "" && nombre != "" ==>
              (r.Fallo? <==> notas.Some? && exists n :: n in notas.value && !Completa(n))
    ensures documento != "" && nombre != "" && r.Fallo? ==> r.estado == ErrorServidor
    ensures r.Exito? ==> r.valor.id == id && r.valor.documento == documento && r.valor.nombre == nombre
    ensures r.Exito? ==> r.valor.notas == (if notas.None? then [] else AGuardar(notas.value).value)
  {
    if documento == "" || nombre == "" then Fallo(SolicitudInvalida)
    else
      match notas
      case None => Exito(Estudiante(id, documento, nombre, []))
      case Some(lista) =>
        match AGuardar(lista)
        case None => Fallo(ErrorServidor)
        case Some(guardadas) => Exito(Estudiante(id, documento, nombre, guardadas))
  }

  // ---------------------------------------------------------------------------
  // deleteStudentFromGroup (321-326).
  // ---------------------------------------------------------------------------

  /** `findIndex` then `splice(index, 1)`: 404 when no student has the id; otherwise the
      first such student is gone and the others keep their relative order. */
  function EliminarEstudiante(es: seq<Estudiante>, id: ObjectId): (r: Resultado<seq<Estudiante>>)
    ensures r.Fallo? <==> forall j :: 0 <= j < |es| ==> es[j].id != id
    ensures r.Fallo? ==> r.estado == NoEncontrado
    ensures r.Exito? ==> |r.valor| == |es| - 1
    ensures r.Exito? ==> var k := IndiceEstudiante(es, id);
              (forall j :: 0 <= j < k ==> r.valor[j] == es[j]) &&
              (forall j :: k <= j < |r.valor| ==> r.valor[j] == es[j + 1])
  {
    var k := IndiceEstudiante(es, id);
    if k == -1 then Fallo(NoEncontrado) else Exito(es[..k] + es[k + 1..])
  }

  /** On a roster with distinct `_id`s the removal takes out exactly the student with that id. */
  lemma EliminarConIdsDistintos(es: seq<Estudiante>, id: ObjectId)
    requires IdsDistintos(es)
    requires EliminarEstudiante(es, id).Exito?
    ensures forall e :: e in EliminarEstudiante(es, id).valor <==> e in es && e.id != id
    ensures IdsDistintos(EliminarEstudiante(es, id).valor)
    ensures multiset(EliminarEstudiante(es, id).valor) + multiset{es[IndiceEstudiante(es, id)]} == multiset(es)
  {
    var k := IndiceEstudiante(es, id);
    var r := EliminarEstudiante(es, id).valor;
    assert es == es[..k] + [es[k]] + es[k + 1..];
    assert r == es[..k] + es[k + 1..];
    forall e | e in r ensures e in es && e.id != id {
      var j :| 0 <= j < |r| && r[j] == e;
      if j < k { assert es[j] == e; } else { assert es[j + 1] == e; }
    }
    forall e | e in es && e.id != id ensures e in r {
      var j :| 0 <= j < |es| && es[j] == e;
      if j < k { assert r[j] == e; } else { assert j != k; assert r[j - 1] == e; }
    }
    forall i, j | 0 <= i < j < |r| ensures r[i].id != r[j].id {
      var i', j' := if i < k then i else i + 1, if j < k then j else j + 1;
      assert r[i] == es[i'] && r[j] == es[j'];
    }
  }

  // ---------------------------------------------------------------------------
  // The sort of getGrupoByPruebaIdAndGrupoId (69).
  // ---------------------------------------------------------------------------

  /** An order on names in which any two names compare (as `localeCompare(a, b) <= 0` does). */
  ghost predicate Total(le: (string, string) -> bool)
  {
    forall a, b :: le(a, b) || le(b, a)
  }

  predicate OrdenadaPorNombre(es: seq<Estudiante>, le: (string, string) -> bool)
  {
    forall i :: 0 < i < |es| ==> le(es[i - 1].nombre, es[i].nombre)
  }

  function Insertar(e: Estudiante, es: seq<Estudiante>, le: (string, string) -> bool): (r: seq<Estudiante>)
    requires Total(le) && OrdenadaPorNombre(es, le)
    ensures OrdenadaPorNombre(r, le)
    ensures multiset(r) == multiset(es) + multiset{e}
    ensures |r| == |es| + 1 && (r[0] == e || (es != [] && r[0] == es[0]))
  {
    if es == [] then [e]
    else if le(e.nombre, es[0].nombre) then [e] + es
    else
      assert es == [es[0]] + es[1..];
      [es[0]] + Insertar(e, es[1..], le)
  }

  /** The students ordered by name, as a permutation of the roster. */
  function OrdenarPorNombre(es: seq<Estudiante>, le: (string, string) -> bool): (r: seq<Estudiante>)
    requires Total(le)
    ensures OrdenadaPorNombre(r, le)
    ensures multiset(r) == multiset(es)
  {
    if es == [] then []
    else
      assert es == [es[0]] + es[1..];
      Insertar(es[0], OrdenarPorNombre(es[1..], le), le)
  }
}
