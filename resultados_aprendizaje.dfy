/** The learning outcomes of controllers/resultadoAprendizajeController.js: the list of
    programs an outcome belongs to, as created, extended and pruned by the handlers. */
module ResultadosAprendizaje {
  import opened Esquema
  import opened Respuestas
  import opened Consultas

  /** The stored outcome document (models/ResultadoAprendizaje.js). */
  class ResultadoAprendizaje {
    var nombre: string
    var facultad: string
    var descripcion: string
    var programas: seq<ObjectId>

    /** What `save()` validation demands of an outcome: the three required strings. */
    predicate CumpleEsquema()
      reads this
    {
      Requerido(nombre) && Requerido(facultad) && Requerido(descripcion)
    }

    /** An outcome as create leaves it: it passes validation and lists each program once.
        The program handlers keep the second half; the first can be undone by
        updateResultadoAprendizaje, whose `findByIdAndUpdate` runs no validators. */
    ghost predicate Valid()
      reads this
    {
      CumpleEsquema() && SinRepetidos(programas)
    }

    constructor (nombre: string, facultad: string, descripcion: string, programas: seq<ObjectId>)
      ensures this.nombre == nombre && this.facultad == facultad && this.descripcion == descripcion
      ensures this.programas == programas
    {
      this.nombre, this.facultad, this.descripcion, this.programas := nombre, facultad, descripcion, programas;
    }
  }

  /** `programIds` in a request body: either a list or a single id. */
  datatype IdsProgramas = Varios(ids: seq<ObjectId>) | Uno(id: ObjectId)

  /** `Array.isArray(programIds) ? programIds : [programIds]`. */
  function ComoLista(p: IdsProgramas): (r: seq<ObjectId>)
    ensures p.Uno? ==> r == [p.id] && |r| == 1
    ensures p.Varios? ==> r == p.ids
  {
    match p
    case Varios(ids) => ids
    case Uno(id) => [id]
  }

  // ---------------------------------------------------------------------------
  // createResultadoAprendizaje (7-34)
  // ---------------------------------------------------------------------------

  /** The `programas` a new outcome gets, as the handler is written: a non-empty list reaches
      `Program.find({ _id: { $in: Programa } })`, whose `Programa` is not defined in the
      file, so the request fails with a server error before any lookup. */
  function ProgramasAlCrearComoEscrito(programas: Option<seq<ObjectId>>): (r: Resultado<seq<ObjectId>>)
    ensures r.Fallo? <==> programas.Some? && |programas.value| > 0
    ensures r.Fallo? ==> r.estado == ErrorServidor
    ensures r.Exito? ==> r.valor == []
  {
    if programas.Some? && |programas.value| > 0 then Fallo(ErrorServidor)
    else Exito([])
  }

  /** The evidently intended check: a non-empty list passes when every program exists and
      none is repeated (404 otherwise); an omitted list becomes `[]`. */
  function ProgramasAlCrear(programas: Option<seq<ObjectId>>, existentes: set<ObjectId>): (r: Resultado<seq<ObjectId>>)
    ensures r.Fallo? ==> r.estado == NoEncontrado
    ensures programas.None? ==> r == Exito([])
    ensures programas.Some? ==>
              (r.Exito? <==> SinRepetidos(programas.value) && forall x :: x in programas.value ==> x in existentes)
    ensures r.Exito? ==> SinRepetidos(r.valor) && forall x :: x in r.valor ==> x in existentes
    ensures programas.Some? && r.Exito? ==> r.valor == programas.value
  {
    if programas.None? then Exito([])
    else
      TodosEncontrados(programas.value, existentes);
      if |programas.value| > 0 && CantidadEncontrada(programas.value, existentes) != |programas.value| then
        Fallo(NoEncontrado)
      else Exito(programas.value)
  }

  /** The discrepancy: a request naming one existing program is refused with a server
      error as written, and accepted by the intended check. */
  lemma CrearConProgramasFalla(programa: ObjectId, existentes: set<ObjectId>)
    requires programa in existentes
    ensures ProgramasAlCrearComoEscrito(Some([programa])) == Fallo(ErrorServidor)
    ensures ProgramasAlCrear(Some([programa]), existentes) == Exito([programa])
  {
  }

  /** The two agree exactly when no program list is given. */
  lemma CrearSinProgramasCoincide(programas: Option<seq<ObjectId>>, existentes: set<ObjectId>)
    requires programas.None? || programas.value == []
    ensures ProgramasAlCrearComoEscrito(programas) == ProgramasAlCrear(programas, existentes) == Exito([])
  {
  }

  /** Creates an outcome: 404 when a program is not found, 500 when a required field is
      missing, otherwise a new outcome whose `programas` is the given list or `[]`. */
  method CrearResultadoAprendizaje(nombre: string, facultad: string, descripcion: string,
                                   programas: Option<seq<ObjectId>>, existentes: set<ObjectId>)
    returns (estado: Estado, ra: ResultadoAprendizaje?)
    ensures ra != null <==> estado == Creado
    ensures estado == NoEncontrado <==> ProgramasAlCrear(programas, existentes).Fallo?
    ensures estado == ErrorServidor <==>
              ProgramasAlCrear(programas, existentes).Exito? && (nombre == "" || facultad == "" || descripcion == "")
    ensures estado in {Creado, NoEncontrado, ErrorServidor}
    ensures ra != null ==> fresh(ra) && ra.Valid() && ra.nombre == nombre && ra.facultad == facultad &&
                           ra.descripcion == descripcion &&
                           ra.programas == (if programas.Some? then programas.value else [])
  {
    var lista := ProgramasAlCrear(programas, existentes);
    if lista.Fallo? {
      return lista.estado, null;
    }
    if !(Requerido(nombre) && Requerido(facultad) && Requerido(descripcion)) {
      return ErrorServidor, null;
    }
    ra := new ResultadoAprendizaje(nombre, facultad, descripcion, lista.valor);
    estado := Creado;
  }

  // ---------------------------------------------------------------------------
  // addProgramToRA (37-75)
  // ---------------------------------------------------------------------------

  /** `programIdsArray.filter(id => !programas.includes(id))`: the requested ids not
      already listed, in request order. */
  function NoPresentes(ids: seq<ObjectId>, programas: seq<ObjectId>): (r: seq<ObjectId>)
    ensures forall x :: x in r <==> x in ids && x !in programas
    ensures |r| <= |ids|
    ensures SinRepetidos(ids) ==> SinRepetidos(r)
  {
    if ids == [] then []
    else
      var resto := NoPresentes(ids[1..], programas);
      assert ids == [ids[0]] + ids[1..];
      SinRepetidosCons(ids[0], ids[1..]);
      if ids[0] in programas then resto
      else
        SinRepetidosCons(ids[0], resto);
        [ids[0]] + resto
  }

  /** The filter keeps request order: it works id by id. */
  lemma {:induction false} NoPresentesConcatena(a: seq<ObjectId>, b: seq<ObjectId>, programas: seq<ObjectId>)
    ensures NoPresentes(a + b, programas) == NoPresentes(a, programas) + NoPresentes(b, programas)
  {
    if a == [] {
      assert a + b == b;
    } else {
      assert (a + b)[1..] == a[1..] + b;
      assert (a + b)[0] == a[0];
      NoPresentesConcatena(a[1..], b, programas);
    }
  }

  /** A single requested id is kept exactly when it is not yet listed. */
  lemma NoPresentesUno(id: ObjectId, programas: seq<ObjectId>)
    ensures NoPresentes([id], programas) == (if id in programas then [] else [id])
  {
    assert [id][1..] == [];
  }

  /** After appending the new ids, every requested id is listed. */
  lemma AgregarListaTodos(programas: seq<ObjectId>, ids: seq<ObjectId>)
    ensures forall x :: x in ids ==> x in programas + NoPresentes(ids, programas)
  {
    forall x | x in ids ensures x in programas + NoPresentes(ids, programas) {
      if x !in programas { assert x in NoPresentes(ids, programas); }
    }
  }

  /** Appending the new ids to a list without repetitions keeps it without repetitions. */
  lemma AgregarSinRepetidos(programas: seq<ObjectId>, ids: seq<ObjectId>)
    requires SinRepetidos(programas) && SinRepetidos(ids)
    ensures SinRepetidos(programas + NoPresentes(ids, programas))
  {
    var nuevos := NoPresentes(ids, programas);
    var r := programas + nuevos;
    forall i, j | 0 <= i < j < |r| ensures r[i] != r[j] {
      if j < |programas| {
      } else if i < |programas| {
        assert r[j] == nuevos[j - |programas|] && r[j] in nuevos;
      } else {
        assert r[i] == nuevos[i - |programas|] && r[j] == nuevos[j - |programas|];
      }
    }
  }

  /** Adds programs to an outcome: 404 for a missing outcome, or when a requested program is
      not found or is requested twice; 400 when all of them are already listed; 500 when the
      save fails because a required field of the stored outcome is empty; otherwise the ids
      not yet listed are appended in request order and the old list stays as a prefix. */
  method AgregarProgramasARA(ra: ResultadoAprendizaje?, programIds: IdsProgramas, existentes: set<ObjectId>)
    returns (estado: Estado)
    modifies ra
    ensures ra == null ==> estado == NoEncontrado
    ensures ra != null && estado != Ok ==> unchanged(ra)
    ensures estado in {Ok, NoEncontrado, SolicitudInvalida, ErrorServidor}
    ensures ra != null ==>
              var lista := ComoLista(programIds);
              var encontrados := SinRepetidos(lista) && forall x :: x in lista ==> x in existentes;
              var yaListados := forall x :: x in lista ==> x in old(ra.programas);
              (estado == NoEncontrado <==> !encontrados) &&
              (estado == SolicitudInvalida <==> encontrados && yaListados) &&
              (estado == ErrorServidor <==> encontrados && !yaListados && !old(ra.CumpleEsquema())) &&
              (estado == Ok ==> ra.programas == old(ra.programas) + NoPresentes(lista, old(ra.programas)) &&
                                |ra.programas| > |old(ra.programas)| &&
                                (forall x :: x in lista ==> x in ra.programas) &&
                                ra.nombre == old(ra.nombre) && ra.facultad == old(ra.facultad) &&
                                ra.descripcion == old(ra.descripcion))
    ensures ra != null && old(SinRepetidos(ra.programas)) ==> SinRepetidos(ra.programas)
    ensures ra != null && old(ra.Valid()) ==> ra.Valid()
  {
    if ra == null {
      return NoEncontrado;
    }
    var lista := ComoLista(programIds);
    TodosEncontrados(lista, existentes);
    if CantidadEncontrada(lista, existentes) != |lista| {
      return NoEncontrado;
    }
    var nuevos := NoPresentes(lista, ra.programas);
    if |nuevos| == 0 {
      assert nuevos == [];
      return SolicitudInvalida;
    }
    assert exists x :: x in lista && x !in ra.programas by {
      assert nuevos[0] in nuevos;
    }
    if !ra.CumpleEsquema() {
      return ErrorServidor;
    }
    AgregarListaTodos(ra.programas, lista);
    if SinRepetidos(ra.programas) {
      AgregarSinRepetidos(ra.programas, lista);
    }
    ra.programas := ra.programas + nuevos;
    estado := Ok;
  }

  // ---------------------------------------------------------------------------
  // removeProgramFromRA (179-209)
  // ---------------------------------------------------------------------------

  /** `programas.filter(p => !ids.some(id => id.equals(p)))`. */
  function QuitarProgramas(programas: seq<ObjectId>, ids: seq<ObjectId>): (r: seq<ObjectId>)
    ensures forall x :: x in r <==> x in programas && x !in ids
    ensures |r| <= |programas|
  {
    if programas == [] then []
    else
      var resto := QuitarProgramas(programas[1..], ids);
      assert programas == [programas[0]] + programas[1..];
      if programas[0] in ids then resto else [programas[0]] + resto
  }

  /** Filtering distributes over concatenation: kept entries stay in their original order. */
  lemma {:induction false} QuitarConcatena(a: seq<ObjectId>, b: seq<ObjectId>, ids: seq<ObjectId>)
    ensures QuitarProgramas(a + b, ids) == QuitarProgramas(a, ids) + QuitarProgramas(b, ids)
  {
    if a == [] {
      assert a + b == b;
    } else {
      assert (a + b)[1..] == a[1..] + b;
      assert (a + b)[0] == a[0];
      QuitarConcatena(a[1..], b, ids);
    }
  }

  /** Removing ids none of which is listed changes nothing. */
  lemma {:induction false} QuitarAusentes(programas: seq<ObjectId>, ids: seq<ObjectId>)
    requires forall x :: x in ids ==> x !in programas
    ensures QuitarProgramas(programas, ids) == programas
  {
    if programas != [] {
      assert programas[0] in programas;
      assert forall x :: x in programas[1..] ==> x in programas;
      QuitarAusentes(programas[1..], ids);
      assert programas == [programas[0]] + programas[1..];
    }
  }

  /** Repeating a removal changes nothing more. */
  lemma QuitarIdempotente(programas: seq<ObjectId>, ids: seq<ObjectId>)
    ensures QuitarProgramas(QuitarProgramas(programas, ids), ids) == QuitarProgramas(programas, ids)
  {
    QuitarAusentes(QuitarProgramas(programas, ids), ids);
  }

  /** Removal keeps a list without repetitions without repetitions. */
  lemma {:induction false} QuitarSinRepetidos(programas: seq<ObjectId>, ids: seq<ObjectId>)
    requires SinRepetidos(programas)
    ensures SinRepetidos(QuitarProgramas(programas, ids))
  {
    if programas != [] {
      assert programas == [programas[0]] + programas[1..];
      SinRepetidosCons(programas[0], programas[1..]);
      QuitarSinRepetidos(programas[1..], ids);
      SinRepetidosCons(programas[0], QuitarProgramas(programas[1..], ids));
    }
  }

  /** Removes programs from an outcome: 404 for a missing outcome; 500 when the save fails
      because a required field of the stored outcome is empty; otherwise `programas` becomes
      the old entries equal to none of the requested ids, in their original order. */
  method QuitarProgramasDeRA(ra: ResultadoAprendizaje?, programIds: IdsProgramas) returns (estado: Estado)
    modifies ra
    ensures ra == null ==> estado == NoEncontrado
    ensures ra != null ==> (estado == Ok <==> old(ra.CumpleEsquema()))
    ensures ra != null && estado != Ok ==> estado == ErrorServidor && unchanged(ra)
    ensures ra != null && estado == Ok ==>
              ra.programas == QuitarProgramas(old(ra.programas), ComoLista(programIds)) &&
              ra.nombre == old(ra.nombre) && ra.facultad == old(ra.facultad) &&
              ra.descripcion == old(ra.descripcion)
    ensures ra != null && old(SinRepetidos(ra.programas)) ==> SinRepetidos(ra.programas)
    ensures ra != null && old(ra.Valid()) ==> ra.Valid()
  {
    if ra == null {
      return NoEncontrado;
    }
    if !ra.CumpleEsquema() {
      return ErrorServidor;
    }
    if SinRepetidos(ra.programas) {
      QuitarSinRepetidos(ra.programas, ComoLista(programIds));
    }
    ra.programas := QuitarProgramas(ra.programas, ComoLista(programIds));
    estado := Ok;
  }
}
