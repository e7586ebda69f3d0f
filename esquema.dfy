/** The assessment document of models/Prueba.js: an assessment ("prueba") owns its groups,
    a group owns its students, a student owns its grades. References to other collections
    (program, learning outcome, user) are kept as bare ObjectIds. */
module Esquema {

  /** A MongoDB ObjectId, compared by value. */
  type ObjectId = nat

  /** One grade: the learning outcome it measures and the numeric score. */
  datatype Nota = Nota(ra: ObjectId, nota: real)

  /** One student of a group. `id` is the subdocument's own `_id`. */
  datatype Estudiante = Estudiante(id: ObjectId, documento: string, nombre: string, notas: seq<Nota>)

  /** One cached per-outcome average of a group. */
  datatype PromedioRA = PromedioRA(ra: ObjectId, promedio: real)

  /** One group of an assessment, with its two cached averages. */
  datatype Grupo = Grupo(
    id: ObjectId,
    nombre: string,
    encargado: ObjectId,
    estudiantes: seq<Estudiante>,
    promediosRA: seq<PromedioRA>,
    promedioGrupo: real)

  /** The assessment aggregate. */
  datatype Prueba = Prueba(
    nombre: string,
    programa: ObjectId,
    resultadosAprendizaje: seq<ObjectId>,
    descripcion: string,
    grupos: seq<Grupo>,
    promedioPrueba: real,
    semestre: string,
    fecha: string)

  /** A student as the schema builds it from `{documento, nombre, notas: []}`. */
  function EstudianteNuevo(id: ObjectId, documento: string, nombre: string): Estudiante
  {
    Estudiante(id, documento, nombre, [])
  }

  /** A group as the schema builds it from `{nombre, encargado, estudiantes: []}`: the
      `promediosRA` array defaults to empty and `promedioGrupo` to 0. */
  function GrupoNuevo(id: ObjectId, nombre: string, encargado: ObjectId): Grupo
  {
    Grupo(id, nombre, encargado, [], [], 0.0)
  }

  /** Mongoose's `required` check on a string path: absent, null and "" are all refused. */
  predicate Requerido(s: string)
  {
    s != ""
  }

  /** The `required` constraints of one student; the grade paths are typed, so always met. */
  predicate EstudianteValido(e: Estudiante)
  {
    Requerido(e.documento) && Requerido(e.nombre)
  }

  predicate GrupoValido(g: Grupo)
  {
    Requerido(g.nombre) && forall e :: e in g.estudiantes ==> EstudianteValido(e)
  }

  /** What `prueba.save()` validates: every required string of the document and of its
      embedded groups and students is present. */
  predicate CumpleEsquema(p: Prueba)
  {
    Requerido(p.nombre) && Requerido(p.descripcion) && Requerido(p.semestre) && Requerido(p.fecha) &&
    forall g :: g in p.grupos ==> GrupoValido(g)
  }

  /** The `_id`s of a roster are pairwise different (each is a fresh ObjectId). */
  predicate IdsDistintos(es: seq<Estudiante>)
  {
    forall i, j :: 0 <= i < j < |es| ==> es[i].id != es[j].id
  }

  predicate GruposConIdsDistintos(gs: seq<Grupo>)
  {
    (forall i, j :: 0 <= i < j < |gs| ==> gs[i].id != gs[j].id) &&
    forall g :: g in gs ==> IdsDistintos(g.estudiantes)
  }

  /** Every subdocument `_id` in use in an assessment. */
  function IdsUsados(p: Prueba): set<ObjectId>
  {
    (set g | g in p.grupos :: g.id) + (set g, e | g in p.grupos && e in g.estudiantes :: e.id)
  }
}
