/** The three-tier averaging of controllers/pruebaController.js: per learning outcome
    within a group, per group, and per assessment, and the recompute that writes them into
    the cached fields. Grades are exact reals and every average is an exact quotient. */
module Promedios {
  import opened Esquema

  // ---------------------------------------------------------------------------
  // Reference definitions: flat sequences of grades and their arithmetic mean.
  // ---------------------------------------------------------------------------

  /** Every grade of every student, in roster order. */
  function Notas(estudiantes: seq<Estudiante>): seq<Nota>
  {
    if estudiantes == [] then [] else estudiantes[0].notas + Notas(estudiantes[1..])
  }

  /** Every grade of every student of every group, in order. */
  function NotasDeGrupos(grupos: seq<Grupo>): seq<Nota>
  {
    if grupos == [] then [] else Notas(grupos[0].estudiantes) + NotasDeGrupos(grupos[1..])
  }

  /** The grades, among `notas`, that measure learning outcome `ra`, in order. */
  function DeRA(notas: seq<Nota>, ra: ObjectId): (r: seq<Nota>)
    ensures |r| <= |notas|
    ensures forall k :: 0 <= k < |r| ==> r[k].ra == ra
    ensures forall n :: n in notas && n.ra == ra ==> n in r
  {
    if notas == [] then []
    else (if notas[0].ra == ra then [notas[0]] else []) + DeRA(notas[1..], ra)
  }

  function Suma(notas: seq<Nota>): real
  {
    if notas == [] then 0.0 else notas[0].nota + Suma(notas[1..])
  }

  /** The arithmetic mean of the scores; 0 for no grades. */
  function Media(notas: seq<Nota>): real
  {
    if |notas| == 0 then 0.0 else Suma(notas) / (|notas| as real)
  }

  /** The per-outcome average of a group, as a flat mean. */
  function PromedioDeRA(g: Grupo, ra: ObjectId): real
  {
    Media(DeRA(Notas(g.estudiantes), ra))
  }

  /** The assessment average, as a flat mean over every grade of every group. */
  function PromedioDePrueba(grupos: seq<Grupo>): real
  {
    Media(NotasDeGrupos(grupos))
  }

  lemma {:induction false} NotasConcat(a: seq<Estudiante>, b: seq<Estudiante>)
    ensures Notas(a + b) == Notas(a) + Notas(b)
  {
    if a != [] {
      assert (a + b)[1..] == a[1..] + b;
      NotasConcat(a[1..], b);
    } else {
      assert a + b == b;
    }
  }

  lemma NotasUltimo(a: seq<Estudiante>, i: nat)
    requires i < |a|
    ensures Notas(a[..i + 1]) == Notas(a[..i]) + a[i].notas
  {
    assert a[..i + 1] == a[..i] + [a[i]];
    NotasConcat(a[..i], [a[i]]);
    assert Notas([a[i]]) == a[i].notas + Notas([]);
  }

  /** The grades seen before a student, then that student's grades, are the grades seen
      up to and including that student. */
  lemma PasoDeEstudiante(previas: seq<Nota>, a: seq<Estudiante>, i: nat)
    requires i < |a|
    ensures (previas + Notas(a[..i])) + a[i].notas == previas + Notas(a[..i + 1])
  {
    NotasUltimo(a, i);
  }

  lemma {:induction false} NotasDeGruposConcat(a: seq<Grupo>, b: seq<Grupo>)
    ensures NotasDeGrupos(a + b) == NotasDeGrupos(a) + NotasDeGrupos(b)
  {
    if a != [] {
      assert (a + b)[1..] == a[1..] + b;
      NotasDeGruposConcat(a[1..], b);
    } else {
      assert a + b == b;
    }
  }

  lemma NotasDeGruposUltimo(a: seq<Grupo>, i: nat)
    requires i < |a|
    ensures NotasDeGrupos(a[..i + 1]) == NotasDeGrupos(a[..i]) + Notas(a[i].estudiantes)
  {
    assert a[..i + 1] == a[..i] + [a[i]];
    NotasDeGruposConcat(a[..i], [a[i]]);
    assert NotasDeGrupos([a[i]]) == Notas(a[i].estudiantes) + NotasDeGrupos([]);
  }

  lemma {:induction false} DeRAConcat(a: seq<Nota>, b: seq<Nota>, ra: ObjectId)
    ensures DeRA(a + b, ra) == DeRA(a, ra) + DeRA(b, ra)
  {
    if a != [] {
      assert (a + b)[1..] == a[1..] + b;
      DeRAConcat(a[1..], b, ra);
    } else {
      assert a + b == b;
    }
  }

  lemma {:induction false} SumaConcat(a: seq<Nota>, b: seq<Nota>)
    ensures Suma(a + b) == Suma(a) + Suma(b)
  {
    if a != [] {
      assert (a + b)[1..] == a[1..] + b;
      SumaConcat(a[1..], b);
    } else {
      assert a + b == b;
    }
  }

  /** One more grade adds its score to the sum. */
  lemma PasoDeSuma(vistas: seq<Nota>, n: Nota)
    ensures Suma(vistas + [n]) == Suma(vistas) + n.nota
  {
    SumaConcat(vistas, [n]);
    assert Suma([n]) == n.nota + Suma([]);
  }

  /** Dividing a total by a positive count and multiplying back gives the total. */
  lemma DivisionPorCantidad(total: real, cantidad: real)
    requires cantidad > 0.0
    ensures (total / cantidad) * cantidad == total
  {
  }

  /** A mean times its count is the sum: the sum/count form of every average. */
  lemma MediaPorCantidad(notas: seq<Nota>)
    ensures Media(notas) * (|notas| as real) == Suma(notas)
  {
    if |notas| > 0 {
      DivisionPorCantidad(Suma(notas), |notas| as real);
    }
  }

  /** The handlers' closing step `cantidad > 0 ? total / cantidad : 0` is the mean of the
      grades whose sum and count were accumulated. */
  lemma CocienteEsMedia(notas: seq<Nota>, total: real, cantidad: nat)
    requires total == Suma(notas) && cantidad == |notas|
    ensures (if cantidad > 0 then total / (cantidad as real) else 0.0) == Media(notas)
  {
  }

  // ---------------------------------------------------------------------------
  // calcularPromedioRA: two nested loops over mutable accumulators.
  // ---------------------------------------------------------------------------

  /** One more grade adds its score and one to the outcome's sum and count when it measures
      that outcome, and nothing otherwise. */
  lemma PasoDeRA(vistas: seq<Nota>, n: Nota, ra: ObjectId)
    ensures Suma(DeRA(vistas + [n], ra)) == Suma(DeRA(vistas, ra)) + (if n.ra == ra then n.nota else 0.0)
    ensures |DeRA(vistas + [n], ra)| == |DeRA(vistas, ra)| + (if n.ra == ra then 1 else 0)
  {
    DeRAConcat(vistas, [n], ra);
    SumaConcat(DeRA(vistas, ra), DeRA([n], ra));
    assert DeRA([n], ra) == (if n.ra == ra then [n] else []) + DeRA([], ra);
  }

  /** The per-outcome average of one group: the mean of the scores of every grade, of
      every student, whose outcome is `raId`; 0 when there is none. */
  method CalcularPromedioRA(grupo: Grupo, raId: ObjectId) returns (promedio: real)
    ensures promedio == PromedioDeRA(grupo, raId)
    ensures DeRA(Notas(grupo.estudiantes), raId) == [] ==> promedio == 0.0
  {
    var totalNotas := 0.0;
    var cantidadNotas := 0;
    ghost var vistas: seq<Nota> := [];
    var estudiantes := grupo.estudiantes;
    var i := 0;
    while i < |estudiantes|
      invariant 0 <= i <= |estudiantes|
      invariant vistas == Notas(estudiantes[..i])
      invariant totalNotas == Suma(DeRA(vistas, raId)) && cantidadNotas == |DeRA(vistas, raId)|
    {
      var notas := estudiantes[i].notas;
      ghost var previas := vistas;
      var j := 0;
      while j < |notas|
        invariant 0 <= j <= |notas|
        invariant vistas == previas + notas[..j]
        invariant totalNotas == Suma(DeRA(vistas, raId)) && cantidadNotas == |DeRA(vistas, raId)|
      {
        PasoDeRA(vistas, notas[j], raId);
        if notas[j].ra == raId {
          totalNotas := totalNotas + notas[j].nota;
          cantidadNotas := cantidadNotas + 1;
        }
        vistas := vistas + [notas[j]];
        assert notas[..j + 1] == notas[..j] + [notas[j]];
        j := j + 1;
      }
      assert notas[..j] == notas;
      NotasUltimo(estudiantes, i);
      i := i + 1;
    }
    assert estudiantes[..i] == estudiantes;
    CocienteEsMedia(DeRA(vistas, raId), totalNotas, cantidadNotas);
    promedio := if cantidadNotas > 0 then totalNotas / (cantidadNotas as real) else 0.0;
  }

  // ---------------------------------------------------------------------------
  // calcularPromedioGrupo: two `reduce` expressions.
  // ---------------------------------------------------------------------------

  /** `estudiantes.reduce((acc, e) => acc + e.notas.reduce((s, n) => s + n.nota, 0), 0)`. */
  function SumaPorEstudiante(estudiantes: seq<Estudiante>): real
  {
    if estudiantes == [] then 0.0 else Suma(estudiantes[0].notas) + SumaPorEstudiante(estudiantes[1..])
  }

  /** `estudiantes.reduce((acc, e) => acc + e.notas.length, 0)`. */
  function CantidadPorEstudiante(estudiantes: seq<Estudiante>): nat
  {
    if estudiantes == [] then 0 else |estudiantes[0].notas| + CantidadPorEstudiante(estudiantes[1..])
  }

  /** The nested reductions add up the same scores and count the same grades as the flat
      sequence of all grades. */
  lemma {:induction false} ReduccionesPlanas(estudiantes: seq<Estudiante>)
    ensures SumaPorEstudiante(estudiantes) == Suma(Notas(estudiantes))
    ensures CantidadPorEstudiante(estudiantes) == |Notas(estudiantes)|
  {
    if estudiantes != [] {
      ReduccionesPlanas(estudiantes[1..]);
      SumaConcat(estudiantes[0].notas, Notas(estudiantes[1..]));
    }
  }

  /** The group average: the mean of every grade of the group, with no outcome filter;
      0 when the group has no grades. */
  function CalcularPromedioGrupo(grupo: Grupo): (r: real)
    ensures r == Media(Notas(grupo.estudiantes))
    ensures Notas(grupo.estudiantes) == [] ==> r == 0.0
  {
    ReduccionesPlanas(grupo.estudiantes);
    var totalNotas := SumaPorEstudiante(grupo.estudiantes);
    var cantidadNotas := CantidadPorEstudiante(grupo.estudiantes);
    if cantidadNotas != 0 then totalNotas / (cantidadNotas as real) else 0.0
  }

  // ---------------------------------------------------------------------------
  // calcularPromedioPrueba: three nested loops over mutable accumulators.
  // ---------------------------------------------------------------------------

  /** The assessment average: the mean of every grade of every group, weighted by grade,
      not by group; 0 when the assessment has no grades. */
  method CalcularPromedioPrueba(prueba: Prueba) returns (promedio: real)
    ensures promedio == PromedioDePrueba(prueba.grupos)
    ensures NotasDeGrupos(prueba.grupos) == [] ==> promedio == 0.0
  {
    var totalNotas := 0.0;
    var cantidadNotas := 0;
    ghost var vistas: seq<Nota> := [];
    var grupos := prueba.grupos;
    var i := 0;
    while i < |grupos|
      invariant 0 <= i <= |grupos|
      invariant vistas == NotasDeGrupos(grupos[..i])
      invariant totalNotas == Suma(vistas) && cantidadNotas == |vistas|
    {
      var estudiantes := grupos[i].estudiantes;
      ghost var previas := vistas;
      var e := 0;
      while e < |estudiantes|
        invariant 0 <= e <= |estudiantes|
        invariant vistas == previas + Notas(estudiantes[..e])
        invariant totalNotas == Suma(vistas) && cantidadNotas == |vistas|
      {
        var notas := estudiantes[e].notas;
        ghost var anteriores := vistas;
        var j := 0;
        while j < |notas|
          invariant 0 <= j <= |notas|
          invariant vistas == anteriores + notas[..j]
          invariant totalNotas == Suma(vistas) && cantidadNotas == |vistas|
        {
          PasoDeSuma(vistas, notas[j]);
          totalNotas := totalNotas + notas[j].nota;
          cantidadNotas := cantidadNotas + 1;
          vistas := vistas + [notas[j]];
          assert notas[..j + 1] == notas[..j] + [notas[j]];
          j := j + 1;
        }
        assert notas[..j] == notas;
        PasoDeEstudiante(previas, estudiantes, e);
        e := e + 1;
      }
      assert estudiantes[..e] == estudiantes;
      NotasDeGruposUltimo(grupos, i);
      i := i + 1;
    }
    assert grupos[..i] == grupos;
    CocienteEsMedia(vistas, totalNotas, cantidadNotas);
    promedio := if cantidadNotas > 0 then totalNotas / (cantidadNotas as real) else 0.0;
  }

  // ---------------------------------------------------------------------------
  // The recompute of getAllPruebas and getPrueba.
  // ---------------------------------------------------------------------------

  /** One `{ra, promedio}` entry per outcome of the assessment, in the assessment's order. */
  function PromediosPorRA(g: Grupo, ras: seq<ObjectId>): (r: seq<PromedioRA>)
    ensures |r| == |ras|
    ensures forall k :: 0 <= k < |ras| ==> r[k] == PromedioRA(ras[k], PromedioDeRA(g, ras[k]))
  {
    if ras == [] then [] else [PromedioRA(ras[0], PromedioDeRA(g, ras[0]))] + PromediosPorRA(g, ras[1..])
  }

  /** A group with both caches overwritten from its own grades. */
  function GrupoRecalculado(g: Grupo, ras: seq<ObjectId>): Grupo
  {
    g.(promediosRA := PromediosPorRA(g, ras), promedioGrupo := CalcularPromedioGrupo(g))
  }

  function GruposRecalculados(gs: seq<Grupo>, ras: seq<ObjectId>): seq<Grupo>
  {
    seq(|gs|, i requires 0 <= i < |gs| => GrupoRecalculado(gs[i], ras))
  }

  /** Two groups that agree on everything except the two cached averages. */
  predicate MismoGrupo(g: Grupo, h: Grupo)
  {
    g.id == h.id && g.nombre == h.nombre && g.encargado == h.encargado && g.estudiantes == h.estudiantes
  }

  /** Two assessments that agree on everything except the cached averages. */
  predicate MismosDatos(p: Prueba, q: Prueba)
  {
    p.nombre == q.nombre && p.programa == q.programa &&
    p.resultadosAprendizaje == q.resultadosAprendizaje && p.descripcion == q.descripcion &&
    p.semestre == q.semestre && p.fecha == q.fecha &&
    |p.grupos| == |q.grupos| &&
    forall i :: 0 <= i < |p.grupos| ==> MismoGrupo(p.grupos[i], q.grupos[i])
  }

  /** The grades of an assessment depend only on its rosters. */
  lemma {:induction false} MismasNotas(a: seq<Grupo>, b: seq<Grupo>)
    requires |a| == |b|
    requires forall i :: 0 <= i < |a| ==> a[i].estudiantes == b[i].estudiantes
    ensures NotasDeGrupos(a) == NotasDeGrupos(b)
  {
    if a != [] {
      MismasNotas(a[1..], b[1..]);
    }
  }

  /** The state after the recompute: rosters, names and references untouched; each group
      holds one entry per outcome of the assessment, in that order, and its flat average;
      the assessment holds the flat average over every grade. */
  function Recalculada(p: Prueba): (r: Prueba)
    ensures MismosDatos(p, r)
    ensures forall i :: 0 <= i < |r.grupos| ==>
              |r.grupos[i].promediosRA| == |p.resultadosAprendizaje| &&
              r.grupos[i].promedioGrupo == Media(Notas(p.grupos[i].estudiantes)) &&
              forall k :: 0 <= k < |p.resultadosAprendizaje| ==>
                r.grupos[i].promediosRA[k] ==
                  PromedioRA(p.resultadosAprendizaje[k], PromedioDeRA(p.grupos[i], p.resultadosAprendizaje[k]))
    ensures r.promedioPrueba == PromedioDePrueba(p.grupos)
  {
    var grupos := GruposRecalculados(p.grupos, p.resultadosAprendizaje);
    MismasNotas(grupos, p.grupos);
    p.(grupos := grupos, promedioPrueba := PromedioDePrueba(grupos))
  }

  /** Cached values are replaced, never merged: the recompute's result does not depend on
      what the caches held before. */
  lemma RecalculoIgnoraCaches(p: Prueba, q: Prueba)
    requires MismosDatos(p, q)
    ensures Recalculada(p) == Recalculada(q)
  {
    var ras := p.resultadosAprendizaje;
    var gp, gq := GruposRecalculados(p.grupos, ras), GruposRecalculados(q.grupos, ras);
    forall i | 0 <= i < |gp| ensures gp[i] == gq[i] {
      assert MismoGrupo(p.grupos[i], q.grupos[i]);
    }
    assert gp == gq;
  }

  /** Recomputing twice with no change to the grades gives identical caches. */
  lemma RecalculoIdempotente(p: Prueba)
    ensures Recalculada(Recalculada(p)) == Recalculada(p)
  {
    RecalculoIgnoraCaches(Recalculada(p), p);
  }

  /** The recompute loop: per group, one call of calcularPromedioRA per outcome, then the
      group average; then the assessment average over the updated groups. */
  method Recalcular(p: Prueba) returns (q: Prueba)
    ensures q == Recalculada(p)
  {
    var ras := p.resultadosAprendizaje;
    var grupos := p.grupos;
    var i := 0;
    while i < |grupos|
      invariant 0 <= i <= |grupos| == |p.grupos|
      invariant forall k :: 0 <= k < i ==> grupos[k] == GrupoRecalculado(p.grupos[k], ras)
      invariant forall k :: i <= k < |grupos| ==> grupos[k] == p.grupos[k]
    {
      var grupo := grupos[i];
      var promedios: seq<PromedioRA> := [];
      var k := 0;
      while k < |ras|
        invariant 0 <= k <= |ras|
        invariant |promedios| == k
        invariant forall m :: 0 <= m < k ==> promedios[m] == PromedioRA(ras[m], PromedioDeRA(grupo, ras[m]))
      {
        var promedio := CalcularPromedioRA(grupo, ras[k]);
        promedios := promedios + [PromedioRA(ras[k], promedio)];
        k := k + 1;
      }
      assert promedios == PromediosPorRA(grupo, ras);
      grupos := grupos[i := grupo.(promediosRA := promedios, promedioGrupo := CalcularPromedioGrupo(grupo))];
      i := i + 1;
    }
    assert grupos == GruposRecalculados(p.grupos, ras);
    var promedioPrueba := CalcularPromedioPrueba(p.(grupos := grupos));
    q := p.(grupos := grupos, promedioPrueba := promedioPrueba);
  }

  // ---------------------------------------------------------------------------
  // Weighting of the assessment average.
  // ---------------------------------------------------------------------------

  /** What one group contributes to the weighted sum: its average times its number of grades. */
  function Aporte(g: Grupo): real
  {
    CalcularPromedioGrupo(g) * (|Notas(g.estudiantes)| as real)
  }

  /** Each group's average times its number of grades, added over the groups. */
  function SumaPonderada(grupos: seq<Grupo>): real
  {
    if grupos == [] then 0.0 else Aporte(grupos[0]) + SumaPonderada(grupos[1..])
  }

  /** A group's average times its number of grades is its grade total. */
  lemma AporteEsSuma(g: Grupo)
    ensures Aporte(g) == Suma(Notas(g.estudiantes))
  {
    MediaPorCantidad(Notas(g.estudiantes));
  }

  lemma {:induction false} SumaDeGrupos(grupos: seq<Grupo>)
    ensures Suma(NotasDeGrupos(grupos)) == SumaPonderada(grupos)
  {
    if grupos != [] {
      var primeras, resto := Notas(grupos[0].estudiantes), NotasDeGrupos(grupos[1..]);
      SumaConcat(primeras, resto);
      SumaDeGrupos(grupos[1..]);
      AporteEsSuma(grupos[0]);
    }
  }

  /** The assessment average times the number of grades is the grade total. */
  lemma PromedioPorCantidad(grupos: seq<Grupo>)
    ensures PromedioDePrueba(grupos) * (|NotasDeGrupos(grupos)| as real) == Suma(NotasDeGrupos(grupos))
  {
    MediaPorCantidad(NotasDeGrupos(grupos));
  }

  /** The assessment average is the grade-count-weighted mean of the group averages. */
  lemma PromedioPruebaPonderado(grupos: seq<Grupo>)
    ensures PromedioDePrueba(grupos) * (|NotasDeGrupos(grupos)| as real) == SumaPonderada(grupos)
  {
    PromedioPorCantidad(grupos);
    SumaDeGrupos(grupos);
  }

  /** ... and not the plain mean of the group averages: one group with a single 10 and one
      with three 0s average 2.5 together, while their group averages are 10 and 0. */
  lemma NoEsMediaDeMedias()
    ensures var g1 := Grupo(1, "Grupo 1", 7, [Estudiante(3, "100", "Ana", [Nota(9, 10.0)])], [], 0.0);
            var g2 := Grupo(2, "Grupo 2", 8, [Estudiante(4, "200", "Luis", [Nota(9, 0.0), Nota(9, 0.0), Nota(9, 0.0)])], [], 0.0);
            PromedioDePrueba([g1, g2]) == 2.5 &&
            (CalcularPromedioGrupo(g1) + CalcularPromedioGrupo(g2)) / 2.0 == 5.0
  {
    var n1 := [Nota(9, 10.0)];
    var n2 := [Nota(9, 0.0), Nota(9, 0.0), Nota(9, 0.0)];
    var e1, e2 := Estudiante(3, "100", "Ana", n1), Estudiante(4, "200", "Luis", n2);
    var g1, g2 := Grupo(1, "Grupo 1", 7, [e1], [], 0.0), Grupo(2, "Grupo 2", 8, [e2], [], 0.0);
    assert Notas([e1]) == n1;
    assert Notas([e2]) == n2;
    assert NotasDeGrupos([g1, g2]) == n1 + n2 by {
      assert [g1, g2][1..] == [g2];
      assert [g2][1..] == [];
      assert NotasDeGrupos([g2]) == n2 + NotasDeGrupos([]);
      assert n2 + [] == n2;
    }
    SumaConcat(n1, n2);
    assert Suma(n2) == 0.0;
  }

  /** One student graded 4 and 5 and another graded 3, all on one outcome: the outcome average is 4. */
  lemma EjemploPromedioRA()
    ensures var a := 1;
            var g := Grupo(10, "Grupo 1", 20, [Estudiante(30, "123", "Ana", [Nota(a, 4.0), Nota(a, 5.0)]),
                                                Estudiante(31, "456", "Luis", [Nota(a, 3.0)])], [], 0.0);
            PromedioDeRA(g, a) == 4.0
  {
    var n1, n2 := [Nota(1, 4.0), Nota(1, 5.0)], [Nota(1, 3.0)];
    var s := [Estudiante(30, "123", "Ana", n1), Estudiante(31, "456", "Luis", n2)];
    assert s[1..] == [s[1]];
    assert [s[1]][1..] == [];
    assert Notas([s[1]]) == n2 + Notas([]);
    assert n2 + [] == n2;
    assert Notas(s) == n1 + n2;
    DeRAConcat(n1, n2, 1);
    assert DeRA(n1 + n2, 1) == n1 + n2;
    SumaConcat(n1, n2);
  }

  /** The schema defaults of a new group (no per-outcome entries, group average 0) are
      what the recompute writes for an empty roster, up to the one entry per outcome. */
  lemma DefectosDeGrupoNuevo(id: ObjectId, nombre: string, encargado: ObjectId, ras: seq<ObjectId>)
    ensures GrupoRecalculado(GrupoNuevo(id, nombre, encargado), ras).promedioGrupo ==
              GrupoNuevo(id, nombre, encargado).promedioGrupo
    ensures forall k :: 0 <= k < |ras| ==>
              GrupoRecalculado(GrupoNuevo(id, nombre, encargado), ras).promediosRA[k].promedio == 0.0
    ensures GrupoRecalculado(GrupoNuevo(id, nombre, encargado), []) == GrupoNuevo(id, nombre, encargado)
  {
  }
}
