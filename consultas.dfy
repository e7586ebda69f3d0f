/** What the controllers learn from `Model.find({ _id: { $in: ids } })`: the number of
    documents found, each existing document once however often its id is repeated. */
module Consultas {
  import opened Esquema

  function Encontrados(ids: seq<ObjectId>, existentes: set<ObjectId>): set<ObjectId>
  {
    set x | x in ids && x in existentes
  }

  /** `(await Model.find({ _id: { $in: ids } })).length`. */
  function CantidadEncontrada(ids: seq<ObjectId>, existentes: set<ObjectId>): nat
  {
    |Encontrados(ids, existentes)|
  }

  predicate SinRepetidos(s: seq<ObjectId>)
  {
    forall i, j :: 0 <= i < j < |s| ==> s[i] != s[j]
  }

  lemma SinRepetidosCons(a: ObjectId, r: seq<ObjectId>)
    ensures SinRepetidos([a] + r) <==> a !in r && SinRepetidos(r)
  {
    var ids := [a] + r;
    if a !in r && SinRepetidos(r) {
      forall i, j | 0 <= i < j < |ids| ensures ids[i] != ids[j] {
        assert ids[j] == r[j - 1];
        if i > 0 { assert ids[i] == r[i - 1]; }
      }
    }
    if SinRepetidos(ids) {
      forall i, j | 0 <= i < j < |r| ensures r[i] != r[j] {
        assert r[i] == ids[i + 1] && r[j] == ids[j + 1];
      }
      forall k | 0 <= k < |r| ensures r[k] != a {
        assert r[k] == ids[k + 1] && a == ids[0];
      }
    }
  }

  lemma EncontradosCons(a: ObjectId, r: seq<ObjectId>, existentes: set<ObjectId>)
    ensures Encontrados([a] + r, existentes) ==
              Encontrados(r, existentes) + (if a in existentes then {a} else {})
  {
  }

  /** The controllers' check `found.length === ids.length` passes exactly when every id
      exists and no id is repeated; a repeated id, even of an existing document, fails it. */
  lemma {:induction false} TodosEncontrados(ids: seq<ObjectId>, existentes: set<ObjectId>)
    ensures CantidadEncontrada(ids, existentes) <= |ids|
    ensures CantidadEncontrada(ids, existentes) == |ids| <==>
              SinRepetidos(ids) && forall x :: x in ids ==> x in existentes
  {
    if ids == [] {
      assert Encontrados(ids, existentes) == {};
    } else {
      var a, r := ids[0], ids[1..];
      assert ids == [a] + r;
      TodosEncontrados(r, existentes);
      SinRepetidosCons(a, r);
      EncontradosCons(a, r, existentes);
      var resto := Encontrados(r, existentes);
      if a in existentes && a !in r {
        assert a !in resto;
        assert |resto + {a}| == |resto| + 1;
      } else if a in existentes {
        assert a in resto;
        assert resto + {a} == resto;
      }
    }
  }
}
