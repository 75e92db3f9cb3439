/**
  The product table and what the sale workflow does to it: reserving one
  unit of stock per listed product, giving those units back, and summing the
  listed products' prices. Each step-by-step definition (the way the service
  walks the list) is paired with a closed form and a lemma connecting them.
 */
module Stock {
  import opened Modelos

  /** The product table: id to product. */
  type Tabla = map<Id, Producto>

  /** Every listed id is a product of the table. */
  predicate Existen(t: Tabla, ids: seq<Id>) {
    forall id :: id in ids ==> id in t
  }

  predicate StockNoNegativo(t: Tabla) {
    forall p :: p in t ==> t[p].stock >= 0
  }

  /** `b` has the products of `a`, with the same names and prices. */
  predicate MismosPrecios(a: Tabla, b: Tabla) {
    && a.Keys == b.Keys
    && forall p :: p in a ==> b[p].nombre == a[p].nombre && b[p].precio == a[p].precio
  }

  /** Every listed product exists and has a unit of stock for each time it is listed. */
  predicate Disponible(t: Tabla, ids: seq<Id>) {
    forall id :: id in ids ==> id in t && multiset(ids)[id] <= t[id].stock
  }

  /** Closed form of a reservation: each product loses one unit per occurrence. */
  function Descontar(t: Tabla, ids: seq<Id>): Tabla {
    map p | p in t :: t[p].(stock := t[p].stock - multiset(ids)[p])
  }

  /** Closed form of a restoration: each product gains one unit per occurrence. */
  function Reponer(t: Tabla, ids: seq<Id>): Tabla {
    map p | p in t :: t[p].(stock := t[p].stock + multiset(ids)[p])
  }

  /** The sum of the listed products' prices, with multiplicity. */
  function Total(t: Tabla, ids: seq<Id>): int
    requires Existen(t, ids)
    decreases |ids|
  {
    if ids == [] then 0
    else
      assert forall id :: id in ids[1..] ==> id in ids;
      t[ids[0]].precio + Total(t, ids[1..])
  }

  /** The product lines of a sale, in stored order. */
  function Lineas(t: Tabla, ids: seq<Id>): seq<ProductoVista>
    requires Existen(t, ids)
  {
    seq(|ids|, i requires 0 <= i < |ids| => ProductoVista(ids[i], t[ids[i]].nombre))
  }

  /** One turn of the reservation loop: look the product up, check its stock, take one unit. */
  function ReservarUno(t: Tabla, id: Id): Result<Tabla> {
    if id !in t then Err(ProductoNoEncontrado)
    else if t[id].stock <= 0 then Err(StockInsuficiente)
    else Ok(t[id := t[id].(stock := t[id].stock - 1)])
  }

  /**
    The reservation loop over a whole list, in order; each product is checked
    against the stock left by the earlier turns. The first failing turn decides
    the error.
   */
  function ReservarTodos(t: Tabla, ids: seq<Id>): Result<Tabla>
    decreases |ids|
  {
    if ids == [] then Ok(t)
    else
      match ReservarUno(t, ids[0])
      case Err(e) => Err(e)
      case Ok(t') => ReservarTodos(t', ids[1..])
  }

  /** One turn of the restoration loop: give one unit back. */
  function DevolverUno(t: Tabla, id: Id): Tabla
    requires id in t
  {
    t[id := t[id].(stock := t[id].stock + 1)]
  }

  /** The restoration loop over a whole list, in order. */
  function DevolverTodos(t: Tabla, ids: seq<Id>): Tabla
    requires Existen(t, ids)
    decreases |ids|
  {
    if ids == [] then t
    else
      assert forall id :: id in ids[1..] ==> id in ids;
      DevolverTodos(DevolverUno(t, ids[0]), ids[1..])
  }

  // ---------------------------------------------------------------------
  // Totals

  /** The total of two lists placed one after the other is the sum of their totals. */
  lemma {:induction false} TotalConcat(t: Tabla, a: seq<Id>, b: seq<Id>)
    requires Existen(t, a) && Existen(t, b)
    ensures Existen(t, a + b) && Total(t, a + b) == Total(t, a) + Total(t, b)
  {
    if a == [] {
      assert a + b == b;
    } else {
      assert (a + b)[0] == a[0];
      assert (a + b)[1..] == a[1..] + b;
      assert forall id :: id in a[1..] ==> id in a;
      TotalConcat(t, a[1..], b);
    }
  }

  /** Taking entry `j` out of a list lowers its total by that entry's price. */
  lemma TotalQuitar(t: Tabla, b: seq<Id>, j: int)
    requires Existen(t, b) && 0 <= j < |b|
    ensures Existen(t, b[..j] + b[j+1..])
    ensures Total(t, b) == t[b[j]].precio + Total(t, b[..j] + b[j+1..])
  {
    assert b == b[..j] + ([b[j]] + b[j+1..]);
    assert forall id :: id in b[..j] ==> id in b;
    assert forall id :: id in b[j+1..] ==> id in b;
    assert ([b[j]] + b[j+1..])[1..] == b[j+1..];
    TotalConcat(t, b[..j], [b[j]] + b[j+1..]);
    TotalConcat(t, b[..j], b[j+1..]);
  }

  /** Taking the same element out of two lists with equal multisets leaves equal multisets. */
  lemma MultisetQuitar(a: seq<Id>, b: seq<Id>, j: int)
    requires a != [] && 0 <= j < |b| && b[j] == a[0] && multiset(a) == multiset(b)
    ensures multiset(a[1..]) == multiset(b[..j] + b[j+1..])
  {
    assert a == [a[0]] + a[1..];
    assert b == b[..j] + [b[j]] + b[j+1..];
    assert multiset(b) == multiset(b[..j]) + multiset{b[j]} + multiset(b[j+1..]);
    assert multiset(a[1..]) == multiset(a) - multiset{a[0]};
  }

  /** The total counts each product with its multiplicity only: the order of the list does not matter. */
  lemma {:induction false} TotalPermutacion(t: Tabla, a: seq<Id>, b: seq<Id>)
    requires Existen(t, a) && multiset(a) == multiset(b)
    ensures Existen(t, b) && Total(t, a) == Total(t, b)
    decreases |a|
  {
    forall id | id in b ensures id in t {
      assert id in multiset(b);
      assert id in multiset(a);
    }
    if a == [] {
      assert |b| == |multiset(b)|;
    } else {
      assert a[0] in multiset(b);
      var j :| 0 <= j < |b| && b[j] == a[0];
      MultisetQuitar(a, b, j);
      assert forall id :: id in a[1..] ==> id in a;
      TotalPermutacion(t, a[1..], b[..j] + b[j+1..]);
      TotalQuitar(t, b, j);
    }
  }

  /** The total depends on names and prices only, not on stock. */
  lemma {:induction false} TotalMismosPrecios(a: Tabla, b: Tabla, ids: seq<Id>)
    requires MismosPrecios(a, b) && Existen(a, ids)
    ensures Existen(b, ids) && Total(a, ids) == Total(b, ids)
    decreases |ids|
  {
    if ids != [] {
      assert forall id :: id in ids[1..] ==> id in ids;
      TotalMismosPrecios(a, b, ids[1..]);
    }
  }

  /** Neither a reservation nor a restoration touches a name or a price. */
  lemma DescontarReponerMismosPrecios(t: Tabla, ids: seq<Id>)
    ensures MismosPrecios(t, Descontar(t, ids)) && MismosPrecios(t, Reponer(t, ids))
  {
  }

  // ---------------------------------------------------------------------
  // Reservation

  /** After one unit of `x` has been taken, the rest of the list fits exactly when the whole list fitted. */
  lemma DisponibleCons(t: Tabla, x: Id, s: seq<Id>)
    requires x in t && t[x].stock > 0
    ensures Disponible(t, [x] + s) <==> Disponible(t[x := t[x].(stock := t[x].stock - 1)], s)
  {
    var t' := t[x := t[x].(stock := t[x].stock - 1)];
    var ids := [x] + s;
    assert multiset(ids) == multiset{x} + multiset(s);
    if Disponible(t, ids) {
      forall id | id in s ensures id in t' && multiset(s)[id] <= t'[id].stock {
        assert id in ids;
      }
    }
    if Disponible(t', s) {
      forall id | id in ids ensures id in t && multiset(ids)[id] <= t[id].stock {
        if id != x {
          assert id in s;
        } else if x in s {
          assert multiset(s)[x] <= t'[x].stock;
        }
      }
    }
  }

  /** A list whose first product is missing or out of stock is not available. */
  lemma NoDisponibleCons(t: Tabla, x: Id, s: seq<Id>)
    requires x !in t || t[x].stock <= 0
    ensures !Disponible(t, [x] + s)
  {
    var ids := [x] + s;
    assert x in ids;
    assert multiset(ids) == multiset{x} + multiset(s);
  }

  /** Taking one unit of `x` first and then reserving the rest is reserving the whole list. */
  lemma DescontarCons(t: Tabla, x: Id, s: seq<Id>)
    requires x in t
    ensures Descontar(t[x := t[x].(stock := t[x].stock - 1)], s) == Descontar(t, [x] + s)
  {
    var t' := t[x := t[x].(stock := t[x].stock - 1)];
    assert multiset([x] + s) == multiset{x} + multiset(s);
    forall p | p in t ensures Descontar(t', s)[p] == Descontar(t, [x] + s)[p] {
    }
    assert Descontar(t', s).Keys == Descontar(t, [x] + s).Keys;
  }

  /**
    The reservation loop succeeds exactly when every listed product exists and
    has a unit for each occurrence, and then takes exactly that many units
    from each product.
   */
  lemma {:induction false} ReservarTodosCorrecto(t: Tabla, ids: seq<Id>)
    ensures ReservarTodos(t, ids).Ok? <==> Disponible(t, ids)
    ensures ReservarTodos(t, ids).Ok? ==> ReservarTodos(t, ids).value == Descontar(t, ids)
    decreases |ids|
  {
    if ids == [] {
      assert Descontar(t, ids) == t;
    } else {
      var x, s := ids[0], ids[1..];
      assert ids == [x] + s;
      if x !in t || t[x].stock <= 0 {
        NoDisponibleCons(t, x, s);
      } else {
        var t' := t[x := t[x].(stock := t[x].stock - 1)];
        assert ReservarTodos(t, ids) == ReservarTodos(t', s);
        DisponibleCons(t, x, s);
        ReservarTodosCorrecto(t', s);
        DescontarCons(t, x, s);
      }
    }
  }

  /** The list stops fitting at turn `i`: its first `i` entries are available, its first `i + 1` are not. */
  predicate FallaEn(t: Tabla, ids: seq<Id>, i: int) {
    0 <= i < |ids| && Disponible(t, ids[..i]) && !Disponible(t, ids[..i + 1])
  }

  /** A turn at which the rest of the list stops fitting, after one unit of `x` was taken, is one turn later in the whole list. */
  lemma FallaEnCons(t: Tabla, x: Id, s: seq<Id>, j: int)
    requires x in t && t[x].stock > 0
    requires FallaEn(t[x := t[x].(stock := t[x].stock - 1)], s, j)
    ensures FallaEn(t, [x] + s, j + 1)
  {
    var ids := [x] + s;
    assert ids[..j + 1] == [x] + s[..j];
    assert ids[..j + 2] == [x] + s[..j + 1];
    DisponibleCons(t, x, s[..j]);
    DisponibleCons(t, x, s[..j + 1]);
  }

  /**
    A failed reservation reports the turn at which the list stops fitting:
    the first index whose prefix is no longer available, as "product not
    found" when that product is missing and "insufficient stock" otherwise.
   */
  lemma {:induction false} ReservarTodosError(t: Tabla, ids: seq<Id>)
    requires ReservarTodos(t, ids).Err?
    ensures exists i :: (FallaEn(t, ids, i) &&
      ReservarTodos(t, ids).error == (if ids[i] in t then StockInsuficiente else ProductoNoEncontrado))
    decreases |ids|
  {
    var x, s := ids[0], ids[1..];
    assert ids == [x] + s;
    if x !in t || t[x].stock <= 0 {
      assert ids[..1] == [x] + [];
      NoDisponibleCons(t, x, []);
      assert ids[..0] == [];
      assert FallaEn(t, ids, 0);
    } else {
      var t' := t[x := t[x].(stock := t[x].stock - 1)];
      assert ReservarTodos(t, ids) == ReservarTodos(t', s);
      ReservarTodosError(t', s);
      var j :| FallaEn(t', s, j) &&
        ReservarTodos(t', s).error == (if s[j] in t' then StockInsuficiente else ProductoNoEncontrado);
      FallaEnCons(t, x, s, j);
      assert ids[j + 1] == s[j];
    }
  }

  // ---------------------------------------------------------------------
  // Restoration

  /** Giving one unit of `x` back first and then the rest is giving the whole list back. */
  lemma ReponerCons(t: Tabla, x: Id, s: seq<Id>)
    requires x in t
    ensures Reponer(DevolverUno(t, x), s) == Reponer(t, [x] + s)
  {
    var t' := DevolverUno(t, x);
    assert multiset([x] + s) == multiset{x} + multiset(s);
    forall p | p in t ensures Reponer(t', s)[p] == Reponer(t, [x] + s)[p] {
    }
    assert Reponer(t', s).Keys == Reponer(t, [x] + s).Keys;
  }

  /** The restoration loop gives each product back exactly one unit per occurrence. */
  lemma {:induction false} DevolverTodosCorrecto(t: Tabla, ids: seq<Id>)
    requires Existen(t, ids)
    ensures DevolverTodos(t, ids) == Reponer(t, ids)
    decreases |ids|
  {
    if ids == [] {
      assert Reponer(t, ids) == t;
    } else {
      var x, s := ids[0], ids[1..];
      assert ids == [x] + s;
      assert forall id :: id in s ==> id in ids;
      assert DevolverTodos(t, ids) == DevolverTodos(DevolverUno(t, x), s);
      DevolverTodosCorrecto(DevolverUno(t, x), s);
      ReponerCons(t, x, s);
    }
  }

  /**
    Giving a list back and reserving the same list again always succeeds and
    leaves the table exactly as it was, provided the listed products' stock
    was not negative.
   */
  lemma ReservarTrasDevolver(t: Tabla, ids: seq<Id>)
    requires Existen(t, ids)
    requires forall id :: id in ids ==> t[id].stock >= 0
    ensures ReservarTodos(DevolverTodos(t, ids), ids) == Ok(t)
  {
    DevolverTodosCorrecto(t, ids);
    var r := Reponer(t, ids);
    ReservarTodosCorrecto(r, ids);
    assert Disponible(r, ids);
    forall p | p in t ensures Descontar(r, ids)[p] == t[p] {
    }
    assert Descontar(r, ids) == t;
  }

  /** Giving back one list and reserving another moves each product's stock by the difference of its counts. */
  lemma ReponerDescontar(t: Tabla, a: seq<Id>, b: seq<Id>)
    ensures Descontar(Reponer(t, a), b).Keys == t.Keys
    ensures forall p :: p in t ==>
      Descontar(Reponer(t, a), b)[p] == t[p].(stock := t[p].stock + multiset(a)[p] - multiset(b)[p])
  {
  }

  /** An available reservation never drives a stock below zero. */
  lemma DescontarNoNegativo(t: Tabla, ids: seq<Id>)
    requires StockNoNegativo(t) && Disponible(t, ids)
    ensures StockNoNegativo(Descontar(t, ids))
  {
    forall p | p in t ensures Descontar(t, ids)[p].stock >= 0 {
      if p !in ids {
        assert p !in multiset(ids);
      }
    }
  }
}
