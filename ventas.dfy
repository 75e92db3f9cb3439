/**
  The sale service: it creates, updates, deletes and reads sales while
  keeping product stock and sale totals consistent. The three repositories are
  map-valued fields. Each transactional operation takes a snapshot of the
  product table before it starts changing stock and puts it back when it
  fails, so a failed call leaves every table as it found it.
 */
module Ventas {
  import opened Modelos
  import opened Stock

  /** No change to products and total unless a non-empty new product list is given. */
  predicate CambiaLista(productosId: Option<seq<Id>>) {
    productosId.Some? && productosId.value != []
  }

  /** The ids of the stored sales below `n`, by ascending id. */
  function IdsHasta(ventas: map<Id, Venta>, n: nat): (r: seq<Id>)
    ensures forall i :: 0 <= i < |r| ==> r[i] < n && r[i] in ventas
    ensures forall i, j :: 0 <= i < j < |r| ==> r[i] < r[j]
    ensures forall id :: id in ventas && id < n ==> id in r
    decreases n
  {
    if n == 0 then []
    else if n - 1 in ventas then IdsHasta(ventas, n - 1) + [n - 1]
    else IdsHasta(ventas, n - 1)
  }

  /** A sale refers to a known customer and known products, and its total is their price sum. */
  ghost predicate VentaValida(t: Tabla, clientes: map<Id, Cliente>, v: Venta) {
    && v.clienteId in clientes
    && Existen(t, v.productos)
    && v.total == Total(t, v.productos)
  }

  /** The service's invariant: no stock below zero, ids below the next one, every sale valid. */
  ghost predicate Consistente(t: Tabla, clientes: map<Id, Cliente>, ventas: map<Id, Venta>, siguienteId: Id) {
    && StockNoNegativo(t)
    && (forall id :: id in ventas ==> id < siguienteId)
    && (forall id :: id in ventas ==> VentaValida(t, clientes, ventas[id]))
  }

  /** Changing stock only, and keeping it non-negative, keeps the invariant. */
  lemma ConsistenteMismosPrecios(t: Tabla, t': Tabla, clientes: map<Id, Cliente>, ventas: map<Id, Venta>, n: Id)
    requires Consistente(t, clientes, ventas, n) && MismosPrecios(t, t') && StockNoNegativo(t')
    ensures Consistente(t', clientes, ventas, n)
  {
    forall id | id in ventas ensures VentaValida(t', clientes, ventas[id]) {
      TotalMismosPrecios(t, t', ventas[id].productos);
    }
  }

  /** Storing a valid sale under an id below the (possibly advanced) next id keeps the invariant. */
  lemma ConsistenteGuardar(t: Tabla, clientes: map<Id, Cliente>, ventas: map<Id, Venta>, n: Id, n': Id, id: Id, v: Venta)
    requires Consistente(t, clientes, ventas, n) && VentaValida(t, clientes, v) && n <= n' && id < n'
    ensures Consistente(t, clientes, ventas[id := v], n')
  {
  }

  /**
    What an update does, as a function of the tables before it: the new
    product table and the new version of the sale, or the error it raises.
    An unknown sale fails first, then a given but unknown customer. A
    non-empty new list first gives back the units of the old list and then
    reserves the new one against the restored stock; its total is summed over
    the new list.
   */
  function Actualizacion(t: Tabla, clientes: map<Id, Cliente>, ventas: map<Id, Venta>,
                         id: Id, clienteId: Option<Id>, productosId: Option<seq<Id>>): Result<(Tabla, Venta)>
  {
    if id !in ventas then Err(VentaNoEncontrada)
    else if clienteId.Some? && clienteId.value !in clientes then Err(ClienteNoEncontrado)
    else
      var v := if clienteId.Some? then ventas[id].(clienteId := clienteId.value) else ventas[id];
      if !CambiaLista(productosId) then Ok((t, v))
      else
        var nuevos := productosId.value;
        match ReservarTodos(Reponer(t, v.productos), nuevos)
        case Err(e) => Err(e)
        case Ok(t') =>
          ReservarTodosCorrecto(Reponer(t, v.productos), nuevos);
          Ok((t', v.(productos := nuevos, total := Total(t', nuevos))))
  }

  /**
    When an update fails and when it succeeds: an unknown sale, then a given
    but unknown customer, then a new list that does not fit the restored stock.
   */
  lemma ActualizacionGuardas(t: Tabla, clientes: map<Id, Cliente>, ventas: map<Id, Venta>,
                             id: Id, clienteId: Option<Id>, productosId: Option<seq<Id>>)
    ensures id !in ventas ==> Actualizacion(t, clientes, ventas, id, clienteId, productosId) == Err(VentaNoEncontrada)
    ensures id in ventas && clienteId.Some? && clienteId.value !in clientes ==>
      Actualizacion(t, clientes, ventas, id, clienteId, productosId) == Err(ClienteNoEncontrado)
    ensures Actualizacion(t, clientes, ventas, id, clienteId, productosId).Ok? <==>
      && id in ventas
      && (clienteId.Some? ==> clienteId.value in clientes)
      && (CambiaLista(productosId) ==> Disponible(Reponer(t, ventas[id].productos), productosId.value))
    ensures (id in ventas && (clienteId.Some? ==> clienteId.value in clientes) &&
             Actualizacion(t, clientes, ventas, id, clienteId, productosId).Err?) ==>
        && CambiaLista(productosId)
        && ReservarTodos(Reponer(t, ventas[id].productos), productosId.value)
           == Err(Actualizacion(t, clientes, ventas, id, clienteId, productosId).error)
  {
    if id in ventas && CambiaLista(productosId) {
      ReservarTodosCorrecto(Reponer(t, ventas[id].productos), productosId.value);
    }
  }

  /**
    A successful update keeps the sale's timestamp and sets the customer when
    one is given; without a new list it leaves products, total and stock alone.
   */
  lemma ActualizacionResultado(t: Tabla, clientes: map<Id, Cliente>, ventas: map<Id, Venta>,
                               id: Id, clienteId: Option<Id>, productosId: Option<seq<Id>>)
    requires Actualizacion(t, clientes, ventas, id, clienteId, productosId).Ok?
    ensures id in ventas
    ensures var (t', v) := Actualizacion(t, clientes, ventas, id, clienteId, productosId).value;
      && v.fecha == ventas[id].fecha
      && v.clienteId == (if clienteId.Some? then clienteId.value else ventas[id].clienteId)
    ensures var (t', v) := Actualizacion(t, clientes, ventas, id, clienteId, productosId).value;
      !CambiaLista(productosId) ==>
        t' == t && v.productos == ventas[id].productos && v.total == ventas[id].total
  {
  }

  /**
    A successful update with a new list stores that list in order with its
    price sum, and moves each product's stock by the units given back minus
    the units taken, so no stock goes below zero.
   */
  lemma ActualizacionStock(t: Tabla, clientes: map<Id, Cliente>, ventas: map<Id, Venta>,
                           id: Id, clienteId: Option<Id>, productosId: Option<seq<Id>>)
    requires Actualizacion(t, clientes, ventas, id, clienteId, productosId).Ok?
    requires CambiaLista(productosId)
    ensures id in ventas
    ensures var (t', v) := Actualizacion(t, clientes, ventas, id, clienteId, productosId).value;
      && v.productos == productosId.value
      && Existen(t, productosId.value)
      && v.total == Total(t, productosId.value)
    ensures var (t', v) := Actualizacion(t, clientes, ventas, id, clienteId, productosId).value;
      && t'.Keys == t.Keys
      && (forall p :: p in t ==>
            t'[p] == t[p].(stock := t[p].stock + multiset(ventas[id].productos)[p] - multiset(productosId.value)[p]))
      && (StockNoNegativo(t) ==> StockNoNegativo(t'))
  {
    var viejos, nuevos := ventas[id].productos, productosId.value;
    var repuesto := Reponer(t, viejos);
    ReservarTodosCorrecto(repuesto, nuevos);
    var t' := Descontar(repuesto, nuevos);
    assert Actualizacion(t, clientes, ventas, id, clienteId, productosId).value.0 == t';
    DescontarReponerMismosPrecios(t, viejos);
    DescontarReponerMismosPrecios(repuesto, nuevos);
    TotalMismosPrecios(t', t, nuevos);
    ReponerDescontar(t, viejos, nuevos);
    if StockNoNegativo(t) {
      DescontarNoNegativo(repuesto, nuevos);
    }
  }

  /**
    Re-submitting a sale's own product list, with or without a known
    customer, always succeeds, keeps that list and leaves every stock as it
    was: a non-empty list is checked against the restored stock, and an empty
    one changes no product.
   */
  lemma ActualizacionMismaLista(t: Tabla, clientes: map<Id, Cliente>, ventas: map<Id, Venta>,
                                id: Id, clienteId: Option<Id>)
    requires id in ventas && (clienteId.Some? ==> clienteId.value in clientes)
    requires Existen(t, ventas[id].productos) && StockNoNegativo(t)
    ensures Actualizacion(t, clientes, ventas, id, clienteId, Some(ventas[id].productos)).Ok?
    ensures Actualizacion(t, clientes, ventas, id, clienteId, Some(ventas[id].productos)).value.0 == t
    ensures Actualizacion(t, clientes, ventas, id, clienteId, Some(ventas[id].productos)).value.1.productos
            == ventas[id].productos
  {
    var ids := ventas[id].productos;
    ReservarTrasDevolver(t, ids);
    DevolverTodosCorrecto(t, ids);
  }

  class VentaService {
    var productos: Tabla
    var clientes: map<Id, Cliente>
    var ventas: map<Id, Venta>
    /** The id the store generates for the next sale. */
    var siguienteId: Id

    ghost predicate Valid()
      reads this
    {
      Consistente(productos, clientes, ventas, siguienteId)
    }

    /** The service over the given product and customer tables, with no sales yet. */
    constructor (productos: Tabla, clientes: map<Id, Cliente>)
      requires StockNoNegativo(productos)
      ensures Valid()
      ensures this.productos == productos && this.clientes == clientes && ventas == map[]
    {
      this.productos := productos;
      this.clientes := clientes;
      ventas := map[];
      siguienteId := 1;
    }

    /** The view of a stored sale, with its customer's names and its products' names. */
    function Vista(id: Id): VentaVista
      reads this
      requires Valid() && id in ventas
    {
      var v := ventas[id];
      var c := clientes[v.clienteId];
      VentaVista(id, v.clienteId, c.nombre, c.apellido, v.total, v.fecha, Lineas(productos, v.productos))
    }

    /** Looks a sale up by id. */
    function GetVentaById(id: Id): (r: Result<VentaVista>)
      reads this
      requires Valid()
      ensures r.Ok? <==> id in ventas
      ensures r.Err? ==> r.error == VentaNoEncontrada
      ensures r.Ok? ==>
        && var v := ventas[id];
        && r.value.id == id
        && r.value.clienteId == v.clienteId
        && r.value.nombre == clientes[v.clienteId].nombre
        && r.value.apellido == clientes[v.clienteId].apellido
        && r.value.fecha == v.fecha
        && r.value.total == Total(productos, v.productos)
        && |r.value.productos| == |v.productos|
        && forall i :: 0 <= i < |v.productos| ==>
             r.value.productos[i] == ProductoVista(v.productos[i], productos[v.productos[i]].nombre)
    {
      if id in ventas then Ok(Vista(id)) else Err(VentaNoEncontrada)
    }

    /** The views of the listed sales, in list order. */
    function VistasDe(ids: seq<Id>): (r: seq<VentaVista>)
      reads this
      requires Valid() && forall id :: id in ids ==> id in ventas
      ensures |r| == |ids| && forall i :: 0 <= i < |ids| ==> r[i] == Vista(ids[i])
      decreases |ids|
    {
      if ids == [] then []
      else
        assert forall id :: id in ids[1..] ==> id in ids;
        [Vista(ids[0])] + VistasDe(ids[1..])
    }

    /** All stored sales, one view per sale, by ascending id. */
    function GetAllVentas(): (r: seq<VentaVista>)
      reads this
      requires Valid()
      ensures forall i :: 0 <= i < |r| ==> r[i].id in ventas && r[i] == Vista(r[i].id)
      ensures forall i, j :: 0 <= i < j < |r| ==> r[i].id < r[j].id
      ensures forall id :: id in ventas ==> exists i :: 0 <= i < |r| && r[i].id == id
    {
      var ids := IdsHasta(ventas, siguienteId);
      var r := VistasDe(ids);
      assert forall i :: 0 <= i < |r| ==> r[i].id == ids[i];
      assert forall id :: id in ventas ==> id in ids;
      r
    }

    /**
      The reservation loop: for each listed id in turn, look the product up,
      reject it when its current stock is not positive, take one unit and add
      it to the list. A failure returns at once, leaving the units already
      taken for the caller's rollback.
     */
    method ReservarProductos(ids: seq<Id>) returns (r: Result<seq<Id>>)
      modifies this
      ensures clientes == old(clientes) && ventas == old(ventas) && siguienteId == old(siguienteId)
      ensures r.Ok? <==> ReservarTodos(old(productos), ids).Ok?
      ensures r.Ok? ==> r.value == ids && ReservarTodos(old(productos), ids) == Ok(productos)
      ensures r.Err? ==> ReservarTodos(old(productos), ids) == Err(r.error)
    {
      var lista: seq<Id> := [];
      var i := 0;
      while i < |ids|
        invariant 0 <= i <= |ids|
        invariant lista == ids[..i]
        invariant ReservarTodos(old(productos), ids) == ReservarTodos(productos, ids[i..])
        invariant clientes == old(clientes) && ventas == old(ventas) && siguienteId == old(siguienteId)
      {
        var id := ids[i];
        assert ids[i..][1..] == ids[i + 1..];
        if id !in productos {
          return Err(ProductoNoEncontrado);
        }
        var producto := productos[id];
        if producto.stock <= 0 {
          return Err(StockInsuficiente);
        }
        productos := productos[id := producto.(stock := producto.stock - 1)];
        lista := lista + [id];
        i := i + 1;
      }
      assert lista == ids;
      r := Ok(lista);
    }

    /** The restoration loop: give back one unit for each listed id. */
    method RestaurarStock(ids: seq<Id>)
      requires Existen(productos, ids)
      modifies this
      ensures clientes == old(clientes) && ventas == old(ventas) && siguienteId == old(siguienteId)
      ensures productos == DevolverTodos(old(productos), ids)
    {
      var i := 0;
      while i < |ids|
        invariant 0 <= i <= |ids|
        invariant productos.Keys == old(productos).Keys
        invariant Existen(productos, ids[i..])
        invariant DevolverTodos(old(productos), ids) == DevolverTodos(productos, ids[i..])
        invariant clientes == old(clientes) && ventas == old(ventas) && siguienteId == old(siguienteId)
      {
        var id := ids[i];
        assert ids[i..][1..] == ids[i + 1..];
        assert id in ids[i..];
        var producto := productos[id];
        productos := productos[id := producto.(stock := producto.stock + 1)];
        i := i + 1;
      }
    }

    /**
      The product-list part of an update: give back one unit per entry of the
      old list, then reserve the new list against the restored stock, and sum
      the new list's prices. A failure puts the product table back as it was.
     */
    method ReemplazarProductos(viejos: seq<Id>, nuevos: seq<Id>) returns (r: Result<int>)
      requires Valid() && Existen(productos, viejos)
      modifies this
      ensures Valid()
      ensures clientes == old(clientes) && ventas == old(ventas) && siguienteId == old(siguienteId)
      ensures match ReservarTodos(Reponer(old(productos), viejos), nuevos)
        case Err(e) => r == Err(e) && productos == old(productos)
        case Ok(t) => productos == t && Existen(t, nuevos) && r == Ok(Total(t, nuevos))
    {
      var antes := productos;
      RestaurarStock(viejos);
      DevolverTodosCorrecto(antes, viejos);
      var repuesto := productos;
      DescontarReponerMismosPrecios(antes, viejos);
      var reservados := ReservarProductos(nuevos);
      ReservarTodosCorrecto(repuesto, nuevos);
      if reservados.Err? {
        productos := antes;  // the transaction rolls back the restored and the reserved units
        return Err(reservados.error);
      }
      DescontarReponerMismosPrecios(repuesto, nuevos);
      DescontarNoNegativo(repuesto, nuevos);
      ConsistenteMismosPrecios(antes, productos, clientes, ventas, siguienteId);
      r := Ok(Total(productos, nuevos));
    }

    /**
      Creates a sale for a customer from an ordered list of product ids,
      taking one unit of stock per occurrence. All or nothing: a failure
      changes no table.
     */
    method NewVenta(clienteId: Id, productosId: seq<Id>, fecha: Fecha) returns (r: Result<VentaVista>)
      requires Valid()
      modifies this
      ensures Valid()
      ensures clientes == old(clientes)
      ensures r.Ok? <==> clienteId in old(clientes) && Disponible(old(productos), productosId)
      ensures clienteId !in old(clientes) ==> r == Err(ClienteNoEncontrado)
      ensures clienteId in old(clientes) && r.Err? ==> ReservarTodos(old(productos), productosId) == Err(r.error)
      ensures r.Err? ==> productos == old(productos) && ventas == old(ventas) && siguienteId == old(siguienteId)
      ensures r.Ok? ==>
        && productos == Descontar(old(productos), productosId)
        && old(siguienteId) !in old(ventas)
        && siguienteId == old(siguienteId) + 1
        && ventas == old(ventas)[old(siguienteId) :=
             Venta(clienteId, productosId, Total(old(productos), productosId), fecha)]
        && r.value == Vista(old(siguienteId))
    {
      if clienteId !in clientes {
        return Err(ClienteNoEncontrado);
      }
      var antes := productos;
      var reservados := ReservarProductos(productosId);
      ReservarTodosCorrecto(antes, productosId);
      if reservados.Err? {
        productos := antes;  // the transaction rolls back every unit already taken
        return Err(reservados.error);
      }
      var lista := reservados.value;
      DescontarReponerMismosPrecios(antes, lista);
      DescontarNoNegativo(antes, lista);
      ConsistenteMismosPrecios(antes, productos, clientes, ventas, siguienteId);
      TotalMismosPrecios(antes, productos, lista);
      var total := Total(productos, lista);
      var id := siguienteId;
      ConsistenteGuardar(productos, clientes, ventas, id, id + 1, id, Venta(clienteId, lista, total, fecha));
      ventas := ventas[id := Venta(clienteId, lista, total, fecha)];
      siguienteId := siguienteId + 1;
      r := Ok(Vista(id));
    }

    /**
      Updates a sale as `Actualizacion` describes: the customer when one is
      given; the product list and total when a non-empty list is given. All or
      nothing: a failure changes no table.
     */
    method UpdateVentaById(id: Id, clienteId: Option<Id>, productosId: Option<seq<Id>>)
      returns (r: Result<VentaVista>)
      requires Valid()
      modifies this
      ensures Valid()
      ensures clientes == old(clientes) && siguienteId == old(siguienteId)
      ensures match Actualizacion(old(productos), old(clientes), old(ventas), id, clienteId, productosId)
        case Err(e) => r == Err(e) && productos == old(productos) && ventas == old(ventas)
        case Ok(cambio) =>
          && productos == cambio.0
          && id in old(ventas)
          && ventas == old(ventas)[id := cambio.1]
          && r == Ok(Vista(id))
    {
      if id !in ventas {
        return Err(VentaNoEncontrada);
      }
      var venta := ventas[id];
      if clienteId.Some? {
        if clienteId.value !in clientes {
          return Err(ClienteNoEncontrado);
        }
        venta := venta.(clienteId := clienteId.value);
      }
      if CambiaLista(productosId) {
        var total := ReemplazarProductos(venta.productos, productosId.value);
        if total.Err? {
          return Err(total.error);
        }
        venta := venta.(productos := productosId.value, total := total.value);
      }
      ConsistenteGuardar(productos, clientes, ventas, siguienteId, siguienteId, id, venta);
      ventas := ventas[id := venta];
      r := Ok(Vista(id));
    }

    /** Deletes a sale. The units its products took are not given back. */
    method DeleteVentaById(id: Id) returns (r: Result<()>)
      requires Valid()
      modifies this
      ensures Valid()
      ensures r.Ok? <==> id in old(ventas)
      ensures r.Err? ==> r.error == VentaNoEncontrada
      ensures ventas == old(ventas) - {id}
      ensures productos == old(productos) && clientes == old(clientes) && siguienteId == old(siguienteId)
    {
      if id !in ventas {
        return Err(VentaNoEncontrada);
      }
      ventas := ventas - {id};
      r := Ok(());
    }
  }

  /** The scenario's creation step: a product priced 100 with 5 units, listed twice. */
  lemma EscenarioCrear(remera: Producto)
    requires remera == Producto("Remera", 100, 5)
    ensures Disponible(map[1 := remera], [1, 1])
    ensures Descontar(map[1 := remera], [1, 1]) == map[1 := remera.(stock := 3)]
    ensures Total(map[1 := remera], [1, 1]) == 200
  {
    var t, dos := map[1 := remera], [1, 1];
    assert multiset(dos)[1] == 2;
    assert dos[1..] == [1] && [1][1..] == [];
    assert Descontar(t, dos)[1] == remera.(stock := 3);
  }

  /** The scenario's update step: the two units come back, four are taken. */
  lemma EscenarioActualizar(remera: Producto)
    requires remera == Producto("Remera", 100, 5)
    ensures Reponer(map[1 := remera.(stock := 3)], [1, 1]) == map[1 := remera]
    ensures Disponible(map[1 := remera], [1, 1, 1, 1])
    ensures Descontar(map[1 := remera], [1, 1, 1, 1]) == map[1 := remera.(stock := 1)]
  {
    var t, dos, cuatro := map[1 := remera], [1, 1], [1, 1, 1, 1];
    assert multiset(dos)[1] == 2 && multiset(cuatro)[1] == 4;
    assert Reponer(map[1 := remera.(stock := 3)], dos)[1] == remera;
    assert Descontar(t, cuatro)[1] == remera.(stock := 1);
  }

  /** The scenario's new total: four units at 100, whatever the stock. */
  lemma EscenarioTotal(remera: Producto)
    requires remera.precio == 100
    ensures Total(map[1 := remera], [1, 1, 1, 1]) == 400
  {
    var t := map[1 := remera];
    assert [1, 1][1..] == [1] && [1][1..] == [];
    assert [1, 1, 1, 1] == [1, 1] + [1, 1];
    TotalConcat(t, [1, 1], [1, 1]);
  }

  /**
    A product listed twice in a sale, then four times, then the sale deleted:
    stock goes 5, 3, 1 and stays at 1, since deletion does not give units back.
   */
  method Escenario() returns (stockCreada: int, totalCreada: int, stockActualizada: int,
                              totalActualizada: int, stockBorrada: int)
    ensures stockCreada == 3 && totalCreada == 200
    ensures stockActualizada == 1 && totalActualizada == 400
    ensures stockBorrada == 1
  {
    var remera := Producto("Remera", 100, 5);
    EscenarioCrear(remera);
    EscenarioActualizar(remera);
    EscenarioTotal(remera.(stock := 3));
    var servicio := new VentaService(map[1 := remera], map[1 := Cliente("Valeria", "Casatti", "valeria@gmail.com")]);
    var creada := servicio.NewVenta(1, [1, 1], "2025-01-17 10:00:00");
    stockCreada, totalCreada := servicio.productos[1].stock, creada.value.total;
    var id := creada.value.id;
    var t, clientes, ventas := servicio.productos, servicio.clientes, servicio.ventas;
    assert id in ventas && ventas[id].productos == [1, 1] && t == map[1 := remera.(stock := 3)];
    ActualizacionGuardas(t, clientes, ventas, id, None, Some([1, 1, 1, 1]));
    ActualizacionStock(t, clientes, ventas, id, None, Some([1, 1, 1, 1]));
    var actualizada := servicio.UpdateVentaById(id, None, Some([1, 1, 1, 1]));
    stockActualizada, totalActualizada := servicio.productos[1].stock, actualizada.value.total;
    var borrada := servicio.DeleteVentaById(id);
    stockBorrada := servicio.productos[1].stock;
  }
}
