# Sale workflow of the invoicing backend, modelled in Dafny

The backend keeps customers (`Cliente`), products (`Producto`, with a price `precio`
and a `stock`) and sales (`Venta`). The sale service `VentaService` creates, updates,
deletes and reads sales and keeps product stock and sale totals consistent with them.
This project models that service.

Each sale holds an ordered list of product ids. The list may repeat an id: each
occurrence is one unit sold. It reserves one unit of that product's stock and adds
the product's price once to the sale's total.

- `modelos.dfy` (module `Modelos`): the records as datatypes. A sale refers to its
  customer and its products by id. The views the service returns are `VentaVista`
  and `ProductoVista`, and its failures are the `Error` values, one per
  `IllegalArgumentException` message.
- `stock.dfy` (module `Stock`): pure functions on the product table (`Tabla`, a map
  from id to product):
  - `ReservarTodos`: the reservation loop, taking one unit per listed id in order and
    checking each product against the stock left by the earlier turns.
  - `DevolverTodos`: the restoration loop, giving one unit back per listed id.
  - `Total`: the price sum over a list, counted with multiplicity.
  - Closed forms of the first two, `Descontar` and `Reponer`, with the lemmas that
    connect each loop to its closed form.
- `ventas.dfy` (module `Ventas`): the service as a class, `VentaService`. Its three
  repositories are map-valued fields, plus the counter the store uses to generate
  sale ids. The invariant `Valid()` (`Consistente`) says:
  - no stock is below zero;
  - every sale id is below the next id;
  - every sale refers to a known customer and known products;
  - every sale's total is the price sum of its product list.

  Creating and updating a sale run the same loops as the source, changing one
  product's stock per turn. `@Transactional` is modelled as all-or-nothing: the
  method saves the product table before the loops and puts it back when the call
  fails. The update is proved equal to a specification function, `Actualizacion`,
  and the update's properties are lemmas about that function.

Where the code does something a reader might not expect, the model follows the code:
- Delete does not give back the stock that the sale took. `deleteVentaById` only
  removes the sale.
- There are no per-line quantities or price snapshots in the service. A sale is a list
  of product ids with repetitions, and its total uses the prices in the product table.
  The controller passes a list of quantities as well
  (facturacion/src/main/java/com/coderhouse/controllers/VentaController.java:63-66),
  and the product entity refers to a sale-line entity
  (facturacion/src/main/java/com/coderhouse/models/Producto.java:56), but the service
  code has no use for either.
- Every failure is one kind of exception (`IllegalArgumentException`). The model has
  no separate not-found and invalid-argument classes.
- A product is rejected when its current stock is not positive. The code checks
  `stock <= 0` at each occurrence; it does not compare stock with a requested quantity.

## Model

| member | source | states |
|---|---|---|
| `Ventas.VentaService.constructor` | facturacion/src/main/java/com/coderhouse/services/VentaService.java:24-31 | The service over given product and customer tables starts with no sales and satisfies the invariant, provided no stock is negative. |
| `Ventas.VentaService.NewVenta` | facturacion/src/main/java/com/coderhouse/services/VentaService.java:69-119 | Succeeds exactly when the customer exists and every listed product exists with at least as many units as it is listed. An unknown customer fails with `ClienteNoEncontrado`; otherwise the error is the first failing turn's. A failure changes no table. On success each product's stock drops by its number of occurrences. The new sale is stored under a fresh id with the requested list in order, its price sum as total and the given timestamp, and its view is returned. The invariant is kept. |
| `Ventas.VentaService.ReservarProductos` | facturacion/src/main/java/com/coderhouse/services/VentaService.java:78-92 | The loop that looks each id up, rejects a product with no positive stock and takes one unit, in order. It ends exactly as `ReservarTodos` on the starting table says. On success it returns the requested ids in order. |
| `Ventas.VentaService.RestaurarStock` | facturacion/src/main/java/com/coderhouse/services/VentaService.java:137-144 | The loop that gives one unit back per id of the sale's old list. The table it leaves is `DevolverTodos` of the starting table. |
| `Ventas.VentaService.ReemplazarProductos` | facturacion/src/main/java/com/coderhouse/services/VentaService.java:135-167 | Restores the old list, then reserves the new one against the restored stock. It ends as `ReservarTodos(Reponer(old, viejos), nuevos)` says. On success it returns the new list's price sum. On failure it puts the product table back. The invariant is kept. |
| `Ventas.VentaService.UpdateVentaById` | facturacion/src/main/java/com/coderhouse/services/VentaService.java:121-183 | The new product table, the stored sale and the result are exactly what `Actualizacion` gives for the old tables. A failure changes no table, only the updated sale changes, and the invariant is kept. |
| `Ventas.ActualizacionGuardas` | facturacion/src/main/java/com/coderhouse/services/VentaService.java:124-157 | An update fails with `VentaNoEncontrada` for an unknown sale, then with `ClienteNoEncontrado` for a given but unknown customer. It succeeds exactly when, in addition, a non-empty new list fits the restored stock. Otherwise the error is the reservation's. |
| `Ventas.ActualizacionResultado` | facturacion/src/main/java/com/coderhouse/services/VentaService.java:127-135 | A successful update keeps the sale's timestamp and sets the customer only when one is given. With no list, or an empty one, products, total and stock are unchanged. |
| `Ventas.ActualizacionStock` | facturacion/src/main/java/com/coderhouse/services/VentaService.java:137-166 | With a new list, the sale stores that list in order and its price sum as total. Each product's final stock is its old stock plus its count in the old list minus its count in the new list. No stock goes below zero. |
| `Ventas.ActualizacionMismaLista` | facturacion/src/main/java/com/coderhouse/services/VentaService.java:137-157 | Re-submitting a sale's own product list, with no customer or a known one, always succeeds, keeps that list and leaves every stock as it was. This holds for an empty list too, which changes no product. |
| `Ventas.ConsistenteMismosPrecios` | facturacion/src/main/java/com/coderhouse/services/VentaService.java:163-166 | Changing stocks only, with none negative, keeps every stored total equal to its price sum. |
| `Ventas.ConsistenteGuardar` | facturacion/src/main/java/com/coderhouse/services/VentaService.java:99-106 | Storing a valid sale under an id below the next id keeps the invariant. |
| `Ventas.VentaService.DeleteVentaById` | facturacion/src/main/java/com/coderhouse/services/VentaService.java:186-191 | Fails with `VentaNoEncontrada` exactly when the id is unknown. Only that sale is removed: no stock, customer or other sale changes, and no units are given back. |
| `Ventas.VentaService.GetVentaById` | facturacion/src/main/java/com/coderhouse/services/VentaService.java:51-66 | Fails with `VentaNoEncontrada` exactly when the id is unknown. Otherwise it returns the sale's id, customer id and names, timestamp, and total (the price sum of its list), with one product line (id, name) per stored entry, in stored order. |
| `Ventas.VentaService.GetAllVentas` | facturacion/src/main/java/com/coderhouse/services/VentaService.java:34-48 | Returns every stored sale's view exactly once, by strictly ascending id, and nothing else. |
| `Ventas.VentaService.VistasDe` | facturacion/src/main/java/com/coderhouse/services/VentaService.java:35-47 | Maps a list of sale ids to their views, one for one and in order. |
| `Ventas.IdsHasta` | facturacion/src/main/java/com/coderhouse/services/VentaService.java:35 | The stored sale ids below a bound, each exactly once, in strictly ascending order. |
| `Stock.TotalConcat` | facturacion/src/main/java/com/coderhouse/services/VentaService.java:95-97 | The total of two lists joined is the sum of their totals. |
| `Stock.TotalPermutacion` | facturacion/src/main/java/com/coderhouse/services/VentaService.java:95-97 | Two lists with the same products and the same multiplicities have the same total, whatever their order. |
| `Stock.TotalMismosPrecios` | facturacion/src/main/java/com/coderhouse/services/VentaService.java:163-165 | A total depends only on the listed products' prices, not on stock. |
| `Stock.DescontarReponerMismosPrecios` | facturacion/src/main/java/com/coderhouse/services/VentaService.java:88 | Reserving or restoring stock changes no product's name or price and adds or removes no product. |
| `Stock.DisponibleCons` | facturacion/src/main/java/com/coderhouse/services/VentaService.java:83-88 | Once one unit of the first product is taken, the rest of the list fits exactly when the whole list fitted. |
| `Stock.NoDisponibleCons` | facturacion/src/main/java/com/coderhouse/services/VentaService.java:79-85 | A list whose first product is missing or has no positive stock does not fit. |
| `Stock.DescontarCons` | facturacion/src/main/java/com/coderhouse/services/VentaService.java:87-89 | Taking one unit of the first product and then reserving the rest is the reservation of the whole list. |
| `Stock.ReservarTodosCorrecto` | facturacion/src/main/java/com/coderhouse/services/VentaService.java:78-92 | The reservation loop succeeds exactly when every listed product exists and has a unit per occurrence. It then takes exactly that many units from each product. |
| `Stock.FallaEnCons` | facturacion/src/main/java/com/coderhouse/services/VentaService.java:78-85 | A turn at which the rest of the list stops fitting is, one turn later, where the whole list stops fitting. |
| `Stock.ReservarTodosError` | facturacion/src/main/java/com/coderhouse/services/VentaService.java:79-85 | A failed reservation names the first turn at which the list stops fitting: `ProductoNoEncontrado` if that product is missing, `StockInsuficiente` otherwise. |
| `Stock.ReponerCons` | facturacion/src/main/java/com/coderhouse/services/VentaService.java:142-143 | Giving one unit of the first product back and then the rest is the restoration of the whole list. |
| `Stock.DevolverTodosCorrecto` | facturacion/src/main/java/com/coderhouse/services/VentaService.java:138-144 | The restoration loop gives each product exactly one unit per occurrence back. |
| `Stock.ReservarTrasDevolver` | facturacion/src/main/java/com/coderhouse/services/VentaService.java:138-157 | Giving a list back and reserving the same list again always succeeds and restores the original table, provided no listed stock was negative. |
| `Stock.ReponerDescontar` | facturacion/src/main/java/com/coderhouse/services/VentaService.java:138-157 | Restoring one list and reserving another moves each product's stock by its count in the first minus its count in the second. |
| `Stock.DescontarNoNegativo` | facturacion/src/main/java/com/coderhouse/services/VentaService.java:83-88 | A reservation that fits never drives a stock below zero. |
| `Stock.TotalQuitar` | facturacion/src/main/java/com/coderhouse/services/VentaService.java:95-97 | Removing one entry from a list lowers its total by that entry's price. |
| `Stock.MultisetQuitar` | facturacion/src/main/java/com/coderhouse/services/VentaService.java:95-97 | Removing the same product from two lists with equal multisets leaves equal multisets. |
| `Ventas.EscenarioCrear` | facturacion/src/main/java/com/coderhouse/services/VentaService.java:78-97 | For one product priced 100 with 5 units, listed twice: the list fits, 3 units remain and the total is 200. |
| `Ventas.EscenarioActualizar` | facturacion/src/main/java/com/coderhouse/services/VentaService.java:138-157 | Giving those 2 units back restores 5. Four occurrences then fit and leave 1. |
| `Ventas.EscenarioTotal` | facturacion/src/main/java/com/coderhouse/services/VentaService.java:163-165 | Four occurrences of a product priced 100 total 400. |
| `Ventas.Escenario` | facturacion/src/main/java/com/coderhouse/services/VentaService.java:69-191 | Through the service: creating the sale of two units leaves stock 3 and total 200. Updating it to four units leaves stock 1 and total 400. Deleting it leaves stock at 1. |

## Left out

- The controllers (HTTP routing, request checks, mapping exceptions to status codes),
  the OpenAPI configuration and the application bootstrap: they are boundary code.
  Only the service's behaviour is modelled. The service's `newVenta` accepts an empty
  product list and the model does too; the controller rejects such a request before it
  reaches the service.
- The timestamp: `newVenta` reads the system clock, and the remote time service
  (`FechaService`) does network I/O. The model takes the timestamp as a parameter of
  `NewVenta` and stores it as given.
- Persistence and transactions: the repositories are in-memory maps. The database
  rollback of a failed `@Transactional` call is modelled by restoring the saved product
  table. Concurrency and isolation between calls are not modelled.
- Generated ids: the store's identity column is modelled as a counter that starts at 1
  and grows by one per created sale.
- `findAll` order: the source does not fix it. `GetAllVentas` returns the sales by
  ascending id, which is one order the store may use.
- `GetVentaById`, `GetAllVentas`: the order of a stored sale's product lines is not
  what the source guarantees. A sale's products are a many-to-many list with no order
  column (facturacion/src/main/java/com/coderhouse/models/Venta.java:57-64), so after
  a reload the store may return them in any order. The model returns them in the order
  in which they were stored.
- Null product ids: a request may carry a product line without an id, and the store
  rejects a null id in `findById`. In the model ids are natural numbers, never null,
  so that failure is not modelled.
- The null-stock guard in the update's restoration loop: stock is an integer that is
  never null in the model. That branch cannot happen and is not modelled.
- 32-bit overflow: the total (`int`) and the stock (`Integer`) wrap around at
  `Integer.MAX_VALUE` in the source. That concerns the price sum and the `+ 1` of the
  update's restoration loop. The model uses mathematical integers for both.
- Exception messages: errors are the four `Error` values. The product name in the
  update's "insufficient stock" message is not kept.
- The product-line quantity and unit-price variant that the controller and the
  product entity refer to is not modelled. The service code works on plain lists of
  product ids, and the model follows it.
- Customer deletion cascading to sales, and changes to products made outside the sale
  service: these are not part of this model.
- The invariant that each stored total equals its list's price sum assumes prices never
  change. A price update through the product CRUD would break it, and `getVentaById`
  would then return the old stored total.
