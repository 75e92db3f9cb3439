/**
  The records the sale workflow works on (customers, products, sales), the
  views it hands back to its callers, and the failures it raises.
  The store's object graph is replaced by ids: a sale refers to its customer
  and to its products by id, and the tables that hold them are maps.
 */
module Modelos {

  /** A database identity (a generated Java `Long`). */
  type Id = nat

  /** A sale's timestamp, kept as the opaque text the store holds. */
  type Fecha = string

  datatype Producto = Producto(nombre: string, precio: int, stock: int)

  datatype Cliente = Cliente(nombre: string, apellido: string, email: string)

  /**
    A stored sale. Its id is the key it is stored under; `productos` is the
    ordered list of product ids, one entry per unit sold, so a product may
    appear several times.
   */
  datatype Venta = Venta(clienteId: Id, productos: seq<Id>, total: int, fecha: Fecha)

  /** A product line of a sale as the service reports it: id and name. */
  datatype ProductoVista = ProductoVista(id: Id, nombre: string)

  /** A sale as the service reports it, with its customer's names. */
  datatype VentaVista = VentaVista(
    id: Id,
    clienteId: Id,
    nombre: string,
    apellido: string,
    total: int,
    fecha: Fecha,
    productos: seq<ProductoVista>)

  /** The `IllegalArgumentException`s the service raises, one per message. */
  datatype Error =
    | VentaNoEncontrada
    | ClienteNoEncontrado
    | ProductoNoEncontrado
    | StockInsuficiente

  datatype Result<T> = Ok(value: T) | Err(error: Error)

  /** A field of a request that may be null. */
  datatype Option<T> = None | Some(value: T)
}
