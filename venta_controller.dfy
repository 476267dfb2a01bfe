/**
 * The stock effects of the sale ("venta") handlers. Creating, activating and
 * deactivating a sale all call `disminuirStock` for every line: deactivation
 * goes the same way as activation, so activating and then deactivating a sale
 * takes its quantities off stock twice instead of giving them back.
 */
module VentaController {
  import opened Store
  import opened Schema
  import opened StockHelpers

  /**
   * The sale create handler (exported as `crearIngreso`): split `detalles` off
   * the body, store the header with the lines as its children, then call
   * `disminuirStock` once per line, in order. The reply is the header as
   * `create` returns it without `include`, without its lines.
   */
  method CrearVenta(ventas: TransaccionTable, articulos: Table<ArticuloData>,
                    body: TransaccionBody, freshId: Uuid, now: int)
    returns (res: Reply<Transaccion>)
    requires ventas.Valid() && articulos.Valid()
    requires !HasTx(ventas.rows, freshId)
    modifies ventas, articulos
    ensures ventas.Valid() && articulos.Valid()
    ensures res == Ok(201, NuevaTransaccion(freshId, body, now).(detalles := []))
    ensures ventas.rows == old(ventas.rows) + [NuevaTransaccion(freshId, body, now)]
    ensures articulos.rows == ApplyLines(old(articulos.rows), body.detalles, Down)
  {
    var detalles := body.detalles;
    var venta := NuevaTransaccion(freshId, body, now);
    ventas.Insert(venta);
    AplicarLineas(articulos, detalles, Down);
    res := Ok(201, venta.(detalles := []));
  }

  /**
   * `activarVenta`: write `estado` 1 and call `disminuirStock` for every line of
   * the stored sale, whatever its previous `estado`. An unknown id: 500, nothing changes.
   */
  method ActivarVenta(ventas: TransaccionTable, articulos: Table<ArticuloData>, ventaId: Uuid)
    returns (res: Reply<Transaccion>)
    requires ventas.Valid() && articulos.Valid()
    modifies ventas, articulos
    ensures ventas.Valid() && articulos.Valid()
    ensures ventas.rows == TxWithEstado(old(ventas.rows), ventaId, 1)
    ensures match FindTx(old(ventas.rows), ventaId)
            case None =>
              res == Fail(500, ErrorGenerico) && ventas.rows == old(ventas.rows) && articulos.rows == old(articulos.rows)
            case Some(t) =>
              res == Ok(200, t.(estado := 1)) && articulos.rows == ApplyLines(old(articulos.rows), t.detalles, Down)
  {
    var venta := ventas.SetEstado(ventaId, 1);
    if venta.None? {
      return Fail(500, ErrorGenerico);
    }
    var detalles := venta.value.detalles;
    AplicarLineas(articulos, detalles, Down);
    res := Ok(200, venta.value);
  }

  /**
   * `desactivarVenta`: write `estado` 0 and call `disminuirStock` (not
   * `aumentarStock`) for every line. An unknown id: 500, nothing changes.
   */
  method DesactivarVenta(ventas: TransaccionTable, articulos: Table<ArticuloData>, ventaId: Uuid)
    returns (res: Reply<Transaccion>)
    requires ventas.Valid() && articulos.Valid()
    modifies ventas, articulos
    ensures ventas.Valid() && articulos.Valid()
    ensures ventas.rows == TxWithEstado(old(ventas.rows), ventaId, 0)
    ensures match FindTx(old(ventas.rows), ventaId)
            case None =>
              res == Fail(500, ErrorGenerico) && ventas.rows == old(ventas.rows) && articulos.rows == old(articulos.rows)
            case Some(t) =>
              res == Ok(200, t.(estado := 0)) && articulos.rows == ApplyLines(old(articulos.rows), t.detalles, Down)
  {
    var venta := ventas.SetEstado(ventaId, 0);
    if venta.None? {
      return Fail(500, ErrorGenerico);
    }
    var detalles := venta.value.detalles;
    AplicarLineas(articulos, detalles, Down);
    res := Ok(200, venta.value);
  }

  /** Creating a sale moves each article's stock down by the summed quantities of the lines naming it. */
  lemma CrearVentaSubtractsSums(rows: seq<Articulo>, body: TransaccionBody, i: nat)
    requires i < |rows|
    ensures ApplyLines(rows, body.detalles, Down)[i].data.stock == rows[i].data.stock - SumFor(body.detalles, rows[i].id)
  {
    ApplyLinesNet(rows, body.detalles, Down);
  }

  /** Activation followed by deactivation of a sale lowers each article by twice its summed quantity. */
  lemma {:induction false} ActivarDesactivarLowersTwice(rows: seq<Articulo>, detalles: seq<Detalle>, i: nat)
    requires i < |rows|
    ensures ApplyLines(ApplyLines(rows, detalles, Down), detalles, Down)[i].data.stock
            == rows[i].data.stock - 2 * SumFor(detalles, rows[i].id)
  {
    var mid := ApplyLines(rows, detalles, Down);
    ApplyLinesNet(rows, detalles, Down);
    ApplyLinesNet(mid, detalles, Down);
    assert mid[i].id == rows[i].id;
  }

  /** So activation then deactivation is no round trip as soon as one stored article has a non-zero summed quantity. */
  lemma NotARoundTrip(rows: seq<Articulo>, detalles: seq<Detalle>, i: nat)
    requires i < |rows| && SumFor(detalles, rows[i].id) != 0
    ensures ApplyLines(ApplyLines(rows, detalles, Down), detalles, Down) != rows
  {
    ActivarDesactivarLowersTwice(rows, detalles, i);
  }

  /**
   * The two handlers run back to back on one stored sale: every article ends
   * lower by twice its summed quantity.
   */
  method ActivarLuegoDesactivar(ventas: TransaccionTable, articulos: Table<ArticuloData>, ventaId: Uuid)
    requires ventas.Valid() && articulos.Valid()
    requires HasTx(ventas.rows, ventaId)
    modifies ventas, articulos
    ensures |articulos.rows| == |old(articulos.rows)|
    ensures forall i :: 0 <= i < |old(articulos.rows)| ==>
              articulos.rows[i].data.stock ==
              old(articulos.rows)[i].data.stock - 2 * SumFor(FindTx(old(ventas.rows), ventaId).value.detalles, old(articulos.rows)[i].id)
  {
    ghost var t := FindTx(ventas.rows, ventaId).value;
    var first := ActivarVenta(ventas, articulos, ventaId);
    FindTxAfterEstado(old(ventas.rows), ventaId, 1);
    var second := DesactivarVenta(ventas, articulos, ventaId);
    forall i | 0 <= i < |old(articulos.rows)|
      ensures articulos.rows[i].data.stock == old(articulos.rows)[i].data.stock - 2 * SumFor(t.detalles, old(articulos.rows)[i].id)
    {
      ActivarDesactivarLowersTwice(old(articulos.rows), t.detalles, i);
    }
  }
}
