/**
 * The stock effects of the receipt ("ingreso") handlers: creating a receipt
 * adds every line's quantity to its article, activating it adds them again,
 * deactivating it subtracts them. The `estado` a receipt had before plays no
 * part: nothing stops a second activation from adding a second time.
 */
module IngresoController {
  import opened Store
  import opened Schema
  import opened StockHelpers

  /**
   * `crearIngreso`: store the receipt with its lines, then call `aumentarStock`
   * once per line, in order, whatever `estado` the body carries. The reply is
   * what `create` returns without `include`: the header, without its lines.
   */
  method CrearIngreso(ingresos: TransaccionTable, articulos: Table<ArticuloData>,
                      body: TransaccionBody, freshId: Uuid, now: int)
    returns (res: Reply<Transaccion>)
    requires ingresos.Valid() && articulos.Valid()
    requires !HasTx(ingresos.rows, freshId)
    modifies ingresos, articulos
    ensures ingresos.Valid() && articulos.Valid()
    ensures res == Ok(201, NuevaTransaccion(freshId, body, now).(detalles := []))
    ensures ingresos.rows == old(ingresos.rows) + [NuevaTransaccion(freshId, body, now)]
    ensures articulos.rows == ApplyLines(old(articulos.rows), body.detalles, Up)
  {
    var ingreso := NuevaTransaccion(freshId, body, now);
    ingresos.Insert(ingreso);
    var detalles := body.detalles;
    AplicarLineas(articulos, detalles, Up);
    res := Ok(201, ingreso.(detalles := []));
  }

  /**
   * `activarIngreso`: write `estado` 1 and call `aumentarStock` for every line
   * of the stored receipt. An unknown id makes the update throw: 500, nothing changes.
   */
  method ActivarIngreso(ingresos: TransaccionTable, articulos: Table<ArticuloData>, ingresoId: Uuid)
    returns (res: Reply<Transaccion>)
    requires ingresos.Valid() && articulos.Valid()
    modifies ingresos, articulos
    ensures ingresos.Valid() && articulos.Valid()
    ensures ingresos.rows == TxWithEstado(old(ingresos.rows), ingresoId, 1)
    ensures match FindTx(old(ingresos.rows), ingresoId)
            case None =>
              res == Fail(500, ErrorGenerico) && ingresos.rows == old(ingresos.rows) && articulos.rows == old(articulos.rows)
            case Some(t) =>
              res == Ok(200, t.(estado := 1)) && articulos.rows == ApplyLines(old(articulos.rows), t.detalles, Up)
  {
    var ingreso := ingresos.SetEstado(ingresoId, 1);
    if ingreso.None? {
      return Fail(500, ErrorGenerico);
    }
    var detalles := ingreso.value.detalles;
    AplicarLineas(articulos, detalles, Up);
    res := Ok(200, ingreso.value);
  }

  /**
   * `desactivarIngreso`: write `estado` 0 and call `disminuirStock` for every
   * line of the stored receipt. An unknown id: 500, nothing changes.
   */
  method DesactivarIngreso(ingresos: TransaccionTable, articulos: Table<ArticuloData>, ingresoId: Uuid)
    returns (res: Reply<Transaccion>)
    requires ingresos.Valid() && articulos.Valid()
    modifies ingresos, articulos
    ensures ingresos.Valid() && articulos.Valid()
    ensures ingresos.rows == TxWithEstado(old(ingresos.rows), ingresoId, 0)
    ensures match FindTx(old(ingresos.rows), ingresoId)
            case None =>
              res == Fail(500, ErrorGenerico) && ingresos.rows == old(ingresos.rows) && articulos.rows == old(articulos.rows)
            case Some(t) =>
              res == Ok(200, t.(estado := 0)) && articulos.rows == ApplyLines(old(articulos.rows), t.detalles, Down)
  {
    var ingreso := ingresos.SetEstado(ingresoId, 0);
    if ingreso.None? {
      return Fail(500, ErrorGenerico);
    }
    var detalles := ingreso.value.detalles;
    AplicarLineas(articulos, detalles, Down);
    res := Ok(200, ingreso.value);
  }

  /** Creating a receipt moves each article's stock up by the summed quantities of the lines naming it. */
  lemma CrearIngresoAddsSums(rows: seq<Articulo>, body: TransaccionBody, i: nat)
    requires i < |rows|
    ensures ApplyLines(rows, body.detalles, Up)[i].data.stock == rows[i].data.stock + SumFor(body.detalles, rows[i].id)
  {
    ApplyLinesNet(rows, body.detalles, Up);
  }

  /** Activation followed by deactivation of the same receipt leaves every article as it was. */
  lemma {:induction false} ActivarDesactivarRestores(rows: seq<Articulo>, detalles: seq<Detalle>)
    ensures ApplyLines(ApplyLines(rows, detalles, Up), detalles, Down) == rows
  {
    var mid := ApplyLines(rows, detalles, Up);
    var back := ApplyLines(mid, detalles, Down);
    ApplyLinesNet(rows, detalles, Up);
    ApplyLinesNet(mid, detalles, Down);
    forall i | 0 <= i < |rows| ensures back[i] == rows[i] {
      assert mid[i].id == rows[i].id;
    }
  }

  /** Activating a receipt twice adds its quantities twice: the handler does not look at the old `estado`. */
  lemma {:induction false} DoubleActivationAddsTwice(rows: seq<Articulo>, detalles: seq<Detalle>, i: nat)
    requires i < |rows|
    ensures ApplyLines(ApplyLines(rows, detalles, Up), detalles, Up)[i].data.stock
            == rows[i].data.stock + 2 * SumFor(detalles, rows[i].id)
  {
    var mid := ApplyLines(rows, detalles, Up);
    ApplyLinesNet(rows, detalles, Up);
    ApplyLinesNet(mid, detalles, Up);
    assert mid[i].id == rows[i].id;
  }

  /**
   * The two handlers run back to back on one receipt: the article table ends
   * where it started, and the receipt ends with `estado` 0.
   */
  method ActivarLuegoDesactivar(ingresos: TransaccionTable, articulos: Table<ArticuloData>, ingresoId: Uuid)
    requires ingresos.Valid() && articulos.Valid()
    modifies ingresos, articulos
    ensures articulos.rows == old(articulos.rows)
    ensures ingresos.rows == TxWithEstado(old(ingresos.rows), ingresoId, 0)
  {
    var first := ActivarIngreso(ingresos, articulos, ingresoId);
    ghost var activated := ingresos.rows;
    var second := DesactivarIngreso(ingresos, articulos, ingresoId);
    match FindTx(old(ingresos.rows), ingresoId)
    case None =>
    case Some(t) =>
      FindTxAfterEstado(old(ingresos.rows), ingresoId, 1);
      ActivarDesactivarRestores(old(articulos.rows), t.detalles);
    assert ingresos.rows == TxWithEstado(old(ingresos.rows), ingresoId, 0);
  }
}
