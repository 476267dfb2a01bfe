/**
 * The handler shapes the four catalogue controllers (articles, categories,
 * persons, users) repeat with their own messages: lookup by id behind a UUID
 * guard, soft delete, `estado` writes, and updates with a request body.
 */
module Catalogo {
  import opened Store

  /** Message every UUID guard answers with (status 400). */
  const IdInvalido: string := "ID inválido"

  /** A create request: the unique `nombre`, an optional `estado` and the entity's own columns. */
  datatype Alta<P> = Alta(nombre: string, estado: Option<int>, data: P)

  /** The row `create({ data })` stores: the generated id, schema defaults for the omitted columns. */
  function Nuevo<P>(id: Uuid, body: Alta<P>, now: int): (r: Record<P>)
    ensures r.id == id && r.nombre == body.nombre && r.data == body.data
    ensures r.eliminado == NO && r.createdAt == now
    ensures r.estado == (if body.estado.Some? then body.estado.value else DefaultEstado)
  {
    Record(id, body.nombre, match body.estado case Some(e) => e case None => DefaultEstado, NO, now, body.data)
  }

  /**
   * The get-by-id handlers: a non-UUID id is answered 400 before any lookup,
   * a missing id 404 with the controller's message, otherwise the stored row,
   * soft-deleted or not.
   */
  function ObtenerPorId<P>(rows: seq<Record<P>>, id: Uuid, isUuid: string -> bool, noExiste: string): (r: Reply<Record<P>>)
    ensures r.Ok? <==> isUuid(id) && HasId(rows, id)
    ensures r.Ok? ==> r.status == 200 && r.data in rows && r.data.id == id
    ensures !isUuid(id) ==> r == Fail(400, IdInvalido)
    ensures isUuid(id) && !HasId(rows, id) ==> r == Fail(404, noExiste)
  {
    if !isUuid(id) then Fail(400, IdInvalido)
    else match Find(rows, id)
      case None => Fail(404, noExiste)
      case Some(x) => Ok(200, x)
  }

  /** With unique ids the row returned is exactly the stored one, whatever its `eliminado`. */
  lemma ObtenerPorIdFindsStored<P>(rows: seq<Record<P>>, k: nat, isUuid: string -> bool, noExiste: string)
    requires UniqueIds(rows) && k < |rows| && isUuid(rows[k].id)
    ensures ObtenerPorId(rows, rows[k].id, isUuid, noExiste) == Ok(200, rows[k])
  {
    FindAt(rows, k);
  }

  /** A soft-deleted row is still served by id: the lookup does not look at `eliminado`. */
  lemma DeletedStillFound<P>(rows: seq<Record<P>>, k: nat, isUuid: string -> bool, noExiste: string)
    requires UniqueIds(rows) && k < |rows| && isUuid(rows[k].id)
    ensures ObtenerPorId(SoftDeleted(rows, rows[k].id), rows[k].id, isUuid, noExiste) == Ok(200, rows[k].(eliminado := SI))
  {
    var after := SoftDeleted(rows, rows[k].id);
    UpdateWhereShape(rows, rows[k].id, (r: Record<P>) => r.(eliminado := SI));
    FindAt(after, k);
  }

  /** Deleting twice stores what deleting once stores. */
  lemma SoftDeleteIdempotent<P>(rows: seq<Record<P>>, id: Uuid)
    ensures SoftDeleted(SoftDeleted(rows, id), id) == SoftDeleted(rows, id)
  {
    var once := SoftDeleted(rows, id);
    var twice := SoftDeleted(once, id);
    forall i | 0 <= i < |rows| ensures twice[i] == once[i] {
      assert once[i].id == rows[i].id;
    }
  }

  /** Of two `estado` writes on one row, the later one wins: deactivating after activating stores `estado` 0. */
  lemma LastEstadoWins<P>(rows: seq<Record<P>>, id: Uuid, first: int, second: int)
    ensures WithEstado(WithEstado(rows, id, first), id, second) == WithEstado(rows, id, second)
  {
    var mid := WithEstado(rows, id, first);
    var a := WithEstado(mid, id, second);
    var b := WithEstado(rows, id, second);
    forall i | 0 <= i < |rows| ensures a[i] == b[i] {
      assert mid[i].id == rows[i].id;
    }
  }

  /**
   * The delete handlers: 400 on a non-UUID id, 404 with the controller's
   * message on a missing one, otherwise `eliminado` becomes 'SI' and the
   * updated row is returned; nothing else in the table changes.
   */
  method Eliminar<P>(table: Table<P>, id: Uuid, isUuid: string -> bool, noEncontrado: string) returns (res: Reply<Record<P>>)
    requires table.Valid()
    modifies table
    ensures table.Valid()
    ensures !isUuid(id) ==> res == Fail(400, IdInvalido) && table.rows == old(table.rows)
    ensures isUuid(id) && !HasId(old(table.rows), id) ==> res == Fail(404, noEncontrado) && table.rows == old(table.rows)
    ensures isUuid(id) && HasId(old(table.rows), id) ==>
              res == Ok(200, Find(old(table.rows), id).value.(eliminado := SI)) && table.rows == SoftDeleted(old(table.rows), id)
  {
    if !isUuid(id) {
      return Fail(400, IdInvalido);
    }
    var found := Find(table.rows, id);
    if found.None? {
      return Fail(404, noEncontrado);
    }
    var updated := table.Update(id, (r: Record<P>) => r.(eliminado := SI));
    res := Ok(200, updated.value);
  }

  /**
   * The activate/deactivate handlers: an unguarded `update` of `estado`. A
   * missing id (or any id the store rejects) makes the update throw: 500.
   */
  method CambiarEstado<P>(table: Table<P>, id: Uuid, estado: int) returns (res: Reply<Record<P>>)
    requires table.Valid()
    modifies table
    ensures table.Valid()
    ensures table.rows == WithEstado(old(table.rows), id, estado)
    ensures !HasId(old(table.rows), id) ==> res == Fail(500, ErrorGenerico) && table.rows == old(table.rows)
    ensures HasId(old(table.rows), id) ==> res == Ok(200, Find(old(table.rows), id).value.(estado := estado))
  {
    var updated := table.Update(id, (r: Record<P>) => r.(estado := estado));
    if updated.None? {
      return Fail(500, ErrorGenerico);
    }
    res := Ok(200, updated.value);
  }

  /**
   * The update handlers of articles, categories and persons: 400 on a
   * non-UUID id, otherwise the body's columns (`patch`) are written to the
   * row; a missing id makes the update throw: 500.
   */
  method Actualizar<P>(table: Table<P>, id: Uuid, isUuid: string -> bool, patch: Record<P> -> Record<P>)
    returns (res: Reply<Record<P>>)
    requires table.Valid()
    modifies table
    ensures table.Valid()
    ensures !isUuid(id) ==> res == Fail(400, IdInvalido) && table.rows == old(table.rows)
    ensures isUuid(id) ==> table.rows == UpdateWhere(old(table.rows), id, patch)
    ensures isUuid(id) && !HasId(old(table.rows), id) ==> res == Fail(500, ErrorGenerico)
    ensures isUuid(id) && HasId(old(table.rows), id) ==> res == Ok(200, patch(Find(old(table.rows), id).value).(id := id))
  {
    if !isUuid(id) {
      return Fail(400, IdInvalido);
    }
    var updated := table.Update(id, patch);
    if updated.None? {
      return Fail(500, ErrorGenerico);
    }
    res := Ok(200, updated.value);
  }
}
