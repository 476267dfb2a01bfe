/**
 * The entities of the inventory backend: the columns each catalogue table
 * adds to the shared `Record` shape, the receipt/sale transactions with
 * their line items, and the JSON objects handlers send for users.
 */
module Schema {
  import opened Store

  /** Article columns besides the shared ones; the float `precio_venta` is not carried. */
  datatype ArticuloData = ArticuloData(categoriaId: Uuid, codigo: Option<string>, descripcion: Option<string>, stock: int)
  type Articulo = Record<ArticuloData>

  datatype CategoriaData = CategoriaData(descripcion: Option<string>)
  type Categoria = Record<CategoriaData>

  const Cliente: string := "Cliente"
  const Proveedor: string := "Proveedor"

  datatype PersonaData = PersonaData(
    tipoPersona: string, email: string,
    tipoDocumento: Option<string>, numDocumento: Option<string>,
    direccion: Option<string>, telefono: Option<string>)
  type Persona = Record<PersonaData>

  /** `password` holds the bcrypt hash, never the plaintext the client sent. */
  datatype UsuarioData = UsuarioData(
    username: string, email: string, password: string, rol: string,
    tipoDocumento: Option<string>, numDocumento: Option<string>,
    direccion: Option<string>, telefono: Option<string>)
  type Usuario = Record<UsuarioData>

  /** A JSON value as a handler serialises it; `undefined` members are absent keys. */
  datatype Json = JNull | JInt(n: int) | JStr(s: string) | JObj(fields: map<string, Json>)

  type JsonObject = map<string, Json>

  function OptStr(o: Option<string>): Json {
    match o
    case None => JNull
    case Some(s) => JStr(s)
  }

  /** A user row as the ORM hands it to a handler: one key per column. */
  function UsuarioJson(u: Usuario): (j: JsonObject)
    ensures "id" in j && j["id"] == JStr(u.id) && "uid" !in j
    ensures "password" in j && j["password"] == JStr(u.data.password)
    ensures "estado" in j && j["estado"] == JInt(u.estado) && "eliminado" in j && j["eliminado"] == JStr(u.eliminado)
  {
    map[
      "id" := JStr(u.id), "nombre" := JStr(u.nombre),
      "username" := JStr(u.data.username), "email" := JStr(u.data.email),
      "password" := JStr(u.data.password), "rol" := JStr(u.data.rol),
      "tipo_documento" := OptStr(u.data.tipoDocumento), "num_documento" := OptStr(u.data.numDocumento),
      "direccion" := OptStr(u.data.direccion), "telefono" := OptStr(u.data.telefono),
      "estado" := JInt(u.estado), "eliminado" := JStr(u.eliminado), "createdAt" := JInt(u.createdAt)]
  }

  /** The decoded payload of a JSON web token. */
  type Claims = JsonObject

  /** The payload `generarJWT(uid)` signs: the argument under the single key `uid`. */
  function PayloadJwt(uid: Json): (c: Claims)
    ensures "uid" in c && c["uid"] == uid && "id" !in c && "rol" !in c
  {
    map["uid" := uid]
  }

  /** A line item of a receipt or a sale: which article, how many units. */
  datatype Detalle = Detalle(articulo: Uuid, cantidad: int)

  /** A receipt ("ingreso") or sale ("venta") header with its line items; the float totals are not carried. */
  datatype Transaccion = Transaccion(
    id: Uuid, usuarioId: Uuid, personaId: Uuid,
    tipoComprobante: string, serieComprobante: Option<string>, numComprobante: string,
    estado: int, detalles: seq<Detalle>, createdAt: int)

  /** The body of a create request: header fields plus `detalles`. */
  datatype TransaccionBody = TransaccionBody(
    usuarioId: Uuid, personaId: Uuid,
    tipoComprobante: string, serieComprobante: Option<string>, numComprobante: string,
    estado: Option<int>, detalles: seq<Detalle>)

  /**
   * The record `create({ data: { ...header, detalles: { create: detalles } } })`
   * stores: the header fields go to the transaction, the lines become its children.
   */
  function NuevaTransaccion(id: Uuid, body: TransaccionBody, now: int): (t: Transaccion)
    ensures t.id == id && t.detalles == body.detalles && t.createdAt == now
    ensures t.usuarioId == body.usuarioId && t.personaId == body.personaId
    ensures t.tipoComprobante == body.tipoComprobante && t.serieComprobante == body.serieComprobante
    ensures t.numComprobante == body.numComprobante
    ensures t.estado == (if body.estado.Some? then body.estado.value else DefaultEstado)
  {
    Transaccion(id, body.usuarioId, body.personaId,
                body.tipoComprobante, body.serieComprobante, body.numComprobante,
                match body.estado case Some(e) => e case None => DefaultEstado,
                body.detalles, now)
  }

  ghost predicate UniqueTxIds(rows: seq<Transaccion>) {
    forall i, j :: 0 <= i < j < |rows| ==> rows[i].id != rows[j].id
  }

  predicate HasTx(rows: seq<Transaccion>, id: Uuid) {
    exists i :: 0 <= i < |rows| && rows[i].id == id
  }

  function FindTx(rows: seq<Transaccion>, id: Uuid): (r: Option<Transaccion>)
    ensures r.Some? <==> HasTx(rows, id)
    ensures r.Some? ==> r.value in rows && r.value.id == id
  {
    if |rows| == 0 then None
    else if rows[0].id == id then Some(rows[0])
    else
      var r := FindTx(rows[1..], id);
      assert HasTx(rows, id) ==> r.Some? by {
        if HasTx(rows, id) {
          var k :| 0 <= k < |rows| && rows[k].id == id;
          assert rows[1..][k - 1].id == id;
        }
      }
      r
  }

  /**
   * The transactions after `update({ where: { id }, data: { estado } })`, in
   * closed form: the reference `SetEstado` and `FindTxAfterEstado` are proved against.
   */
  function TxWithEstado(rows: seq<Transaccion>, id: Uuid, estado: int): (r: seq<Transaccion>)
    ensures |r| == |rows|
    ensures forall i :: 0 <= i < |rows| ==> r[i] == if rows[i].id == id then rows[i].(estado := estado) else rows[i]
  {
    seq(|rows|, i requires 0 <= i < |rows| => if rows[i].id == id then rows[i].(estado := estado) else rows[i])
  }

  /** Writing `estado` keeps the record's lines, so a later handler sees the same `detalles`. */
  lemma FindTxAfterEstado(rows: seq<Transaccion>, id: Uuid, estado: int)
    requires UniqueTxIds(rows)
    ensures FindTx(TxWithEstado(rows, id, estado), id) ==
            (match FindTx(rows, id) case None => None case Some(t) => Some(t.(estado := estado)))
  {
    if |rows| > 0 {
      var after := TxWithEstado(rows, id, estado);
      assert after[1..] == TxWithEstado(rows[1..], id, estado);
      FindTxAfterEstado(rows[1..], id, estado);
    }
  }

  /** The `ingreso` or the `venta` table. */
  class TransaccionTable {
    var rows: seq<Transaccion>

    ghost predicate Valid()
      reads this
    {
      UniqueTxIds(rows)
    }

    constructor ()
      ensures Valid() && rows == []
    {
      rows := [];
    }

    method Insert(t: Transaccion)
      requires Valid() && !HasTx(rows, t.id)
      modifies this
      ensures Valid() && rows == old(rows) + [t]
    {
      rows := rows + [t];
    }

    /**
     * `update({ where: { id }, data: { estado }, include: { detalles: true } })`:
     * a missing id makes the ORM throw (`None`) and changes nothing; otherwise
     * the header's `estado` is written and the record, lines included, returned.
     */
    method SetEstado(id: Uuid, estado: int) returns (updated: Option<Transaccion>)
      requires Valid()
      modifies this
      ensures Valid()
      ensures updated == (match FindTx(old(rows), id)
                          case None => None
                          case Some(t) => Some(t.(estado := estado)))
      ensures rows == TxWithEstado(old(rows), id, estado)
      ensures !HasTx(old(rows), id) ==> rows == old(rows)
    {
      var found := FindTx(rows, id);
      if found.Some? {
        updated := Some(found.value.(estado := estado));
      } else {
        updated := None;
      }
      rows := TxWithEstado(rows, id, estado);
    }
  }
}
