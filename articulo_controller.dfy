/**
 * The article handlers: the paginated, filtered listing, lookup by id, create
 * with a unique `nombre`, update, soft delete and the `estado` toggles.
 */
module ArticuloController {
  import opened Store
  import opened Schema
  import opened Catalogo

  const ArticuloNoExiste: string := "El articulo no existe"
  const ArticuloYaRegistrado: string := "El articulo ya está registrado."
  const ArticuloNoEncontrado: string := "Articulo no encontrado"

  /** Query defaults: `page = 1`, `limit = 10`. */
  const PaginaPorDefecto: int := 1
  const LimitePorDefecto: nat := 10

  /** The JSON body of a successful listing. `totalPages` is null when `limit` is 0. */
  datatype Pagina = Pagina(data: seq<Articulo>, total: nat, page: int, totalPages: Option<nat>)

  /** The `findMany` filter: not deleted, and every search term the query supplies matches. */
  function Visible(matches: Articulo -> bool): Articulo -> bool {
    (a: Articulo) => NotDeleted(a) && matches(a)
  }

  /** `pages` pages of `limit` rows hold `total` rows, and one page fewer would not. */
  predicate PagesCover(pages: nat, total: nat, limit: nat) {
    (pages - 1) * limit < total <= pages * limit
  }

  /** `Math.ceil(total / limit)` for a positive limit. */
  function CeilDiv(total: nat, limit: nat): (q: nat)
    requires limit > 0
    ensures PagesCover(q, total, limit)
  {
    (total + limit - 1) / limit
  }

  function Min(a: int, b: int): int {
    if a <= b then a else b
  }

  /** The `page` and `limit` the handler works with once the query defaults are applied. */
  function PaginaDe(page: Option<int>): int {
    if page.Some? then page.value else PaginaPorDefecto
  }

  function LimiteDe(limit: Option<nat>): nat {
    if limit.Some? then limit.value else LimitePorDefecto
  }

  /** `skip = (page - 1) * limit`: page 1 starts at row 0, and each page starts `limit` rows after the one before. */
  function Skip(p: int, l: nat): (skip: int)
    ensures p == 1 ==> skip == 0
    ensures skip < 0 <==> p < 1 && l > 0
  {
    (p - 1) * l
  }

  /** `skip` and `take` on the listing: the `l` rows from position `skip` on, fewer near the end. */
  function Window(listed: seq<Articulo>, skip: nat, l: nat): (w: seq<Articulo>)
    ensures |w| == Min(l, if skip <= |listed| then |listed| - skip else 0)
    ensures forall k :: 0 <= k < |w| ==> w[k] == listed[skip + k]
  {
    var from := Min(skip, |listed|);
    listed[from..Min(from + l, |listed|)]
  }

  /**
   * `obtenerArticulos`: a negative `skip` is refused by the store (500). The
   * page holds the `limit` rows after `skip` of the newest-first listing of
   * non-deleted matches; `total` counts every match, deleted or not.
   */
  function ObtenerArticulos(rows: seq<Articulo>, matches: Articulo -> bool, page: Option<int>, limit: Option<nat>)
    : (r: Reply<Pagina>)
    ensures r.Fail? <==> Skip(PaginaDe(page), LimiteDe(limit)) < 0
    ensures r.Fail? ==> r == Fail(500, ErrorGenerico)
    ensures r.Ok? ==> r.status == 200 && r.data.page == PaginaDe(page) && r.data.total == |Filter(rows, matches)|
    ensures r.Ok? ==> |r.data.data| <= LimiteDe(limit)
    ensures r.Ok? ==> var skip := Skip(PaginaDe(page), LimiteDe(limit));
                      var listed := Listing(rows, Visible(matches));
                      && |r.data.data| == Min(LimiteDe(limit), if skip <= |listed| then |listed| - skip else 0)
                      && forall k :: 0 <= k < |r.data.data| ==> r.data.data[k] == listed[skip + k]
    ensures r.Ok? ==> (LimiteDe(limit) == 0 <==> r.data.totalPages.None?)
    ensures r.Ok? && LimiteDe(limit) > 0 ==> PagesCover(r.data.totalPages.value, r.data.total, LimiteDe(limit))
  {
    var p := PaginaDe(page);
    var l := LimiteDe(limit);
    var skip := Skip(p, l);
    if skip < 0 then Fail(500, ErrorGenerico)
    else
      var total := |Filter(rows, matches)|;
      Ok(200, Pagina(Window(Listing(rows, Visible(matches)), skip, l), total, p, if l == 0 then None else Some(CeilDiv(total, l))))
  }

  /** A window keeps only rows of the listing, in the listing's order. */
  lemma WindowKeepsOrder(listed: seq<Articulo>, skip: nat, l: nat)
    requires NewestFirst(listed)
    ensures forall x :: x in Window(listed, skip, l) ==> x in listed
    ensures NewestFirst(Window(listed, skip, l))
  {
    var d := Window(listed, skip, l);
    forall x | x in d ensures x in listed {
      var k :| 0 <= k < |d| && d[k] == x;
      assert listed[skip + k] in listed;
    }
  }

  /** Every row on a page is a stored, non-deleted match, and the page runs newest first. */
  lemma PageRowsVisible(rows: seq<Articulo>, matches: Articulo -> bool, page: Option<int>, limit: Option<nat>)
    requires ObtenerArticulos(rows, matches, page, limit).Ok?
    ensures var d := ObtenerArticulos(rows, matches, page, limit).data.data;
            && (forall x :: x in d ==> x in rows && NotDeleted(x) && matches(x))
            && NewestFirst(d)
  {
    var skip: nat := Skip(PaginaDe(page), LimiteDe(limit));
    var listed := Listing(rows, Visible(matches));
    WindowKeepsOrder(listed, skip, LimiteDe(limit));
  }

  /** Rows kept by a stricter filter are never more than the rows kept by a looser one. */
  lemma {:induction false} FilterSplit(rows: seq<Articulo>, strict: Articulo -> bool, loose: Articulo -> bool)
    requires forall x :: strict(x) ==> loose(x)
    ensures |Filter(rows, loose)| == |Filter(rows, strict)| + |Filter(rows, (x: Articulo) => loose(x) && !strict(x))|
  {
    if |rows| > 0 {
      FilterSplit(rows[1..], strict, loose);
    }
  }

  /**
   * `total` counts deleted matches too: it is never below the number of
   * listed rows, and a deleted match makes it strictly larger.
   */
  lemma TotalCountsDeleted(rows: seq<Articulo>, matches: Articulo -> bool)
    ensures |Listing(rows, Visible(matches))| <= |Filter(rows, matches)|
    ensures (exists k :: 0 <= k < |rows| && matches(rows[k]) && !NotDeleted(rows[k])) ==>
              |Listing(rows, Visible(matches))| < |Filter(rows, matches)|
  {
    var listed := Listing(rows, Visible(matches));
    var kept := Filter(rows, Visible(matches));
    assert |listed| == |multiset(listed)| == |multiset(kept)| == |kept| by {
      assert multiset(listed) == multiset(kept);
    }
    var hidden := (x: Articulo) => matches(x) && !Visible(matches)(x);
    FilterSplit(rows, Visible(matches), matches);
    if exists k :: 0 <= k < |rows| && matches(rows[k]) && !NotDeleted(rows[k]) {
      var k :| 0 <= k < |rows| && matches(rows[k]) && !NotDeleted(rows[k]);
      assert rows[k] in Filter(rows, hidden);
    }
  }

  lemma MulMonotone(a: int, b: int, l: nat)
    requires a <= b
    ensures a * l <= b * l
  {
    assert b * l - a * l == (b - a) * l;
  }

  /** Every position `k` is offset `k % l` of page `k / l + 1`. */
  lemma PageOfRow(k: nat, l: nat)
    requires l > 0
    ensures 0 <= Skip(k / l + 1, l) && Skip(k / l + 1, l) + k % l == k && k % l < l
  {
    var q := k / l;
    assert q * l + k % l == k;
    assert q >= 0;
    assert Skip(q + 1, l) == q * l;
  }

  /** A page that starts before the `total`-th row is no later than the last of `pages` pages. */
  lemma PageWithinTotal(p: int, l: nat, total: nat, pages: nat)
    requires l > 0 && p >= 1 && Skip(p, l) < total && PagesCover(pages, total, l)
    ensures p <= pages
  {
    if p > pages {
      MulMonotone(pages, p - 1, l);
      assert false;
    }
  }

  /**
   * With a positive limit, the row at `offset` on page `p` is the listing's row
   * `(p - 1) * limit + offset`, and such a page is within `totalPages`.
   */
  lemma ListedRowOnPage(rows: seq<Articulo>, matches: Articulo -> bool, p: int, l: nat, offset: nat)
    requires l > 0 && p >= 1 && offset < l
    requires Skip(p, l) + offset < |Listing(rows, Visible(matches))|
    ensures var r := ObtenerArticulos(rows, matches, Some(p), Some(l));
            && r.Ok? && offset < |r.data.data|
            && r.data.data[offset] == Listing(rows, Visible(matches))[Skip(p, l) + offset]
            && p <= r.data.totalPages.value
  {
    RowOnPage(rows, matches, p, l, offset);
    PageCounted(rows, matches, p, l, offset);
  }

  lemma RowOnPage(rows: seq<Articulo>, matches: Articulo -> bool, p: int, l: nat, offset: nat)
    requires l > 0 && p >= 1 && offset < l
    requires Skip(p, l) + offset < |Listing(rows, Visible(matches))|
    ensures var r := ObtenerArticulos(rows, matches, Some(p), Some(l));
            && r.Ok? && offset < |r.data.data|
            && r.data.data[offset] == Listing(rows, Visible(matches))[Skip(p, l) + offset]
  {
    var listed := Listing(rows, Visible(matches));
    var skip := Skip(p, l);
    assert PaginaDe(Some(p)) == p && LimiteDe(Some(l)) == l;
    assert skip >= 0;
    var r := ObtenerArticulos(rows, matches, Some(p), Some(l));
    assert |r.data.data| == Min(l, |listed| - skip);
  }

  lemma PageCounted(rows: seq<Articulo>, matches: Articulo -> bool, p: int, l: nat, offset: nat)
    requires l > 0 && p >= 1 && offset < l
    requires Skip(p, l) + offset < |Listing(rows, Visible(matches))|
    ensures var r := ObtenerArticulos(rows, matches, Some(p), Some(l));
            && r.Ok? && r.data.totalPages.Some? && p <= r.data.totalPages.value
  {
    assert PaginaDe(Some(p)) == p && LimiteDe(Some(l)) == l;
    var r := ObtenerArticulos(rows, matches, Some(p), Some(l));
    TotalCountsDeleted(rows, matches);
    PageWithinTotal(p, l, r.data.total, r.data.totalPages.value);
  }

  /** `obtenerArticuloId`: 400 on a non-UUID id, 404 on a missing one, else the stored article. */
  function ObtenerArticuloId(rows: seq<Articulo>, id: Uuid, isUuid: string -> bool): (r: Reply<Articulo>)
    ensures r.Ok? <==> isUuid(id) && HasId(rows, id)
    ensures r.Ok? ==> r.status == 200 && r.data in rows && r.data.id == id
    ensures !isUuid(id) ==> r == Fail(400, IdInvalido)
    ensures isUuid(id) && !HasId(rows, id) ==> r == Fail(404, ArticuloNoExiste)
  {
    ObtenerPorId(rows, id, isUuid, ArticuloNoExiste)
  }

  /**
   * `crearArticulo`: a taken `nombre` is answered 400 and nothing is stored;
   * otherwise the body is stored as a new row with a fresh id.
   */
  method CrearArticulo(articulos: Table<ArticuloData>, body: Alta<ArticuloData>, freshId: Uuid, now: int)
    returns (res: Reply<Articulo>)
    requires articulos.Valid() && !HasId(articulos.rows, freshId)
    modifies articulos
    ensures articulos.Valid()
    ensures HasNombre(old(articulos.rows), body.nombre) ==>
              res == Fail(400, ArticuloYaRegistrado) && articulos.rows == old(articulos.rows)
    ensures !HasNombre(old(articulos.rows), body.nombre) ==>
              res == Ok(201, Nuevo(freshId, body, now)) && articulos.rows == old(articulos.rows) + [Nuevo(freshId, body, now)]
    ensures UniqueNombres(old(articulos.rows)) ==> UniqueNombres(articulos.rows)
  {
    if HasNombre(articulos.rows, body.nombre) {
      return Fail(400, ArticuloYaRegistrado);
    }
    var articulo := Nuevo(freshId, body, now);
    articulos.Insert(articulo);
    res := Ok(201, articulo);
  }

  /** `actualizarArticulo`: UUID guard, then the body's columns are written; a missing id: 500. */
  method ActualizarArticulo(articulos: Table<ArticuloData>, id: Uuid, isUuid: string -> bool, patch: Articulo -> Articulo)
    returns (res: Reply<Articulo>)
    requires articulos.Valid()
    modifies articulos
    ensures articulos.Valid()
    ensures !isUuid(id) ==> res == Fail(400, IdInvalido) && articulos.rows == old(articulos.rows)
    ensures isUuid(id) ==> articulos.rows == UpdateWhere(old(articulos.rows), id, patch)
    ensures isUuid(id) && !HasId(old(articulos.rows), id) ==> res == Fail(500, ErrorGenerico)
    ensures isUuid(id) && HasId(old(articulos.rows), id) ==> res == Ok(200, patch(Find(old(articulos.rows), id).value).(id := id))
  {
    res := Actualizar(articulos, id, isUuid, patch);
  }

  /** `eliminarArticulo`: 400, 404 'Articulo no encontrado', or `eliminado` set to 'SI'. */
  method EliminarArticulo(articulos: Table<ArticuloData>, id: Uuid, isUuid: string -> bool) returns (res: Reply<Articulo>)
    requires articulos.Valid()
    modifies articulos
    ensures articulos.Valid()
    ensures !isUuid(id) ==> res == Fail(400, IdInvalido) && articulos.rows == old(articulos.rows)
    ensures isUuid(id) && !HasId(old(articulos.rows), id) ==> res == Fail(404, ArticuloNoEncontrado) && articulos.rows == old(articulos.rows)
    ensures isUuid(id) && HasId(old(articulos.rows), id) ==>
              res == Ok(200, Find(old(articulos.rows), id).value.(eliminado := SI)) && articulos.rows == SoftDeleted(old(articulos.rows), id)
  {
    res := Eliminar(articulos, id, isUuid, ArticuloNoEncontrado);
  }

  /** `activarArticulo`: `estado` 1, no UUID guard; a missing id: 500. */
  method ActivarArticulo(articulos: Table<ArticuloData>, id: Uuid) returns (res: Reply<Articulo>)
    requires articulos.Valid()
    modifies articulos
    ensures articulos.Valid() && articulos.rows == WithEstado(old(articulos.rows), id, 1)
    ensures !HasId(old(articulos.rows), id) ==> res == Fail(500, ErrorGenerico)
    ensures HasId(old(articulos.rows), id) ==> res == Ok(200, Find(old(articulos.rows), id).value.(estado := 1))
  {
    res := CambiarEstado(articulos, id, 1);
  }

  /** `desactivarArticulo`: `estado` 0, no UUID guard; a missing id: 500. */
  method DesactivarArticulo(articulos: Table<ArticuloData>, id: Uuid) returns (res: Reply<Articulo>)
    requires articulos.Valid()
    modifies articulos
    ensures articulos.Valid() && articulos.rows == WithEstado(old(articulos.rows), id, 0)
    ensures !HasId(old(articulos.rows), id) ==> res == Fail(500, ErrorGenerico)
    ensures HasId(old(articulos.rows), id) ==> res == Ok(200, Find(old(articulos.rows), id).value.(estado := 0))
  {
    res := CambiarEstado(articulos, id, 0);
  }
}
