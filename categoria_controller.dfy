/**
 * The category handlers: listing of the non-deleted categories, lookup by id,
 * create with a unique `nombre` from `nombre` and `descripcion` only, update,
 * soft delete and the `estado` toggles.
 */
module CategoriaController {
  import opened Store
  import opened Schema
  import opened Catalogo

  const RegistroNoExiste: string := "El registro no existe"
  const CategoriaYaExiste: string := "La categoría ya existe"
  const CategoriaNoEncontrada: string := "Categoría no encontrada"

  /** `obtenerCategorias`: exactly the non-deleted categories, each as often as stored, newest first. */
  function ObtenerCategorias(rows: seq<Categoria>): (r: seq<Categoria>)
    ensures NewestFirst(r)
    ensures forall x :: x in r <==> x in rows && NotDeleted(x)
    ensures forall x :: multiset(r)[x] == if NotDeleted(x) then multiset(rows)[x] else 0
  {
    Listing(rows, NotDeleted)
  }

  /** `obtenerCategoriaPorId`: 400 on a non-UUID id, 404 'El registro no existe', else the stored row. */
  function ObtenerCategoriaPorId(rows: seq<Categoria>, id: Uuid, isUuid: string -> bool): (r: Reply<Categoria>)
    ensures r.Ok? <==> isUuid(id) && HasId(rows, id)
    ensures r.Ok? ==> r.status == 200 && r.data in rows && r.data.id == id
    ensures !isUuid(id) ==> r == Fail(400, IdInvalido)
    ensures isUuid(id) && !HasId(rows, id) ==> r == Fail(404, RegistroNoExiste)
  {
    ObtenerPorId(rows, id, isUuid, RegistroNoExiste)
  }

  /**
   * The row `crearCategoria` stores: only `nombre` and `descripcion` are taken
   * from the body, so any `estado` it carries is dropped for the schema default.
   */
  function NuevaCategoria(id: Uuid, body: Alta<CategoriaData>, now: int): (c: Categoria)
    ensures c.id == id && c.nombre == body.nombre && c.data.descripcion == body.data.descripcion
    ensures c.estado == DefaultEstado && c.eliminado == NO && c.createdAt == now
  {
    Nuevo(id, Alta(body.nombre, None, CategoriaData(body.data.descripcion)), now)
  }

  /** `crearCategoria`: a taken `nombre` is answered 400 and nothing is stored. */
  method CrearCategoria(categorias: Table<CategoriaData>, body: Alta<CategoriaData>, freshId: Uuid, now: int)
    returns (res: Reply<Categoria>)
    requires categorias.Valid() && !HasId(categorias.rows, freshId)
    modifies categorias
    ensures categorias.Valid()
    ensures HasNombre(old(categorias.rows), body.nombre) ==>
              res == Fail(400, CategoriaYaExiste) && categorias.rows == old(categorias.rows)
    ensures !HasNombre(old(categorias.rows), body.nombre) ==>
              res == Ok(201, NuevaCategoria(freshId, body, now)) &&
              categorias.rows == old(categorias.rows) + [NuevaCategoria(freshId, body, now)]
    ensures UniqueNombres(old(categorias.rows)) ==> UniqueNombres(categorias.rows)
  {
    if HasNombre(categorias.rows, body.nombre) {
      return Fail(400, CategoriaYaExiste);
    }
    var categoria := NuevaCategoria(freshId, body, now);
    categorias.Insert(categoria);
    res := Ok(201, categoria);
  }

  /** `actualizarCategoria`: UUID guard, then the body's columns are written; a missing id: 500. */
  method ActualizarCategoria(categorias: Table<CategoriaData>, id: Uuid, isUuid: string -> bool, patch: Categoria -> Categoria)
    returns (res: Reply<Categoria>)
    requires categorias.Valid()
    modifies categorias
    ensures categorias.Valid()
    ensures !isUuid(id) ==> res == Fail(400, IdInvalido) && categorias.rows == old(categorias.rows)
    ensures isUuid(id) ==> categorias.rows == UpdateWhere(old(categorias.rows), id, patch)
    ensures isUuid(id) && !HasId(old(categorias.rows), id) ==> res == Fail(500, ErrorGenerico)
    ensures isUuid(id) && HasId(old(categorias.rows), id) ==> res == Ok(200, patch(Find(old(categorias.rows), id).value).(id := id))
  {
    res := Actualizar(categorias, id, isUuid, patch);
  }

  /** `eliminarCategoria`: 400, 404 'Categoría no encontrada', or `eliminado` set to 'SI'. */
  method EliminarCategoria(categorias: Table<CategoriaData>, id: Uuid, isUuid: string -> bool) returns (res: Reply<Categoria>)
    requires categorias.Valid()
    modifies categorias
    ensures categorias.Valid()
    ensures !isUuid(id) ==> res == Fail(400, IdInvalido) && categorias.rows == old(categorias.rows)
    ensures isUuid(id) && !HasId(old(categorias.rows), id) ==>
              res == Fail(404, CategoriaNoEncontrada) && categorias.rows == old(categorias.rows)
    ensures isUuid(id) && HasId(old(categorias.rows), id) ==>
              res == Ok(200, Find(old(categorias.rows), id).value.(eliminado := SI)) && categorias.rows == SoftDeleted(old(categorias.rows), id)
  {
    res := Eliminar(categorias, id, isUuid, CategoriaNoEncontrada);
  }

  /** `activarCategoria`: `estado` 1, no UUID guard; a missing id: 500. */
  method ActivarCategoria(categorias: Table<CategoriaData>, id: Uuid) returns (res: Reply<Categoria>)
    requires categorias.Valid()
    modifies categorias
    ensures categorias.Valid() && categorias.rows == WithEstado(old(categorias.rows), id, 1)
    ensures !HasId(old(categorias.rows), id) ==> res == Fail(500, ErrorGenerico)
    ensures HasId(old(categorias.rows), id) ==> res == Ok(200, Find(old(categorias.rows), id).value.(estado := 1))
  {
    res := CambiarEstado(categorias, id, 1);
  }

  /** `desactivarCategoria`: `estado` 0, no UUID guard; a missing id: 500. */
  method DesactivarCategoria(categorias: Table<CategoriaData>, id: Uuid) returns (res: Reply<Categoria>)
    requires categorias.Valid()
    modifies categorias
    ensures categorias.Valid() && categorias.rows == WithEstado(old(categorias.rows), id, 0)
    ensures !HasId(old(categorias.rows), id) ==> res == Fail(500, ErrorGenerico)
    ensures HasId(old(categorias.rows), id) ==> res == Ok(200, Find(old(categorias.rows), id).value.(estado := 0))
  {
    res := CambiarEstado(categorias, id, 0);
  }
}
