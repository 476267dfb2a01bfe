# ventaAPITypescript inventory backend — a Dafny model

The system is an Express and Prisma back end for a small shop. It keeps
articles with a stock count, categories, persons (clients and suppliers) and
users. It also keeps receipts ("ingresos") and sales ("ventas"); each is a
header with line items of (article, quantity). Access goes through a
JSON-web-token gate and role checks.

This project models the logic behind those handlers. Each database table is a
sequence of rows, held in a `Table` class whose methods stand for the ORM's
`create` and `update`. The `findUnique`, `findMany` and `count` queries are
pure functions over the rows.

- **Stock ledger** (`StockHelpers`, `IngresoController`, `VentaController`):
  - the two stock primitives are read-modify-write methods;
  - the loop every create, activate and deactivate handler runs over its line items is one method, `AplicarLineas`, with a `for` loop;
  - that method, and each handler through it, is proved against `ApplyLines`, a fold of `Adjust`;
  - lemmas give the net effect per article (a signed sum of its quantities), round trips and non-round-trips.
- **Catalogue tables** (`Catalogo` plus the article, category, person and user controllers):
  - create with unique columns checked in the source's order;
  - lookup behind a UUID guard;
  - soft delete, `estado` writes and updates;
  - listings filtered on `eliminado = 'NO'`, newest first;
  - the article listing's `skip`/`take`/`count`/`totalPages` arithmetic.
- **Access control** (`ValidarJwt`, `VerificarRoles`, `AuthController`):
  - the token gate's decision chain and the request fields it writes;
  - the four role checks;
  - the login and renew guard chains.

Some operations are left to the caller as parameters:

- UUID validation (`isUuid`);
- bcrypt hashing and comparison (`hash`, `compare`);
- JWT signing and verification (`sign`, `verify`, where `None` means verification threw);
- the database's fresh ids and timestamps (`freshId`, `now`);
- the article search terms (`matches`).

A line item naming an article that is not stored is skipped, and the loop
goes on with the next line (`src/utils/stockHelpers.ts:11`, `:26`);
`StockHelpers.MissingArticleSkipped` proves it.

## Model

| member | source | states |
|---|---|---|
| Store.Find | src/controllers/categoriaController.ts:35-39 | `findUnique` by id: `Some` exactly when a row has that id, and the row returned is stored with that id |
| Store.FindWhere | src/controllers/authController.ts:15-17 | `findUnique` on another unique column: `Some` exactly when some row satisfies the condition, and the row returned is stored and satisfies it |
| Store.FindAt | src/controllers/categoriaController.ts:35-39 | with unique ids, looking up a stored row's id returns that very row |
| Store.UpdateWhere | src/controllers/categoriaController.ts:99-104 | `update` by id rewrites only the row with that id, keeps its id, and leaves every other row and the length unchanged |
| Store.UpdateWhereShape | src/controllers/categoriaController.ts:99-104 | an update keeps every id in place, so ids stay unique; on a missing id it changes nothing |
| Store.SoftDeleted | src/controllers/categoriaController.ts:131-134 | the soft delete sets `eliminado` to 'SI' on the row with that id and changes nothing else |
| Store.WithEstado | src/controllers/categoriaController.ts:148-155 | the `estado` write sets `estado` on the row with that id and changes nothing else |
| Store.Filter | src/controllers/categoriaController.ts:10-13 | `findMany({ where })` keeps exactly the rows that satisfy the filter, each as many times as stored |
| Store.OrderByNewest | src/controllers/categoriaController.ts:14-16 | `orderBy: { createdAt: 'desc' }` gives a newest-first permutation of its input |
| Store.InsertByDatePermutes | src/controllers/categoriaController.ts:14-16 | placing a row into an ordered listing keeps every row, with its multiplicity, and adds that one |
| Store.InsertByDateOrdered | src/controllers/categoriaController.ts:14-16 | placing a row into a newest-first listing keeps it newest first |
| Store.Listing | src/controllers/categoriaController.ts:10-17 | a filtered, ordered listing is newest first and holds exactly the stored rows that satisfy the filter, with their multiplicities |
| Store.SoftDeleteHides | src/controllers/categoriaController.ts:131-134 | after a soft delete, the not-deleted listing holds the rows it held before, minus those with that id |
| Store.EstadoKeepsListing | src/controllers/categoriaController.ts:148-155 | a deactivated, not-deleted row stays in the not-deleted listing |
| Store.Table.Insert | src/controllers/categoriaController.ts:74-79 | `create` appends the new row and keeps ids unique |
| Store.Table.Update | src/controllers/categoriaController.ts:99-104 | `update` on a missing id fails and changes nothing; otherwise it rewrites that row and returns it |
| Schema.UsuarioJson | src/controllers/usuarioController.ts:80-88 | a user row as a JSON object has `id`, the hashed `password` and no `uid` key |
| Schema.PayloadJwt | src/utils/jwt.ts:3-5 | the payload `generarJWT` signs has its argument under `uid`, and no `id` or `rol` key |
| Schema.NuevaTransaccion | src/controllers/ventaController.ts:61-70 | the stored transaction takes the fresh id, every header field of the body (user, person, receipt type, series, number) and its lines as children, with the default `estado` when none is given |
| Schema.FindTx | src/controllers/ingresoController.ts:90-100 | looking up a transaction by id: `Some` exactly when one with that id is stored |
| Schema.TxWithEstado | src/controllers/ingresoController.ts:90-96 | writing `estado` touches only the transaction with that id and only its `estado` |
| Schema.FindTxAfterEstado | src/controllers/ingresoController.ts:90-103 | after an `estado` write, the lookup returns the same transaction with the new `estado`, so the same lines |
| Schema.TransaccionTable.Insert | src/controllers/ingresoController.ts:62-69 | `create` appends the transaction and keeps ids unique |
| Schema.TransaccionTable.SetEstado | src/controllers/ingresoController.ts:90-100 | `update` of `estado` with its lines included fails on a missing id and changes nothing; otherwise it returns the record with the new `estado` |
| StockHelpers.Adjust | src/utils/stockHelpers.ts:11-16 | only the stock of the named article moves, by `d` and with no lower bound; all other articles and columns stay as they were |
| StockHelpers.AdjustKeepsIds | src/utils/stockHelpers.ts:12-16 | a stock write keeps every article's id in place, so ids stay unique |
| StockHelpers.AdjustAbsent | src/utils/stockHelpers.ts:11 | a missing article id leaves the table unchanged |
| StockHelpers.AdjustInverse | src/utils/stockHelpers.ts:6-33 | an increase followed by a decrease of the same quantity restores the table |
| StockHelpers.AdjustObserved | src/utils/stockHelpers.ts:7-16 | read back by its id, a stored article's stock is its old stock plus `d`, and ids stay unique |
| StockHelpers.AumentarStock | src/utils/stockHelpers.ts:6-18 | `aumentarStock` leaves the table as `Adjust` by `+cantidad` gives it |
| StockHelpers.DisminuirStock | src/utils/stockHelpers.ts:21-33 | `disminuirStock` leaves the table as `Adjust` by `-cantidad` gives it, so stock may go negative |
| StockHelpers.WriteStock | src/utils/stockHelpers.ts:7-16 | a find followed by an update of `stock` alone is the same as `Adjust` |
| StockHelpers.UpdateIsAdjust | src/utils/stockHelpers.ts:12-16 | an `update` by id that sets the found article's stock plus `d` is the same as `Adjust` by `d` |
| StockHelpers.AplicarLineas | src/controllers/ingresoController.ts:72-75 | one `aumentarStock` or `disminuirStock` per line, in order, leaves the table as `ApplyLines` gives it |
| StockHelpers.ApplyLinesStep | src/controllers/ingresoController.ts:73-75 | one more pass of the loop is one more stock write, by the line's signed quantity |
| StockHelpers.ApplyLines | src/controllers/ingresoController.ts:72-75 | the table after the loop, as a fold of `Adjust` over the lines in order; it keeps the table's length, and `ApplyLinesNet` gives its effect per article |
| StockHelpers.SumFor | src/controllers/ingresoController.ts:73-75 | the units of one article over the lines, the quantity `ApplyLinesNet` moves it by; `SumForAppend` and `SumForUnreferenced` are its laws |
| StockHelpers.ApplyLinesNet | src/controllers/ingresoController.ts:72-75 | after the loop, each article's stock has moved by the signed sum of the quantities of the lines naming it, and nothing else has changed |
| StockHelpers.ApplyLinesKeepsIds | src/controllers/ingresoController.ts:72-75 | the loop keeps every article's id, so ids stay unique |
| StockHelpers.SumForAppend | src/controllers/ingresoController.ts:73-75 | the per-article sum over two runs of lines is the sum of the two |
| StockHelpers.SumForUnreferenced | src/controllers/ingresoController.ts:73-75 | an article that no line names has a sum of 0 |
| StockHelpers.UnreferencedUntouched | src/controllers/ingresoController.ts:73-75 | an article that no line names comes out of the loop unchanged |
| StockHelpers.MissingArticleSkipped | src/utils/stockHelpers.ts:11 | a line naming a missing article has no effect, and the loop goes on with the remaining lines |
| IngresoController.CrearIngreso | src/controllers/ingresoController.ts:60-84 | the receipt is stored first, then every line's quantity is added in order; the reply is 201 with the stored header, without its lines |
| IngresoController.ActivarIngreso | src/controllers/ingresoController.ts:86-115 | `estado` becomes 1 and every line of the stored receipt is added, whatever the old `estado`; an unknown id gives 500 and changes nothing |
| IngresoController.DesactivarIngreso | src/controllers/ingresoController.ts:117-145 | `estado` becomes 0 and every line is subtracted; an unknown id gives 500 and changes nothing |
| IngresoController.CrearIngresoAddsSums | src/controllers/ingresoController.ts:72-75 | creating a receipt raises each article by the summed quantity of its lines |
| IngresoController.ActivarDesactivarRestores | src/controllers/ingresoController.ts:86-145 | activating and then deactivating with the same lines restores every article |
| IngresoController.DoubleActivationAddsTwice | src/controllers/ingresoController.ts:90-106 | activating twice adds each article's summed quantity twice |
| IngresoController.ActivarLuegoDesactivar | src/controllers/ingresoController.ts:86-145 | the two handlers back to back leave the article table as it was, and the receipt at `estado` 0 |
| VentaController.CrearVenta | src/controllers/ventaController.ts:59-84 | the header is stored with the lines as children, then every line's quantity is subtracted in order; the reply is 201 with the stored header, without its lines |
| VentaController.ActivarVenta | src/controllers/ventaController.ts:86-114 | `estado` becomes 1 and every line is subtracted, with no guard on the old state; an unknown id gives 500 and changes nothing |
| VentaController.DesactivarVenta | src/controllers/ventaController.ts:116-144 | `estado` becomes 0 and every line is subtracted again, in the same direction as activation |
| VentaController.CrearVentaSubtractsSums | src/controllers/ventaController.ts:72-75 | creating a sale lowers each article by the summed quantity of its lines |
| VentaController.ActivarDesactivarLowersTwice | src/controllers/ventaController.ts:86-144 | activating and then deactivating lowers each article by twice its summed quantity |
| VentaController.NotARoundTrip | src/controllers/ventaController.ts:116-144 | so activation then deactivation changes the table whenever some stored article has a non-zero sum |
| VentaController.ActivarLuegoDesactivar | src/controllers/ventaController.ts:86-144 | the two handlers back to back on a stored sale lower every article by twice its summed quantity |
| Catalogo.Nuevo | src/controllers/articuloController.ts:143-147 | a created row takes the fresh id, the body's columns, `eliminado` 'NO' and the default `estado` when none is given |
| Catalogo.ObtenerPorId | src/controllers/categoriaController.ts:27-54 | a non-UUID id gives 400 before any lookup, a missing id 404, and otherwise 200 with the stored row |
| Catalogo.ObtenerPorIdFindsStored | src/controllers/categoriaController.ts:35-46 | with unique ids, the row served is exactly the stored one |
| Catalogo.DeletedStillFound | src/controllers/categoriaController.ts:35-46 | a soft-deleted row is still served by id |
| Catalogo.SoftDeleteIdempotent | src/controllers/categoriaController.ts:131-134 | deleting twice stores what deleting once stores |
| Catalogo.LastEstadoWins | src/controllers/categoriaController.ts:144-186 | of two `estado` writes on a row, the later one wins |
| Catalogo.Eliminar | src/controllers/categoriaController.ts:115-142 | 400 on a non-UUID id and 404 on a missing one, both without change; otherwise only `eliminado` becomes 'SI' and the updated row is returned |
| Catalogo.CambiarEstado | src/controllers/categoriaController.ts:144-164 | an unguarded `estado` write: a missing id gives 500 and no change; otherwise only `estado` changes |
| Catalogo.Actualizar | src/controllers/categoriaController.ts:90-113 | 400 on a non-UUID id without change; otherwise the body's columns are written to that row only; a missing id gives 500 |
| ArticuloController.CeilDiv | src/controllers/articuloController.ts:55 | `Math.ceil(total / limit)`: (pages - 1) * limit < total <= pages * limit |
| ArticuloController.Skip | src/controllers/articuloController.ts:18 | `skip = (page - 1) * limit`: page 1 starts at 0, and skip is negative exactly when page < 1 and limit > 0 |
| ArticuloController.Window | src/controllers/articuloController.ts:38-39 | `skip`/`take`: min(limit, rows left) rows, those at positions skip, skip+1, … |
| ArticuloController.Visible | src/controllers/articuloController.ts:25-31 | the listing's `where`: not deleted and matching the search; `PageRowsVisible` proves every page row meets it |
| ArticuloController.ObtenerArticulos | src/controllers/articuloController.ts:7-63 | the defaults are page 1 and limit 10; a negative skip gives 500; otherwise at most `limit` rows, exactly the listing's rows from `skip` on; `total` counts all matches; `totalPages` covers `total` |
| ArticuloController.WindowKeepsOrder | src/controllers/articuloController.ts:35-39 | a page keeps only listed rows, newest first |
| ArticuloController.PageRowsVisible | src/controllers/articuloController.ts:25-40 | every article on a page is stored, not deleted and matches the search, and the page runs newest first |
| ArticuloController.FilterSplit | src/controllers/articuloController.ts:43-49 | the count under a looser filter is the count under a stricter one plus the rows only the looser one keeps |
| ArticuloController.TotalCountsDeleted | src/controllers/articuloController.ts:43-49 | `total` is never below the number of listed rows, and one deleted match makes it strictly larger |
| ArticuloController.PageOfRow | src/controllers/articuloController.ts:18 | every position k is offset k % limit on page k / limit + 1 |
| ArticuloController.PageWithinTotal | src/controllers/articuloController.ts:55 | a page that starts before the last counted row is no later than `totalPages` |
| ArticuloController.ListedRowOnPage | src/controllers/articuloController.ts:18-55 | every listed row is on some page at the expected offset, and that page is within `totalPages` |
| ArticuloController.RowOnPage | src/controllers/articuloController.ts:18-40 | with a positive limit, offset `o` of page `p` is the listing's row `(p - 1) * limit + o` |
| ArticuloController.PageCounted | src/controllers/articuloController.ts:18-55 | a page holding a listed row is no later than `totalPages` |
| ArticuloController.ObtenerArticuloId | src/controllers/articuloController.ts:65-96 | 400 on a non-UUID id, 404 'El articulo no existe' on a missing one, otherwise 200 with the stored row |
| ArticuloController.CrearArticulo | src/controllers/articuloController.ts:128-156 | a taken `nombre` gives 400 and stores nothing; otherwise the new row is appended and returned with 201; unique names are preserved |
| ArticuloController.ActualizarArticulo | src/controllers/articuloController.ts:158-181 | the UUID guard (400, no change), then the body's columns are written to that row only and the reply is 200 with the updated row; a missing id gives 500 |
| ArticuloController.EliminarArticulo | src/controllers/articuloController.ts:183-210 | 400 on a non-UUID id and 404 'Articulo no encontrado' on a missing one, both without change; otherwise only `eliminado` becomes 'SI' and the reply is 200 with the updated row |
| ArticuloController.ActivarArticulo | src/controllers/articuloController.ts:212-232 | no UUID guard; `estado` becomes 1 on that row only and the reply is 200 with the updated row; a missing id gives 500 and no change |
| ArticuloController.DesactivarArticulo | src/controllers/articuloController.ts:234-254 | no UUID guard; `estado` becomes 0 on that row only and the reply is 200 with the updated row; a missing id gives 500 and no change |
| CategoriaController.ObtenerCategorias | src/controllers/categoriaController.ts:7-25 | exactly the non-deleted categories, with their multiplicities, newest first |
| CategoriaController.ObtenerCategoriaPorId | src/controllers/categoriaController.ts:27-54 | 400, 404 'El registro no existe', or 200 with the stored row |
| CategoriaController.NuevaCategoria | src/controllers/categoriaController.ts:58-79 | the stored row takes only `nombre` and `descripcion` from the body; `estado` is the default |
| CategoriaController.CrearCategoria | src/controllers/categoriaController.ts:56-88 | a taken `nombre` gives 400 with no insert; otherwise 201 and the row is appended; unique names are preserved |
| CategoriaController.ActualizarCategoria | src/controllers/categoriaController.ts:90-113 | the UUID guard (400, no change), then the body's columns are written to that row only and the reply is 200 with the updated row; a missing id gives 500 |
| CategoriaController.EliminarCategoria | src/controllers/categoriaController.ts:115-142 | 400 on a non-UUID id and 404 'Categoría no encontrada' on a missing one, both without change; otherwise only `eliminado` becomes 'SI' and the reply is 200 with the updated row |
| CategoriaController.ActivarCategoria | src/controllers/categoriaController.ts:144-164 | no UUID guard; `estado` becomes 1 on that row only and the reply is 200 with the updated row; a missing id gives 500 and no change |
| CategoriaController.DesactivarCategoria | src/controllers/categoriaController.ts:166-186 | no UUID guard; `estado` becomes 0 on that row only and the reply is 200 with the updated row; a missing id gives 500 and no change |
| PersonaController.ObtenerPersonas | src/controllers/personaController.ts:7-25 | exactly the non-deleted persons, each as often as stored, newest first |
| PersonaController.ObtenerClientes | src/controllers/personaController.ts:27-46 | exactly the non-deleted persons of type 'Cliente', each as often as stored, newest first |
| PersonaController.ObtenerProveedores | src/controllers/personaController.ts:48-67 | exactly the non-deleted persons of type 'Proveedor', each as often as stored, newest first |
| PersonaController.DeTipo | src/controllers/personaController.ts:29-32 | the typed listings' `where`: not deleted and of that `tipo_persona`; `ClientesProveedoresDisjuntos` proves the two types never overlap |
| PersonaController.ClientesProveedoresDisjuntos | src/controllers/personaController.ts:27-67 | no person is both a listed client and a listed supplier, and both lists are within the full listing |
| PersonaController.ObtenerPersonaId | src/controllers/personaController.ts:69-96 | 400, 404 'El registro no existe', or 200 with the stored row |
| PersonaController.CrearPersona | src/controllers/personaController.ts:98-143 | a taken `nombre` gives 400 before `email` is checked; a taken `email` gives 400; either way nothing is stored; otherwise 201 |
| PersonaController.ActualizarPersona | src/controllers/personaController.ts:145-168 | the UUID guard (400, no change), then the body's columns are written to that row only and the reply is 200 with the updated row; a missing id gives 500 |
| PersonaController.EliminarPersona | src/controllers/personaController.ts:170-197 | 400 on a non-UUID id and 404 'Persona no encontrado' on a missing one, both without change; otherwise only `eliminado` becomes 'SI' and the reply is 200 with the updated row |
| PersonaController.ActivarPersona | src/controllers/personaController.ts:199-219 | no UUID guard; `estado` becomes 1 on that row only and the reply is 200 with the updated row; a missing id gives 500 and no change |
| PersonaController.DesactivarPersona | src/controllers/personaController.ts:221-241 | no UUID guard; `estado` becomes 0 on that row only and the reply is 200 with the updated row; a missing id gives 500 and no change |
| Helpers.TransformToUid | src/utils/helpers.ts:8-11 | the output has no `id`; `uid` is the input's `id` when the input has no `uid`; every other key is kept unchanged; no key is invented |
| Helpers.RestoreId | src/utils/helpers.ts:8-11 | the reverse rename, `uid` back to `id`, used as the rename's partner |
| Helpers.TransformToUidRoundTrip | src/utils/helpers.ts:8-11 | for an input without `uid`, renaming back gives the input |
| Helpers.Existe | src/utils/helpers.ts:14-19 | `verificarExistencia` is true exactly when some user, deleted or not, holds that value in that column |
| Helpers.UsuarioPublico | src/utils/helpers.ts:8-11 | a user payload has `uid` equal to the row's id, no `id`, and the row's `estado` and `eliminado` |
| Helpers.UsuarioPublicoRestores | src/utils/helpers.ts:8-11 | a user payload renames back to the row's own columns |
| Helpers.ActualizarEstadoUsuario | src/utils/helpers.ts:22-32 | only `estado` of that user changes, and the renamed row is returned; a missing id gives the single generic error and no change |
| UsuarioController.ObtenerUsuarios | src/controllers/usuarioController.ts:12-30 | one payload per non-deleted user, newest first, each renaming back to that user's row |
| UsuarioController.Publicos | src/controllers/usuarioController.ts:23 | `map(transformToUid)`: one payload per listed user, in the same order |
| UsuarioController.ObtenerUsuariosComplete | src/controllers/usuarioController.ts:14-23 | every non-deleted user appears in the listing |
| UsuarioController.ObtenerUsuariosHas | src/controllers/usuarioController.ts:14-23 | a stored, non-deleted user's renamed payload is in the listing |
| UsuarioController.ObtenerUsuariosRenamed | src/controllers/usuarioController.ts:14-23 | every listed payload has `uid` in place of `id` and comes from a non-deleted row |
| UsuarioController.RenamedAt | src/controllers/usuarioController.ts:14-23 | the payload at each position of the listing has `uid`, no `id`, and `eliminado` 'NO' |
| UsuarioController.ObtenerUsuarioId | src/controllers/usuarioController.ts:32-58 | 400, 404 'El usuario no existe', or 200 with the stored row renamed |
| UsuarioController.RechazoAlta | src/controllers/usuarioController.ts:64-74 | `nombre`, then `username`, then `email`: the first taken one decides the message; no rejection exactly when no user holds any of the three |
| UsuarioController.NuevoUsuario | src/controllers/usuarioController.ts:77-88 | the stored password is the hash of the given one; the identity columns are the body's |
| UsuarioController.CrearUsuario | src/controllers/usuarioController.ts:60-102 | a rejection gives 400 and no insert; otherwise the row is appended and returned renamed with a token signed over its id; unique names are preserved |
| UsuarioController.RechazoActualizacion | src/controllers/usuarioController.ts:109-124 | 400 'ID inválido' first; then, among the supplied non-empty identity columns that any user already holds, `nombre`, then `username`, then `email` decides the message; no rejection exactly when none is held |
| UsuarioController.OwnNombreRejected | src/controllers/usuarioController.ts:114-116 | sending a user's own current `nombre` in an update is rejected as a duplicate |
| UsuarioController.AplicarCambios | src/controllers/usuarioController.ts:107-133 | `nombre`, `username`, `email` and `password` are never written; each of `rol`, `estado`, `tipo_documento`, `num_documento`, `direccion` and `telefono` takes the supplied value, and keeps the stored one when not supplied |
| UsuarioController.ActualizarUsuario | src/controllers/usuarioController.ts:104-145 | a rejection gives 400 and no change; otherwise the update writes `AplicarCambios`; a missing id gives 500 |
| UsuarioController.EliminarUsuario | src/controllers/usuarioController.ts:147-174 | 400, 404 'usuario no encontrado', or only `eliminado` set to 'SI' |
| UsuarioController.ActivarUsuario | src/controllers/usuarioController.ts:176-189 | no UUID guard; `estado` 1 and the renamed row; a missing id gives 500 |
| UsuarioController.DesactivarUsuario | src/controllers/usuarioController.ts:191-208 | 400 'ID de usuario no válido' on a non-UUID id; otherwise `estado` 0; a missing id gives 500 |
| ValidarJwt.DecidirJwt | src/middlewares/validarJWT.ts:15-61 | no token gives 401 'No hay token…'; a failed verification gives 'Token no válido'; `next` happens exactly when the `id` claim names a stored user who is active and not deleted; every refusal is 401 |
| ValidarJwt.Habilitado | src/middlewares/validarJWT.ts:45 | a user the gate admits is stored with that id, `estado` 1 and `eliminado` 'NO' |
| ValidarJwt.InactiveUserRefused | src/middlewares/validarJWT.ts:45-50 | a verified token of an inactive or deleted user is refused with 'Usuario no autorizado o inactivo' |
| ValidarJwt.Peticion.Autenticar | src/middlewares/validarJWT.ts:30-35 | once the token verifies, `uid`, `rol` and `userInfo` are set from the claims before the lookup; otherwise they are untouched |
| ValidarJwt.Peticion.ValidarJwt | src/middlewares/validarJWT.ts:53 | `next()` is called exactly once when the request passes, never otherwise |
| VerificarRoles.Admite | src/middlewares/verificarRoles.ts:13 | each check admits exactly its listed roles (lines 13, 28, 43, 58) |
| VerificarRoles.AdministradorPassesAll | src/middlewares/verificarRoles.ts:13-58 | 'Administrador' passes all four checks, and passing the administrator check implies passing the others |
| VerificarRoles.BodegueroMismatch | src/middlewares/verificarRoles.ts:43 | 'Bodeguero' passes the user check but not the warehouse check, which admits 'Almacenero' instead |
| VerificarRoles.DecidirRol | src/middlewares/verificarRoles.ts:9-22 | a gate refusal stands; `next` happens exactly when the gate passes and the role is admitted; 403 only past the gate |
| VerificarRoles.StoredRolIgnored | src/middlewares/verificarRoles.ts:11-13 | only the token's role is consulted, never the stored user's |
| VerificarRoles.Verificar | src/middlewares/verificarRoles.ts:9-22 | on a request, the decision is `DecidirRol` and `next()` is called exactly once on success |
| AuthController.PayloadLogin | src/controllers/authController.ts:42 | the login token carries the whole user row under `uid`, its password hash included |
| AuthController.Login | src/controllers/authController.ts:10-54 | an unknown username gives 404; a disabled user 403 before the password is compared; a wrong password 400; a token only when all three pass |
| AuthController.DisabledBeforePassword | src/controllers/authController.ts:27-34 | a disabled user gets 403 whatever password is sent |
| AuthController.DeletedUserLogsIn | src/controllers/authController.ts:15-46 | a soft-deleted but active user with the right password still gets a token |
| AuthController.RenewToken | src/controllers/authController.ts:56-95 | a missing, empty or non-UUID uid gives 400 before any lookup; an unknown uid 404; otherwise a token for that uid plus the stored user |
| AuthController.IssuedTokensRefused | src/utils/jwt.ts:5 | any token over `generarJWT`'s payload is refused by the gate with 'Token no válido', and so by every role check |
| AuthController.LoginTokenRefused | src/controllers/authController.ts:42 | the token a successful login hands out is refused by the gate |
| AuthController.PayloadCorregido | src/middlewares/validarJWT.ts:33-34 | a payload with the user's id under `id` and role under `rol`, the claims the gate reads |
| AuthController.CorrectedTokenAdmitted | src/middlewares/validarJWT.ts:33-53 | with that payload, an active, non-deleted stored user passes the gate, and each role check then admits exactly its roles for the stored role |

## Findings

| source | as written | input that shows it | evidently intended | confidence | as-written member | corrected member |
|---|---|---|---|---|---|---|
| src/utils/jwt.ts:5 | `generarJWT` signs `{ uid }`, while `validarJWT` reads `userInfo.id` and `userInfo.rol` (src/middlewares/validarJWT.ts:33-34); `login` also passes the whole user row as `uid` (src/controllers/authController.ts:42) | any token from `login`, `crearUsuario` or `renewToken`, for an active, non-deleted user: the `id` claim is missing, the user lookup throws, and the gate answers 401 'Token no válido' | a payload with `id` (and `rol`) that the gate can read, without the password hash | not executed | AuthController.IssuedTokensRefused | AuthController.CorrectedTokenAdmitted |

`AuthController.PayloadCorregido` is the corrected payload. The handlers'
own members (`Login`, `RenewToken`, `UsuarioController.CrearUsuario`) keep the
payload the source signs.

## Left out

- Route files, `src/index.ts` and `validarCampos`: request validation and server wiring; the validators live in a library that is not part of this model.
- `src/controllers/auth.ts`: an older duplicate of the login handlers that no router imports.
- JWT signing and verification, bcrypt and UUID validation: parameters of the model, not interpreted. JWT expiry is not modelled.
- `obtenerIngresos`, `obtenerIngresoId`, `obtenerventas`, `obtenerVentaId` and `obtenerArticuloPorCodigo`: read-only queries with no logic beyond the lookups already modelled.
- `grafico12Meses` and `consultaFechas`: raw SQL aggregation and date arithmetic.
- Float columns (`precio_venta`, `impuesto`, `total`, `precio`): not carried; stock and quantities are integers.
- The case-insensitive `contains` search of the article listing: a `matches` predicate parameter.
- Concurrency: lost updates between the `await`s of the read-modify-write are not modelled, and execution is sequential.
- Store exceptions in the middle of a loop, which leave some lines applied, are not modelled. Only a missing id in `update` is modelled as a throw, giving 500.
- The generic 'Error inesperado' and 500 paths of the login handlers, and other database errors such as unique-constraint violations on update, are not modelled.
- ArticuloController.ObtenerArticulos: `page` is an integer and `limit` a natural number. Non-numeric (`NaN`), fractional and negative limits are not modelled. A zero limit gives `totalPages` `None` (JavaScript's `Infinity` or `NaN`, sent as null).
- Line items are one `Detalle(articulo, cantidad)`. The source reads `articulo_id` on receipt creation, `articuloId` on sale creation and `articulo` on activation. The model takes these to name the same column.
- Catalogo.Actualizar: the update body is an arbitrary row rewrite `patch`. Which request keys reach which columns, including `id`, `eliminado` or `createdAt` in a body, is not modelled.
- UsuarioController.AplicarCambios: only the columns a user update can name are modelled, not `eliminado` or `createdAt`.
- Catalogo.Nuevo, UsuarioController.NuevoUsuario and Schema.NuevaTransaccion: the create handlers spread the rest of the request body into `create` (src/controllers/articuloController.ts:130,143-147, src/controllers/personaController.ts:126-134, src/controllers/usuarioController.ts:62,80-88, src/controllers/ingresoController.ts:62-69). A body can therefore set `id`, `eliminado`, `createdAt` or other columns itself. The model's create bodies (`Alta`, `TransaccionBody`) carry only the entity's own columns, so these overrides are not modelled.
- ArticuloController.ObtenerArticulos and ArticuloController.ObtenerArticuloId: the source adds the category's `nombre` to each article (`include: { categoria: { select: { nombre: true } } }`, src/controllers/articuloController.ts:32-34,77-79). The model returns the article row alone.
- Schema defaults (`estado` 1, `eliminado` 'NO', `createdAt` now) are taken as the database's, since the Prisma schema is not part of this model.
- ValidarJwt.DecidirJwt: an `id` claim that is a string but not a UUID is treated as a lookup miss (401 'Usuario no autorizado o inactivo'). A claim that is not a string is treated as a lookup that throws ('Token no válido').
- The JSON envelopes (`{ data }`, `ok`, `msg` or `message` keys) are reduced to a status with a payload or a message.
