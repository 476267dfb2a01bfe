/**
 * The user handlers: listing and lookup with `id` renamed to `uid`, create
 * with three unique columns checked in order and the password hashed, update
 * that checks the identity columns but writes only the others, soft delete,
 * and the `estado` toggles through the shared helper.
 */
module UsuarioController {
  import opened Store
  import opened Schema
  import opened Catalogo
  import opened Helpers

  const UsuarioNoExiste: string := "El usuario no existe"
  const NombreYaRegistrado: string := "El nombre ya está registrado."
  const UsernameYaRegistrado: string := "El nombre de usuario ya está registrado."
  const CorreoYaRegistrado: string := "El correo electrónico ya está registrado."
  const UsuarioNoEncontrado: string := "usuario no encontrado"
  const IdUsuarioNoValido: string := "ID de usuario no válido"

  /** A payload sent together with a freshly signed token. */
  datatype ConToken = ConToken(data: JsonObject, token: string)

  /** `usuarios.map(transformToUid)`. */
  function Publicos(listed: seq<Usuario>): (r: seq<JsonObject>)
    ensures |r| == |listed|
    ensures forall k :: 0 <= k < |r| ==> r[k] == UsuarioPublico(listed[k])
  {
    seq(|listed|, k requires 0 <= k < |listed| => UsuarioPublico(listed[k]))
  }

  /** `obtenerUsuarios`: the non-deleted users, newest first, each sent with `uid` in place of `id`. */
  function ObtenerUsuarios(rows: seq<Usuario>): (r: seq<JsonObject>)
    ensures |r| == |Listing(rows, NotDeleted)|
    ensures forall k :: 0 <= k < |r| ==> RestoreId(r[k]) == UsuarioJson(Listing(rows, NotDeleted)[k])
  {
    var listed := Listing(rows, NotDeleted);
    var r := Publicos(listed);
    forall k | 0 <= k < |r| ensures RestoreId(r[k]) == UsuarioJson(listed[k]) {
      UsuarioPublicoRestores(listed[k]);
    }
    r
  }

  /** A non-deleted user is in the listing. */
  lemma ObtenerUsuariosHas(rows: seq<Usuario>, u: Usuario)
    requires u in rows && NotDeleted(u)
    ensures UsuarioPublico(u) in ObtenerUsuarios(rows)
  {
    var listed := Listing(rows, NotDeleted);
    assert u in listed;
    var k :| 0 <= k < |listed| && listed[k] == u;
    assert ObtenerUsuarios(rows) == Publicos(listed);
    assert Publicos(listed)[k] == UsuarioPublico(u);
  }

  /** Every non-deleted user is in the listing. */
  lemma ObtenerUsuariosComplete(rows: seq<Usuario>)
    ensures forall u :: u in rows && NotDeleted(u) ==> UsuarioPublico(u) in ObtenerUsuarios(rows)
  {
    forall u | u in rows && NotDeleted(u) ensures UsuarioPublico(u) in ObtenerUsuarios(rows) {
      ObtenerUsuariosHas(rows, u);
    }
  }

  /** The payload at position `k` of the listing carries `uid`, no `id`, and comes from a row that is not deleted. */
  lemma RenamedAt(rows: seq<Usuario>, k: nat)
    requires k < |ObtenerUsuarios(rows)|
    ensures var j := ObtenerUsuarios(rows)[k];
            "uid" in j && "id" !in j && "eliminado" in j && j["eliminado"] == JStr(NO)
  {
    var listed := Listing(rows, NotDeleted);
    assert ObtenerUsuarios(rows) == Publicos(listed);
    assert listed[k] in listed;
  }

  /** Every listed payload carries `uid` and no `id`, and comes from a row that is not deleted. */
  lemma ObtenerUsuariosRenamed(rows: seq<Usuario>)
    ensures forall j :: j in ObtenerUsuarios(rows) ==>
              "uid" in j && "id" !in j && "eliminado" in j && j["eliminado"] == JStr(NO)
  {
    var r := ObtenerUsuarios(rows);
    forall j | j in r ensures "uid" in j && "id" !in j && "eliminado" in j && j["eliminado"] == JStr(NO) {
      var k :| 0 <= k < |r| && r[k] == j;
      RenamedAt(rows, k);
    }
  }

  /** `obtenerUsuarioId`: 400 on a non-UUID id, 404 'El usuario no existe', else the renamed row. */
  function ObtenerUsuarioId(rows: seq<Usuario>, id: Uuid, isUuid: string -> bool): (r: Reply<JsonObject>)
    ensures r.Ok? <==> isUuid(id) && HasId(rows, id)
    ensures r.Ok? ==> r.status == 200 && r.data == UsuarioPublico(Find(rows, id).value) && r.data["uid"] == JStr(id)
    ensures !isUuid(id) ==> r == Fail(400, IdInvalido)
    ensures isUuid(id) && !HasId(rows, id) ==> r == Fail(404, UsuarioNoExiste)
  {
    match ObtenerPorId(rows, id, isUuid, UsuarioNoExiste)
    case Fail(status, message) => Fail(status, message)
    case Ok(status, u) => Ok(status, UsuarioPublico(u))
  }

  /** The 400 message `crearUsuario` answers with: `nombre`, then `username`, then `email`; the first taken one decides. */
  function RechazoAlta(rows: seq<Usuario>, body: Alta<UsuarioData>): (r: Option<string>)
    ensures Existe(rows, Nombre, body.nombre) ==> r == Some(NombreYaRegistrado)
    ensures !Existe(rows, Nombre, body.nombre) && Existe(rows, Username, body.data.username) ==>
              r == Some(UsernameYaRegistrado)
    ensures (!Existe(rows, Nombre, body.nombre) && !Existe(rows, Username, body.data.username) &&
             Existe(rows, Email, body.data.email)) ==> r == Some(CorreoYaRegistrado)
    ensures r.None? <==> forall u :: u in rows ==>
              u.nombre != body.nombre && u.data.username != body.data.username && u.data.email != body.data.email
  {
    if Existe(rows, Nombre, body.nombre) then Some(NombreYaRegistrado)
    else if Existe(rows, Username, body.data.username) then Some(UsernameYaRegistrado)
    else if Existe(rows, Email, body.data.email) then Some(CorreoYaRegistrado)
    else None
  }

  /** The row `crearUsuario` stores: the body's columns, with the password replaced by its hash. */
  function NuevoUsuario(id: Uuid, body: Alta<UsuarioData>, hash: string -> string, now: int): (u: Usuario)
    ensures u.data.password == hash(body.data.password)
    ensures u.id == id && u.nombre == body.nombre && u.eliminado == NO && u.createdAt == now
    ensures u.data.username == body.data.username && u.data.email == body.data.email && u.data.rol == body.data.rol
  {
    var r := Nuevo(id, body, now);
    r.(data := r.data.(password := hash(body.data.password)))
  }

  /**
   * `crearUsuario`: a taken `nombre`, `username` or `email` is answered 400 in
   * that order and nothing is stored; otherwise the user is stored with the
   * hashed password and sent back renamed, with a token signed for its id.
   */
  method CrearUsuario(usuarios: Table<UsuarioData>, body: Alta<UsuarioData>, hash: string -> string,
                      sign: Claims -> string, freshId: Uuid, now: int)
    returns (res: Reply<ConToken>)
    requires usuarios.Valid() && !HasId(usuarios.rows, freshId)
    modifies usuarios
    ensures usuarios.Valid()
    ensures RechazoAlta(old(usuarios.rows), body).Some? ==>
              res == Fail(400, RechazoAlta(old(usuarios.rows), body).value) && usuarios.rows == old(usuarios.rows)
    ensures RechazoAlta(old(usuarios.rows), body).None? ==>
              var u := NuevoUsuario(freshId, body, hash, now);
              && usuarios.rows == old(usuarios.rows) + [u]
              && res == Ok(201, ConToken(UsuarioPublico(u), sign(PayloadJwt(JStr(freshId)))))
    ensures UniqueNombres(old(usuarios.rows)) ==> UniqueNombres(usuarios.rows)
  {
    var rechazo := RechazoAlta(usuarios.rows, body);
    if rechazo.Some? {
      return Fail(400, rechazo.value);
    }
    var usuario := NuevoUsuario(freshId, body, hash, now);
    usuarios.Insert(usuario);
    var token := sign(PayloadJwt(JStr(usuario.id)));
    res := Ok(201, ConToken(UsuarioPublico(usuario), token));
  }

  /** An update body: every column is optional; `None` is a column the request leaves out. */
  datatype CambiosUsuario = CambiosUsuario(
    nombre: Option<string>, username: Option<string>, email: Option<string>, password: Option<string>,
    rol: Option<string>, tipoDocumento: Option<string>, numDocumento: Option<string>,
    direccion: Option<string>, telefono: Option<string>, estado: Option<int>)

  /** A JavaScript truthy string: present and not empty. */
  predicate Truthy(o: Option<string>) {
    o.Some? && o.value != ""
  }

  /**
   * The 400 message `actualizarUsuario` answers with: the UUID guard, then each
   * supplied identity column that some user, the one being updated included,
   * already holds.
   */
  function RechazoActualizacion(rows: seq<Usuario>, id: Uuid, isUuid: string -> bool, c: CambiosUsuario): (r: Option<string>)
    ensures !isUuid(id) ==> r == Some(IdInvalido)
    ensures isUuid(id) && Truthy(c.nombre) && Existe(rows, Nombre, c.nombre.value) ==> r == Some(NombreYaRegistrado)
    ensures (&& isUuid(id)
             && !(Truthy(c.nombre) && Existe(rows, Nombre, c.nombre.value))
             && Truthy(c.username) && Existe(rows, Username, c.username.value))
            ==> r == Some(UsernameYaRegistrado)
    ensures (&& isUuid(id)
             && !(Truthy(c.nombre) && Existe(rows, Nombre, c.nombre.value))
             && !(Truthy(c.username) && Existe(rows, Username, c.username.value))
             && Truthy(c.email) && Existe(rows, Email, c.email.value))
            ==> r == Some(CorreoYaRegistrado)
    ensures r.None? <==>
              && isUuid(id)
              && !(Truthy(c.nombre) && Existe(rows, Nombre, c.nombre.value))
              && !(Truthy(c.username) && Existe(rows, Username, c.username.value))
              && !(Truthy(c.email) && Existe(rows, Email, c.email.value))
    ensures r.Some? ==> r.value in {IdInvalido, NombreYaRegistrado, UsernameYaRegistrado, CorreoYaRegistrado}
  {
    if !isUuid(id) then Some(IdInvalido)
    else if Truthy(c.nombre) && Existe(rows, Nombre, c.nombre.value) then Some(NombreYaRegistrado)
    else if Truthy(c.username) && Existe(rows, Username, c.username.value) then Some(UsernameYaRegistrado)
    else if Truthy(c.email) && Existe(rows, Email, c.email.value) then Some(CorreoYaRegistrado)
    else None
  }

  /** Sending a user's own current `nombre` back in an update is refused as a duplicate. */
  lemma OwnNombreRejected(rows: seq<Usuario>, k: nat, isUuid: string -> bool, c: CambiosUsuario)
    requires k < |rows| && isUuid(rows[k].id)
    requires c.nombre == Some(rows[k].nombre) && rows[k].nombre != ""
    ensures RechazoActualizacion(rows, rows[k].id, isUuid, c) == Some(NombreYaRegistrado)
  {
    assert ValorDe(rows[k], Nombre) == rows[k].nombre;
  }

  function Elegir<T>(nuevo: Option<T>, actual: T): T {
    if nuevo.Some? then nuevo.value else actual
  }

  function ElegirOpt(nuevo: Option<string>, actual: Option<string>): Option<string> {
    if nuevo.Some? then nuevo else actual
  }

  /**
   * What `update({ data: { ...datos } })` writes: `nombre`, `username`,
   * `email` and `password` are split off the body first, so only the other
   * supplied columns reach the row.
   */
  function AplicarCambios(c: CambiosUsuario, u: Usuario): (v: Usuario)
    ensures v.id == u.id && v.nombre == u.nombre && v.eliminado == u.eliminado && v.createdAt == u.createdAt
    ensures v.data.username == u.data.username && v.data.email == u.data.email && v.data.password == u.data.password
    ensures c.rol.Some? ==> v.data.rol == c.rol.value
    ensures c.rol.None? ==> v.data.rol == u.data.rol
    ensures c.estado.Some? ==> v.estado == c.estado.value
    ensures c.estado.None? ==> v.estado == u.estado
    ensures c.tipoDocumento.Some? ==> v.data.tipoDocumento == c.tipoDocumento
    ensures c.tipoDocumento.None? ==> v.data.tipoDocumento == u.data.tipoDocumento
    ensures c.numDocumento.Some? ==> v.data.numDocumento == c.numDocumento
    ensures c.numDocumento.None? ==> v.data.numDocumento == u.data.numDocumento
    ensures c.direccion.Some? ==> v.data.direccion == c.direccion
    ensures c.direccion.None? ==> v.data.direccion == u.data.direccion
    ensures c.telefono.Some? ==> v.data.telefono == c.telefono
    ensures c.telefono.None? ==> v.data.telefono == u.data.telefono
    ensures (c.rol.None? && c.estado.None? && c.tipoDocumento.None? && c.numDocumento.None? &&
             c.direccion.None? && c.telefono.None?) ==> v == u
  {
    u.(estado := Elegir(c.estado, u.estado),
       data := u.data.(rol := Elegir(c.rol, u.data.rol),
                       tipoDocumento := ElegirOpt(c.tipoDocumento, u.data.tipoDocumento),
                       numDocumento := ElegirOpt(c.numDocumento, u.data.numDocumento),
                       direccion := ElegirOpt(c.direccion, u.data.direccion),
                       telefono := ElegirOpt(c.telefono, u.data.telefono)))
  }

  /**
   * `actualizarUsuario`: the checks of `RechazoActualizacion` (400), then the
   * update of the non-identity columns; a missing id makes it throw: 500.
   */
  method ActualizarUsuario(usuarios: Table<UsuarioData>, id: Uuid, isUuid: string -> bool, c: CambiosUsuario)
    returns (res: Reply<JsonObject>)
    requires usuarios.Valid()
    modifies usuarios
    ensures usuarios.Valid()
    ensures RechazoActualizacion(old(usuarios.rows), id, isUuid, c).Some? ==>
              res == Fail(400, RechazoActualizacion(old(usuarios.rows), id, isUuid, c).value) &&
              usuarios.rows == old(usuarios.rows)
    ensures RechazoActualizacion(old(usuarios.rows), id, isUuid, c).None? ==>
              usuarios.rows == UpdateWhere(old(usuarios.rows), id, (u: Usuario) => AplicarCambios(c, u))
    ensures RechazoActualizacion(old(usuarios.rows), id, isUuid, c).None? && !HasId(old(usuarios.rows), id) ==>
              res == Fail(500, ErrorGenerico) && usuarios.rows == old(usuarios.rows)
    ensures RechazoActualizacion(old(usuarios.rows), id, isUuid, c).None? && HasId(old(usuarios.rows), id) ==>
              res == Ok(200, UsuarioPublico(AplicarCambios(c, Find(old(usuarios.rows), id).value)))
  {
    var rechazo := RechazoActualizacion(usuarios.rows, id, isUuid, c);
    if rechazo.Some? {
      return Fail(400, rechazo.value);
    }
    var usuario := usuarios.Update(id, (u: Usuario) => AplicarCambios(c, u));
    if usuario.None? {
      return Fail(500, ErrorGenerico);
    }
    res := Ok(200, UsuarioPublico(usuario.value));
  }

  /** `eliminarUsuario`: 400, 404 'usuario no encontrado', or `eliminado` set to 'SI'; the row is sent as stored, with `id`. */
  method EliminarUsuario(usuarios: Table<UsuarioData>, id: Uuid, isUuid: string -> bool) returns (res: Reply<Usuario>)
    requires usuarios.Valid()
    modifies usuarios
    ensures usuarios.Valid()
    ensures !isUuid(id) ==> res == Fail(400, IdInvalido) && usuarios.rows == old(usuarios.rows)
    ensures isUuid(id) && !HasId(old(usuarios.rows), id) ==>
              res == Fail(404, UsuarioNoEncontrado) && usuarios.rows == old(usuarios.rows)
    ensures isUuid(id) && HasId(old(usuarios.rows), id) ==>
              res == Ok(200, Find(old(usuarios.rows), id).value.(eliminado := SI)) &&
              usuarios.rows == SoftDeleted(old(usuarios.rows), id)
  {
    res := Eliminar(usuarios, id, isUuid, UsuarioNoEncontrado);
  }

  /** `activarUsuario`: no UUID guard; the helper's error becomes the generic 500. */
  method ActivarUsuario(usuarios: Table<UsuarioData>, id: Uuid) returns (res: Reply<JsonObject>)
    requires usuarios.Valid()
    modifies usuarios
    ensures usuarios.Valid() && usuarios.rows == WithEstado(old(usuarios.rows), id, 1)
    ensures !HasId(old(usuarios.rows), id) ==> res == Fail(500, ErrorGenerico)
    ensures HasId(old(usuarios.rows), id) ==> res == Ok(200, UsuarioPublico(Find(old(usuarios.rows), id).value.(estado := 1)))
  {
    var r := ActualizarEstadoUsuario(usuarios, id, 1);
    match r
    case Failure(_) => res := Fail(500, ErrorGenerico);
    case Success(usuario) => res := Ok(200, usuario);
  }

  /** `desactivarUsuario`: 400 'ID de usuario no válido' on a non-UUID id, then as activation with `estado` 0. */
  method DesactivarUsuario(usuarios: Table<UsuarioData>, id: Uuid, isUuid: string -> bool) returns (res: Reply<JsonObject>)
    requires usuarios.Valid()
    modifies usuarios
    ensures usuarios.Valid()
    ensures !isUuid(id) ==> res == Fail(400, IdUsuarioNoValido) && usuarios.rows == old(usuarios.rows)
    ensures isUuid(id) ==> usuarios.rows == WithEstado(old(usuarios.rows), id, 0)
    ensures isUuid(id) && !HasId(old(usuarios.rows), id) ==> res == Fail(500, ErrorGenerico)
    ensures isUuid(id) && HasId(old(usuarios.rows), id) ==>
              res == Ok(200, UsuarioPublico(Find(old(usuarios.rows), id).value.(estado := 0)))
  {
    if !isUuid(id) {
      return Fail(400, IdUsuarioNoValido);
    }
    var r := ActualizarEstadoUsuario(usuarios, id, 0);
    match r
    case Failure(_) => res := Fail(500, ErrorGenerico);
    case Success(usuario) => res := Ok(200, usuario);
  }
}
