/**
 * The person handlers: the three listings (all, clients, suppliers), lookup
 * by id, create with a unique `nombre` and a unique `email`, update, soft
 * delete and the `estado` toggles.
 */
module PersonaController {
  import opened Store
  import opened Schema
  import opened Catalogo

  const RegistroNoExiste: string := "El registro no existe"
  const PersonaYaRegistrada: string := "La persona ya está registrada."
  const CorreoYaRegistrado: string := "El correo electrónico ya está registrado."
  const PersonaNoEncontrada: string := "Persona no encontrado"

  /** Some person, deleted or not, holds that `email`: the lookup behind the second uniqueness check of `crearPersona`. */
  predicate HasEmail(rows: seq<Persona>, email: string) {
    exists i :: 0 <= i < |rows| && rows[i].data.email == email
  }

  /** The `where` of the client and supplier listings: not deleted, and of that `tipo_persona`. */
  function DeTipo(tipo: string): Persona -> bool {
    (p: Persona) => NotDeleted(p) && p.data.tipoPersona == tipo
  }

  /** `obtenerPersonas`: exactly the non-deleted persons, newest first. */
  function ObtenerPersonas(rows: seq<Persona>): (r: seq<Persona>)
    ensures NewestFirst(r)
    ensures forall x :: x in r <==> x in rows && NotDeleted(x)
    ensures forall x :: multiset(r)[x] == if NotDeleted(x) then multiset(rows)[x] else 0
  {
    Listing(rows, NotDeleted)
  }

  /** `obtenerClientes`: exactly the non-deleted persons whose `tipo_persona` is 'Cliente', newest first. */
  function ObtenerClientes(rows: seq<Persona>): (r: seq<Persona>)
    ensures NewestFirst(r)
    ensures forall x :: x in r <==> x in rows && NotDeleted(x) && x.data.tipoPersona == Cliente
    ensures forall x :: multiset(r)[x] == if NotDeleted(x) && x.data.tipoPersona == Cliente then multiset(rows)[x] else 0
  {
    Listing(rows, DeTipo(Cliente))
  }

  /** `obtenerProveedores`: exactly the non-deleted persons whose `tipo_persona` is 'Proveedor', newest first. */
  function ObtenerProveedores(rows: seq<Persona>): (r: seq<Persona>)
    ensures NewestFirst(r)
    ensures forall x :: x in r <==> x in rows && NotDeleted(x) && x.data.tipoPersona == Proveedor
    ensures forall x :: multiset(r)[x] == if NotDeleted(x) && x.data.tipoPersona == Proveedor then multiset(rows)[x] else 0
  {
    Listing(rows, DeTipo(Proveedor))
  }

  /** No person is listed both as a client and as a supplier, and both lists are part of the full listing. */
  lemma ClientesProveedoresDisjuntos(rows: seq<Persona>)
    ensures forall x :: !(x in ObtenerClientes(rows) && x in ObtenerProveedores(rows))
    ensures forall x :: x in ObtenerClientes(rows) || x in ObtenerProveedores(rows) ==> x in ObtenerPersonas(rows)
  {
  }

  /** `obtenerPersonaId`: 400 on a non-UUID id, 404 'El registro no existe', else the stored row. */
  function ObtenerPersonaId(rows: seq<Persona>, id: Uuid, isUuid: string -> bool): (r: Reply<Persona>)
    ensures r.Ok? <==> isUuid(id) && HasId(rows, id)
    ensures r.Ok? ==> r.status == 200 && r.data in rows && r.data.id == id
    ensures !isUuid(id) ==> r == Fail(400, IdInvalido)
    ensures isUuid(id) && !HasId(rows, id) ==> r == Fail(404, RegistroNoExiste)
  {
    ObtenerPorId(rows, id, isUuid, RegistroNoExiste)
  }

  /**
   * `crearPersona`: a taken `nombre` is answered 400 before `email` is looked
   * at; a taken `email` is answered 400 too; only then is the row stored.
   */
  method CrearPersona(personas: Table<PersonaData>, body: Alta<PersonaData>, freshId: Uuid, now: int)
    returns (res: Reply<Persona>)
    requires personas.Valid() && !HasId(personas.rows, freshId)
    modifies personas
    ensures personas.Valid()
    ensures HasNombre(old(personas.rows), body.nombre) ==>
              res == Fail(400, PersonaYaRegistrada) && personas.rows == old(personas.rows)
    ensures !HasNombre(old(personas.rows), body.nombre) && HasEmail(old(personas.rows), body.data.email) ==>
              res == Fail(400, CorreoYaRegistrado) && personas.rows == old(personas.rows)
    ensures !HasNombre(old(personas.rows), body.nombre) && !HasEmail(old(personas.rows), body.data.email) ==>
              res == Ok(201, Nuevo(freshId, body, now)) && personas.rows == old(personas.rows) + [Nuevo(freshId, body, now)]
    ensures UniqueNombres(old(personas.rows)) ==> UniqueNombres(personas.rows)
  {
    if HasNombre(personas.rows, body.nombre) {
      return Fail(400, PersonaYaRegistrada);
    }
    if HasEmail(personas.rows, body.data.email) {
      return Fail(400, CorreoYaRegistrado);
    }
    var persona := Nuevo(freshId, body, now);
    personas.Insert(persona);
    res := Ok(201, persona);
  }

  /** `actualizarPersona`: UUID guard, then the body's columns are written; a missing id: 500. */
  method ActualizarPersona(personas: Table<PersonaData>, id: Uuid, isUuid: string -> bool, patch: Persona -> Persona)
    returns (res: Reply<Persona>)
    requires personas.Valid()
    modifies personas
    ensures personas.Valid()
    ensures !isUuid(id) ==> res == Fail(400, IdInvalido) && personas.rows == old(personas.rows)
    ensures isUuid(id) ==> personas.rows == UpdateWhere(old(personas.rows), id, patch)
    ensures isUuid(id) && !HasId(old(personas.rows), id) ==> res == Fail(500, ErrorGenerico)
    ensures isUuid(id) && HasId(old(personas.rows), id) ==> res == Ok(200, patch(Find(old(personas.rows), id).value).(id := id))
  {
    res := Actualizar(personas, id, isUuid, patch);
  }

  /** `eliminarPersona`: 400, 404 'Persona no encontrado', or `eliminado` set to 'SI'. */
  method EliminarPersona(personas: Table<PersonaData>, id: Uuid, isUuid: string -> bool) returns (res: Reply<Persona>)
    requires personas.Valid()
    modifies personas
    ensures personas.Valid()
    ensures !isUuid(id) ==> res == Fail(400, IdInvalido) && personas.rows == old(personas.rows)
    ensures isUuid(id) && !HasId(old(personas.rows), id) ==>
              res == Fail(404, PersonaNoEncontrada) && personas.rows == old(personas.rows)
    ensures isUuid(id) && HasId(old(personas.rows), id) ==>
              res == Ok(200, Find(old(personas.rows), id).value.(eliminado := SI)) && personas.rows == SoftDeleted(old(personas.rows), id)
  {
    res := Eliminar(personas, id, isUuid, PersonaNoEncontrada);
  }

  /** `activarPersona`: `estado` 1, no UUID guard; a missing id: 500. */
  method ActivarPersona(personas: Table<PersonaData>, id: Uuid) returns (res: Reply<Persona>)
    requires personas.Valid()
    modifies personas
    ensures personas.Valid() && personas.rows == WithEstado(old(personas.rows), id, 1)
    ensures !HasId(old(personas.rows), id) ==> res == Fail(500, ErrorGenerico)
    ensures HasId(old(personas.rows), id) ==> res == Ok(200, Find(old(personas.rows), id).value.(estado := 1))
  {
    res := CambiarEstado(personas, id, 1);
  }

  /** `desactivarPersona`: `estado` 0, no UUID guard; a missing id: 500. */
  method DesactivarPersona(personas: Table<PersonaData>, id: Uuid) returns (res: Reply<Persona>)
    requires personas.Valid()
    modifies personas
    ensures personas.Valid() && personas.rows == WithEstado(old(personas.rows), id, 0)
    ensures !HasId(old(personas.rows), id) ==> res == Fail(500, ErrorGenerico)
    ensures HasId(old(personas.rows), id) ==> res == Ok(200, Find(old(personas.rows), id).value.(estado := 0))
  {
    res := CambiarEstado(personas, id, 0);
  }
}
