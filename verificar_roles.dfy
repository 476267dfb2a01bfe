/**
 * The four role middlewares. Each runs the JWT gate with its own
 * continuation, which compares the `rol` claim copied onto the request with
 * the roles it admits: 403 'No autorizado' for any other, `next()` otherwise.
 * The role comes from the token, never from the stored user.
 */
module VerificarRoles {
  import opened Store
  import opened Schema
  import opened ValidarJwt

  const NoAutorizado: string := "No autorizado"

  const Administrador: string := "Administrador"
  const Vendedor: string := "Vendedor"
  const Bodeguero: string := "Bodeguero"
  const Almacenero: string := "Almacenero"

  /** The four middlewares: `verificarUsuario`, `verificarAdministrador`, `verificarBodeguero`, `verificarVendedor`. */
  datatype Chequeo = VerificarUsuario | VerificarAdministrador | VerificarBodeguero | VerificarVendedor

  /** `rol === '…' || …` in each continuation; a `rol` that is missing or not a string equals none of them. */
  function Admite(ch: Chequeo, rol: Option<Json>): (b: bool)
    ensures ch == VerificarUsuario ==>
              (b <==> rol in {Some(JStr(Administrador)), Some(JStr(Vendedor)), Some(JStr(Bodeguero))})
    ensures ch == VerificarAdministrador ==> (b <==> rol == Some(JStr(Administrador)))
    ensures ch == VerificarBodeguero ==> (b <==> rol in {Some(JStr(Administrador)), Some(JStr(Almacenero))})
    ensures ch == VerificarVendedor ==> (b <==> rol in {Some(JStr(Administrador)), Some(JStr(Vendedor))})
  {
    match ch
    case VerificarUsuario =>
      rol == Some(JStr(Administrador)) || rol == Some(JStr(Vendedor)) || rol == Some(JStr(Bodeguero))
    case VerificarAdministrador =>
      rol == Some(JStr(Administrador))
    case VerificarBodeguero =>
      rol == Some(JStr(Administrador)) || rol == Some(JStr(Almacenero))
    case VerificarVendedor =>
      rol == Some(JStr(Administrador)) || rol == Some(JStr(Vendedor))
  }

  /** 'Administrador' passes every check, and whatever passes the administrator check passes them all. */
  lemma AdministradorPassesAll(rol: Option<Json>)
    ensures forall ch :: Admite(ch, Some(JStr(Administrador)))
    ensures Admite(VerificarAdministrador, rol) ==> forall ch :: Admite(ch, rol)
  {
    forall ch ensures Admite(ch, Some(JStr(Administrador))) {
      match ch
      case VerificarUsuario =>
      case VerificarAdministrador =>
      case VerificarBodeguero =>
      case VerificarVendedor =>
    }
  }

  /**
   * 'Bodeguero' is a user role but not a warehouse one: the warehouse check
   * admits 'Almacenero' instead, which the user check does not admit.
   */
  lemma BodegueroMismatch()
    ensures Admite(VerificarUsuario, Some(JStr(Bodeguero))) && !Admite(VerificarBodeguero, Some(JStr(Bodeguero)))
    ensures Admite(VerificarBodeguero, Some(JStr(Almacenero))) && !Admite(VerificarUsuario, Some(JStr(Almacenero)))
  {
  }

  /** The `rol` claim of a token that passed verification, as the gate copies it onto the request. */
  function RolDelToken(token: Option<string>, verify: string -> Option<Claims>): Option<Json> {
    if HasToken(token) && verify(token.value).Some? then Claim(verify(token.value).value, "rol") else None
  }

  /**
   * A role middleware: the JWT gate's refusal stands as it is; past the gate,
   * the `rol` claim decides between `next()` and 403.
   */
  function DecidirRol(ch: Chequeo, token: Option<string>, verify: string -> Option<Claims>, usuarios: seq<Usuario>)
    : (d: Decision)
    ensures DecidirJwt(token, verify, usuarios).Deny? ==> d == DecidirJwt(token, verify, usuarios)
    ensures d == Next <==> DecidirJwt(token, verify, usuarios) == Next && Admite(ch, RolDelToken(token, verify))
    ensures d.Deny? && d.status == 403 ==> d.message == NoAutorizado && DecidirJwt(token, verify, usuarios) == Next
  {
    match DecidirJwt(token, verify, usuarios)
    case Deny(status, message) => Deny(status, message)
    case Next => if Admite(ch, RolDelToken(token, verify)) then Next else Deny(403, NoAutorizado)
  }

  /**
   * Only the token's `rol` is consulted: two user tables that agree on who is
   * enabled give the same decision, whatever roles they store.
   */
  lemma StoredRolIgnored(ch: Chequeo, token: Option<string>, verify: string -> Option<Claims>, a: seq<Usuario>, b: seq<Usuario>)
    requires forall uid :: Habilitado(a, uid) <==> Habilitado(b, uid)
    ensures DecidirRol(ch, token, verify, a) == DecidirRol(ch, token, verify, b)
  {
    if HasToken(token) && verify(token.value).Some? {
      var c := verify(token.value).value;
      if Claim(c, "id").Some? && Claim(c, "id").value.JStr? {
        assert Habilitado(a, Claim(c, "id").value.s) == Habilitado(b, Claim(c, "id").value.s);
      }
    }
  }

  /**
   * The middleware on a request: the gate sets `uid`, `rol` and `userInfo`,
   * then the role continuation calls `next()` once, or answers 403.
   */
  method Verificar(p: Peticion, ch: Chequeo, verify: string -> Option<Claims>, usuarios: seq<Usuario>) returns (d: Decision)
    modifies p
    ensures d == DecidirRol(ch, p.token, verify, usuarios)
    ensures p.nextCalls == old(p.nextCalls) + (if d == Next then 1 else 0)
  {
    d := p.Autenticar(verify, usuarios);
    if d == Next {
      if Admite(ch, p.rol) {
        p.nextCalls := p.nextCalls + 1;
      } else {
        d := Deny(403, NoAutorizado);
      }
    }
  }
}
