/**
 * The `validarJWT` middleware: the `x-token` header must be present, verify
 * under the server secret, and name through its `id` claim a stored user who
 * is active and not deleted. The claims are copied onto the request before
 * the user is looked up.
 */
module ValidarJwt {
  import opened Store
  import opened Schema

  const NoHayToken: string := "No hay token en la petición"
  const TokenNoValido: string := "Token no válido"
  const NoAutorizadoOInactivo: string := "Usuario no autorizado o inactivo"

  /** What a middleware does with a request: pass it on (`next()`), or answer it. */
  datatype Decision = Next | Deny(status: int, message: string)

  /** A claim of the decoded payload; `None` is `undefined`. */
  function Claim(c: Claims, key: string): Option<Json> {
    if key in c then Some(c[key]) else None
  }

  /** A header value JavaScript treats as true: present and not empty. */
  predicate HasToken(token: Option<string>) {
    token.Some? && token.value != ""
  }

  /** A user the gate lets through: stored, `estado` 1, `eliminado` 'NO'. */
  predicate Habilitado(usuarios: seq<Usuario>, uid: Uuid)
    ensures Habilitado(usuarios, uid) ==>
              exists k :: 0 <= k < |usuarios| && usuarios[k].id == uid && usuarios[k].estado == 1 && usuarios[k].eliminado == NO
  {
    match Find(usuarios, uid)
    case None => false
    case Some(u) => u.estado == 1 && u.eliminado == NO
  }

  /**
   * The decision chain. `verify` stands for `jwt.verify` with the server
   * secret (`None` when it throws). An `id` claim that is missing or not a
   * string makes the user lookup throw, which the same catch answers with
   * 'Token no válido'.
   */
  function DecidirJwt(token: Option<string>, verify: string -> Option<Claims>, usuarios: seq<Usuario>): (d: Decision)
    ensures !HasToken(token) ==> d == Deny(401, NoHayToken)
    ensures HasToken(token) && verify(token.value).None? ==> d == Deny(401, TokenNoValido)
    ensures d.Deny? ==> d.status == 401
    ensures d == Next <==>
              && HasToken(token)
              && verify(token.value).Some?
              && Claim(verify(token.value).value, "id").Some?
              && Claim(verify(token.value).value, "id").value.JStr?
              && Habilitado(usuarios, Claim(verify(token.value).value, "id").value.s)
  {
    if !HasToken(token) then Deny(401, NoHayToken)
    else match verify(token.value)
      case None => Deny(401, TokenNoValido)
      case Some(claims) =>
        match Claim(claims, "id")
        case Some(JStr(uid)) => if Habilitado(usuarios, uid) then Next else Deny(401, NoAutorizadoOInactivo)
        case _ => Deny(401, TokenNoValido)
  }

  /** A verified token whose user is missing, inactive or deleted is refused with 'Usuario no autorizado o inactivo'. */
  lemma InactiveUserRefused(token: string, verify: string -> Option<Claims>, usuarios: seq<Usuario>, k: nat)
    requires token != "" && verify(token).Some? && k < |usuarios| && UniqueIds(usuarios)
    requires Claim(verify(token).value, "id") == Some(JStr(usuarios[k].id))
    requires usuarios[k].estado != 1 || usuarios[k].eliminado != NO
    ensures DecidirJwt(Some(token), verify, usuarios) == Deny(401, NoAutorizadoOInactivo)
  {
    FindAt(usuarios, k);
  }

  /** The request object the middleware writes to, and the count of `next()` calls it makes. */
  class Peticion {
    const token: Option<string>
    var uid: Option<Json>
    var rol: Option<Json>
    var userInfo: Option<Claims>
    var nextCalls: nat

    constructor (token: Option<string>)
      ensures this.token == token && uid.None? && rol.None? && userInfo.None? && nextCalls == 0
    {
      this.token := token;
      uid := None;
      rol := None;
      userInfo := None;
      nextCalls := 0;
    }

    /**
     * Everything `validarJWT` does before it calls its continuation: once the
     * token verifies, `uid`, `rol` and `userInfo` are set from the claims,
     * whatever the lookup then decides.
     */
    method Autenticar(verify: string -> Option<Claims>, usuarios: seq<Usuario>) returns (d: Decision)
      modifies this
      ensures d == DecidirJwt(token, verify, usuarios)
      ensures nextCalls == old(nextCalls)
      ensures HasToken(token) && verify(token.value).Some? ==>
                var c := verify(token.value).value;
                uid == Claim(c, "id") && rol == Claim(c, "rol") && userInfo == Some(c)
      ensures !(HasToken(token) && verify(token.value).Some?) ==>
                uid == old(uid) && rol == old(rol) && userInfo == old(userInfo)
    {
      if !HasToken(token) {
        return Deny(401, NoHayToken);
      }
      var info := verify(token.value);
      if info.None? {
        return Deny(401, TokenNoValido);
      }
      var claims := info.value;
      uid := Claim(claims, "id");
      rol := Claim(claims, "rol");
      userInfo := Some(claims);
      match uid {
        case Some(JStr(id)) =>
          if Habilitado(usuarios, id) {
            d := Next;
          } else {
            d := Deny(401, NoAutorizadoOInactivo);
          }
        case _ =>
          d := Deny(401, TokenNoValido);
      }
    }

    /** `validarJWT` as route middleware: `next()` is called exactly once when the request passes, never otherwise. */
    method ValidarJwt(verify: string -> Option<Claims>, usuarios: seq<Usuario>) returns (d: Decision)
      modifies this
      ensures d == DecidirJwt(token, verify, usuarios)
      ensures nextCalls == old(nextCalls) + (if d == Next then 1 else 0)
      ensures HasToken(token) && verify(token.value).Some? ==> rol == Claim(verify(token.value).value, "rol")
    {
      d := Autenticar(verify, usuarios);
      if d == Next {
        nextCalls := nextCalls + 1;
      }
    }
  }
}
