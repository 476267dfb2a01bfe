/**
 * The login and token-renewal handlers: guard chains with early returns over
 * the user table, with bcrypt's comparison and the token signer as oracles.
 * Also the tokens they issue, measured against the gate in `validarJWT`.
 */
module AuthController {
  import opened Store
  import opened Schema
  import opened ValidarJwt
  import opened VerificarRoles

  const UsernameIncorrecto: string := "Nombre de usuario incorrecto"
  const UsuarioDeshabilitado: string := "Usuario deshabilitado. Contacte al administrador"
  const PasswordIncorrecta: string := "Contraseña incorrecta"
  const IdNoValido: string := "ID no válido"
  const UsuarioNoEncontrado: string := "Usuario no encontrado"

  function ConUsername(username: string): Usuario -> bool {
    (u: Usuario) => u.data.username == username
  }

  /** The payload `login` signs: it passes the whole user row to `generarJWT`, so the row lands under `uid`. */
  function PayloadLogin(u: Usuario): (c: Claims)
    ensures "uid" in c && c["uid"] == JObj(UsuarioJson(u))
    ensures "password" in c["uid"].fields && c["uid"].fields["password"] == JStr(u.data.password)
  {
    PayloadJwt(JObj(UsuarioJson(u)))
  }

  /**
   * `login`: an unknown `username` is 404; a user whose `estado` is not 1 is
   * 403 before the password is compared; a wrong password is 400; otherwise
   * 200 with a signed token. `eliminado` is not looked at.
   */
  function Login(usuarios: seq<Usuario>, username: string, password: string,
                 compare: (string, string) -> bool, sign: Claims -> string): (r: Reply<string>)
    ensures FindWhere(usuarios, ConUsername(username)).None? ==> r == Fail(404, UsernameIncorrecto)
    ensures FindWhere(usuarios, ConUsername(username)).Some? ==>
              var u := FindWhere(usuarios, ConUsername(username)).value;
              && u.data.username == username
              && (u.estado != 1 ==> r == Fail(403, UsuarioDeshabilitado))
              && (u.estado == 1 && !compare(password, u.data.password) ==> r == Fail(400, PasswordIncorrecta))
              && (u.estado == 1 && compare(password, u.data.password) ==> r == Ok(200, sign(PayloadLogin(u))))
    ensures r.Ok? <==> exists u :: u in usuarios && u.data.username == username && u.estado == 1 &&
                                   u == FindWhere(usuarios, ConUsername(username)).value &&
                                   compare(password, u.data.password)
  {
    match FindWhere(usuarios, ConUsername(username))
    case None => Fail(404, UsernameIncorrecto)
    case Some(u) =>
      if u.estado != 1 then Fail(403, UsuarioDeshabilitado)
      else if !compare(password, u.data.password) then Fail(400, PasswordIncorrecta)
      else Ok(200, sign(PayloadLogin(u)))
  }

  /** A disabled user is turned away even with a password the comparison would reject: the password is never looked at. */
  lemma DisabledBeforePassword(usuarios: seq<Usuario>, username: string, p1: string, p2: string,
                               compare: (string, string) -> bool, sign: Claims -> string)
    requires FindWhere(usuarios, ConUsername(username)).Some?
    requires FindWhere(usuarios, ConUsername(username)).value.estado != 1
    ensures Login(usuarios, username, p1, compare, sign) == Login(usuarios, username, p2, compare, sign) == Fail(403, UsuarioDeshabilitado)
  {
  }

  /** A soft-deleted user who is active and gives the right password still gets a token. */
  lemma DeletedUserLogsIn(usuarios: seq<Usuario>, k: nat, password: string,
                          compare: (string, string) -> bool, sign: Claims -> string)
    requires k < |usuarios| && UniqueUsernames(usuarios)
    requires usuarios[k].eliminado == SI && usuarios[k].estado == 1 && compare(password, usuarios[k].data.password)
    ensures Login(usuarios, usuarios[k].data.username, password, compare, sign) == Ok(200, sign(PayloadLogin(usuarios[k])))
  {
    var found := FindWhere(usuarios, ConUsername(usuarios[k].data.username));
    var j :| 0 <= j < |usuarios| && usuarios[j] == found.value;
    assert usuarios[j].data.username == usuarios[k].data.username;
  }

  /** `username` carries a unique index. */
  ghost predicate UniqueUsernames(usuarios: seq<Usuario>) {
    forall i, j :: 0 <= i < j < |usuarios| ==> usuarios[i].data.username != usuarios[j].data.username
  }

  /** What `renewToken` sends: a new token and the stored user row. */
  datatype Renovado = Renovado(token: string, usuario: Usuario)

  /**
   * `renewToken`: a `uid` the gate left missing, empty or not a UUID is 400
   * before any lookup; an unknown one is 404; otherwise a token signed for
   * that `uid` and the user, as stored.
   */
  function RenewToken(uid: Option<string>, isUuid: string -> bool, usuarios: seq<Usuario>, sign: Claims -> string)
    : (r: Reply<Renovado>)
    ensures !HasToken(uid) || !isUuid(uid.value) ==> r == Fail(400, IdNoValido)
    ensures HasToken(uid) && isUuid(uid.value) && !HasId(usuarios, uid.value) ==> r == Fail(404, UsuarioNoEncontrado)
    ensures r.Ok? <==> HasToken(uid) && isUuid(uid.value) && HasId(usuarios, uid.value)
    ensures r.Ok? ==> r.status == 200 && r.data.usuario in usuarios && r.data.usuario.id == uid.value
                      && r.data.token == sign(PayloadJwt(JStr(uid.value)))
  {
    if !HasToken(uid) || !isUuid(uid.value) then Fail(400, IdNoValido)
    else match Find(usuarios, uid.value)
      case None => Fail(404, UsuarioNoEncontrado)
      case Some(u) => Ok(200, Renovado(sign(PayloadJwt(JStr(uid.value))), u))
  }

  /**
   * As written, every token the project signs puts the user under `uid`, but
   * the gate reads `id`: presented back, any such token is refused as
   * 'Token no válido', for every user table.
   */
  lemma IssuedTokensRefused(token: string, verify: string -> Option<Claims>, usuarios: seq<Usuario>, uid: Json)
    requires token != "" && verify(token) == Some(PayloadJwt(uid))
    ensures DecidirJwt(Some(token), verify, usuarios) == Deny(401, TokenNoValido)
    ensures forall ch :: DecidirRol(ch, Some(token), verify, usuarios) == Deny(401, TokenNoValido)
  {
  }

  /** In particular the token `login` hands to an enabled user with the right password is refused by the gate. */
  lemma LoginTokenRefused(usuarios: seq<Usuario>, username: string, password: string,
                          compare: (string, string) -> bool, sign: Claims -> string, verify: string -> Option<Claims>)
    requires Login(usuarios, username, password, compare, sign).Ok?
    requires Login(usuarios, username, password, compare, sign).data != ""
    requires verify(Login(usuarios, username, password, compare, sign).data) ==
             Some(PayloadLogin(FindWhere(usuarios, ConUsername(username)).value))
    ensures DecidirJwt(Some(Login(usuarios, username, password, compare, sign).data), verify, usuarios) == Deny(401, TokenNoValido)
  {
    IssuedTokensRefused(Login(usuarios, username, password, compare, sign).data, verify, usuarios,
                        JObj(UsuarioJson(FindWhere(usuarios, ConUsername(username)).value)));
  }

  /** The payload the gate expects: the user's id under `id` and the role under `rol`. */
  function PayloadCorregido(u: Usuario): (c: Claims)
    ensures Claim(c, "id") == Some(JStr(u.id)) && Claim(c, "rol") == Some(JStr(u.data.rol))
  {
    map["id" := JStr(u.id), "rol" := JStr(u.data.rol)]
  }

  /**
   * Signed with the corrected payload, a token of a stored, active,
   * non-deleted user passes the gate, and each role check then admits
   * exactly the roles it lists for that user's stored role.
   */
  lemma CorrectedTokenAdmitted(token: string, verify: string -> Option<Claims>, usuarios: seq<Usuario>, k: nat, ch: Chequeo)
    requires UniqueIds(usuarios) && k < |usuarios|
    requires usuarios[k].estado == 1 && usuarios[k].eliminado == NO
    requires token != "" && verify(token) == Some(PayloadCorregido(usuarios[k]))
    ensures DecidirJwt(Some(token), verify, usuarios) == Next
    ensures DecidirRol(ch, Some(token), verify, usuarios) == Next <==> Admite(ch, Some(JStr(usuarios[k].data.rol)))
  {
    FindAt(usuarios, k);
  }
}
