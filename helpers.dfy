/**
 * The user helpers: the `id` to `uid` rename every user payload goes
 * through, the existence check behind the user uniqueness rules, and the
 * `estado` write shared by the activate and deactivate handlers.
 */
module Helpers {
  import opened Store
  import opened Schema

  const ErrorEstadoUsuario: string := "Ocurrió un error al actualizar el estado del usuario"

  /** What a helper that throws yields: its value, or the message of the error it throws. */
  datatype Result<T> = Success(value: T) | Failure(error: string)

  /**
   * `transformToUid`: `{ uid: id, ...rest }`. The object spread comes last,
   * so a `uid` key already in the input wins over the renamed `id`.
   */
  function TransformToUid(obj: JsonObject): (r: JsonObject)
    ensures "id" !in r
    ensures "id" in obj && "uid" !in obj ==> "uid" in r && r["uid"] == obj["id"]
    ensures forall k :: k in obj && k != "id" ==> k in r && r[k] == obj[k]
    ensures forall k :: k in r ==> (k in obj && k != "id") || (k == "uid" && "id" in obj)
  {
    (if "id" in obj then map["uid" := obj["id"]] else map[]) + (obj - {"id"})
  }

  /** The inverse rename, `uid` back to `id`, as a reference to check the rename against. */
  function RestoreId(obj: JsonObject): (r: JsonObject)
    ensures "uid" !in r
    ensures "uid" in obj && "id" !in obj ==> "id" in r && r["id"] == obj["uid"]
  {
    (if "uid" in obj then map["id" := obj["uid"]] else map[]) + (obj - {"uid"})
  }

  /** Without a `uid` key in the input, the rename loses nothing: renaming back gives the input. */
  lemma TransformToUidRoundTrip(obj: JsonObject)
    requires "uid" !in obj
    ensures RestoreId(TransformToUid(obj)) == obj
  {
    var t := TransformToUid(obj);
    var back := RestoreId(t);
    assert forall k :: k in back <==> k in obj;
    forall k | k in obj ensures back[k] == obj[k] {
      if k == "id" {
        assert t["uid"] == obj["id"];
      } else {
        assert t[k] == obj[k];
      }
    }
  }

  /** The three unique user columns `verificarExistencia` can search by. */
  datatype Campo = Nombre | Username | Email

  function ValorDe(u: Usuario, campo: Campo): string {
    match campo
    case Nombre => u.nombre
    case Username => u.data.username
    case Email => u.data.email
  }

  /** `verificarExistencia(campo, valor)`: whether some user, deleted or not, has `valor` in that column. */
  function Existe(rows: seq<Usuario>, campo: Campo, valor: string): (b: bool)
    ensures b <==> exists i :: 0 <= i < |rows| && ValorDe(rows[i], campo) == valor
  {
    if |rows| == 0 then false
    else if ValorDe(rows[0], campo) == valor then true
    else
      var rest := Existe(rows[1..], campo, valor);
      assert rest ==> exists i :: 0 <= i < |rows| && ValorDe(rows[i], campo) == valor by {
        if rest {
          var k :| 0 <= k < |rows[1..]| && ValorDe(rows[1..][k], campo) == valor;
          assert ValorDe(rows[k + 1], campo) == valor;
        }
      }
      assert (exists i :: 0 <= i < |rows| && ValorDe(rows[i], campo) == valor) ==> rest by {
        if exists i :: 0 <= i < |rows| && ValorDe(rows[i], campo) == valor {
          var k :| 0 <= k < |rows| && ValorDe(rows[k], campo) == valor;
          assert rows[1..][k - 1] == rows[k];
        }
      }
      rest
  }

  /** The user payload a handler sends: the row's columns, `id` renamed to `uid`. */
  function UsuarioPublico(u: Usuario): (j: JsonObject)
    ensures "uid" in j && j["uid"] == JStr(u.id) && "id" !in j
    ensures "estado" in j && j["estado"] == JInt(u.estado)
    ensures "eliminado" in j && j["eliminado"] == JStr(u.eliminado)
  {
    var row := UsuarioJson(u);
    assert "estado" != "id" && "eliminado" != "id";
    TransformToUid(row)
  }

  /** A user row has no `uid` column, so its payload renames back to the row's own columns. */
  lemma UsuarioPublicoRestores(u: Usuario)
    ensures RestoreId(UsuarioPublico(u)) == UsuarioJson(u)
  {
    TransformToUidRoundTrip(UsuarioJson(u));
  }

  /**
   * `actualizarEstadoUsuario`: write `estado` on the user and return the
   * renamed row; when the update throws (a missing id) the helper throws its
   * own generic message instead.
   */
  method ActualizarEstadoUsuario(usuarios: Table<UsuarioData>, usuarioId: Uuid, estado: int) returns (r: Result<JsonObject>)
    requires usuarios.Valid()
    modifies usuarios
    ensures usuarios.Valid()
    ensures usuarios.rows == WithEstado(old(usuarios.rows), usuarioId, estado)
    ensures !HasId(old(usuarios.rows), usuarioId) ==> r == Failure(ErrorEstadoUsuario) && usuarios.rows == old(usuarios.rows)
    ensures HasId(old(usuarios.rows), usuarioId) ==>
              r == Success(UsuarioPublico(Find(old(usuarios.rows), usuarioId).value.(estado := estado)))
  {
    var usuario := usuarios.Update(usuarioId, (u: Usuario) => u.(estado := estado));
    if usuario.None? {
      return Failure(ErrorEstadoUsuario);
    }
    r := Success(UsuarioPublico(usuario.value));
  }
}
