/**
 * The relational store that every controller reaches through the ORM, as
 * in-memory tables. A table is the sequence of its rows in storage order;
 * `findUnique`, `findMany`, `create` and `update` become the functions and
 * methods below.
 */
module Store {

  type Uuid = string

  /** Values of the soft-delete column `eliminado`. */
  const NO: string := "NO"
  const SI: string := "SI"

  /** Value a new row takes in `estado` when the request does not supply one. */
  const DefaultEstado: int := 1

  /** Message of every handler's catch block (status 500). */
  const ErrorGenerico: string := "Ocurrió un error"

  datatype Option<T> = None | Some(value: T)

  /** What a handler sends back: a status with a payload, or a status with a message. */
  datatype Reply<T> = Ok(status: int, data: T) | Fail(status: int, message: string)

  /**
   * A row of a catalogue table (articulo, categoria, persona, usuario): the
   * columns they all share, and the entity's own columns in `data`.
   */
  datatype Record<P> = Record(id: Uuid, nombre: string, estado: int, eliminado: string, createdAt: int, data: P)

  ghost predicate UniqueIds<P>(rows: seq<Record<P>>) {
    forall i, j :: 0 <= i < j < |rows| ==> rows[i].id != rows[j].id
  }

  /** `nombre` carries a unique index in every catalogue table. */
  ghost predicate UniqueNombres<P>(rows: seq<Record<P>>) {
    forall i, j :: 0 <= i < j < |rows| ==> rows[i].nombre != rows[j].nombre
  }

  predicate HasId<P>(rows: seq<Record<P>>, id: Uuid) {
    exists i :: 0 <= i < |rows| && rows[i].id == id
  }

  predicate HasNombre<P>(rows: seq<Record<P>>, nombre: string) {
    exists i :: 0 <= i < |rows| && rows[i].nombre == nombre
  }

  predicate NotDeleted<P>(r: Record<P>) {
    r.eliminado == NO
  }

  /** `findUnique({ where: { id } })`: the row with that id, if any. */
  function Find<P>(rows: seq<Record<P>>, id: Uuid): (r: Option<Record<P>>)
    ensures r.Some? <==> HasId(rows, id)
    ensures r.Some? ==> r.value in rows && r.value.id == id
  {
    if |rows| == 0 then None
    else if rows[0].id == id then Some(rows[0])
    else
      var r := Find(rows[1..], id);
      assert r.Some? ==> HasId(rows, id) by {
        if r.Some? {
          var k :| 0 <= k < |rows[1..]| && rows[1..][k].id == id;
          assert rows[k + 1].id == id;
        }
      }
      assert HasId(rows, id) ==> r.Some? by {
        if HasId(rows, id) {
          var k :| 0 <= k < |rows| && rows[k].id == id;
          assert k != 0;
          assert rows[1..][k - 1].id == id;
        }
      }
      r
  }

  /** `findUnique` on another unique column: the first row that satisfies `p`, if any. */
  function FindWhere<P>(rows: seq<Record<P>>, p: Record<P> -> bool): (r: Option<Record<P>>)
    ensures r.Some? <==> exists i :: 0 <= i < |rows| && p(rows[i])
    ensures r.Some? ==> r.value in rows && p(r.value)
  {
    if |rows| == 0 then None
    else if p(rows[0]) then Some(rows[0])
    else
      var r := FindWhere(rows[1..], p);
      assert r.Some? ==> exists i :: 0 <= i < |rows| && p(rows[i]) by {
        if r.Some? {
          var k :| 0 <= k < |rows[1..]| && p(rows[1..][k]);
          assert p(rows[k + 1]);
        }
      }
      assert (exists i :: 0 <= i < |rows| && p(rows[i])) ==> r.Some? by {
        if exists i :: 0 <= i < |rows| && p(rows[i]) {
          var k :| 0 <= k < |rows| && p(rows[k]);
          assert rows[1..][k - 1] == rows[k];
        }
      }
      r
  }

  /** With unique ids, the row a lookup finds is the one stored under that id. */
  lemma {:induction false} FindAt<P>(rows: seq<Record<P>>, k: nat)
    requires UniqueIds(rows) && k < |rows|
    ensures Find(rows, rows[k].id) == Some(rows[k])
  {
    if k > 0 {
      assert rows[0].id != rows[k].id;
      assert rows[1..][k - 1] == rows[k];
      FindAt(rows[1..], k - 1);
    }
  }

  /**
   * `update({ where: { id }, data })` applied to the stored rows; the id column
   * is never rewritten. This closed form is the reference `Table.Update` and
   * `UpdateWhereShape` are proved against.
   */
  function UpdateWhere<P>(rows: seq<Record<P>>, id: Uuid, f: Record<P> -> Record<P>): (r: seq<Record<P>>)
    ensures |r| == |rows|
    ensures forall i :: 0 <= i < |rows| ==> r[i] == if rows[i].id == id then f(rows[i]).(id := id) else rows[i]
  {
    seq(|rows|, i requires 0 <= i < |rows| => if rows[i].id == id then f(rows[i]).(id := id) else rows[i])
  }

  /** An update leaves every id in place, so it keeps ids unique; on a missing id it changes nothing. */
  lemma UpdateWhereShape<P>(rows: seq<Record<P>>, id: Uuid, f: Record<P> -> Record<P>)
    ensures forall i :: 0 <= i < |rows| ==> UpdateWhere(rows, id, f)[i].id == rows[i].id
    ensures UniqueIds(rows) ==> UniqueIds(UpdateWhere(rows, id, f))
    ensures !HasId(rows, id) ==> UpdateWhere(rows, id, f) == rows
  {
    var r := UpdateWhere(rows, id, f);
    if !HasId(rows, id) {
      assert forall i :: 0 <= i < |rows| ==> r[i] == rows[i];
    }
  }

  /** Rows set to soft-deleted: `update({ where: { id }, data: { eliminado: 'SI' } })`. */
  function SoftDeleted<P>(rows: seq<Record<P>>, id: Uuid): (r: seq<Record<P>>)
    ensures |r| == |rows|
    ensures forall i :: 0 <= i < |rows| ==>
              r[i] == rows[i].(eliminado := if rows[i].id == id then SI else rows[i].eliminado)
  {
    UpdateWhere(rows, id, (r: Record<P>) => r.(eliminado := SI))
  }

  /** Rows after `update({ where: { id }, data: { estado } })`. */
  function WithEstado<P>(rows: seq<Record<P>>, id: Uuid, estado: int): (r: seq<Record<P>>)
    ensures |r| == |rows|
    ensures forall i :: 0 <= i < |rows| ==>
              r[i] == rows[i].(estado := if rows[i].id == id then estado else rows[i].estado)
  {
    UpdateWhere(rows, id, (r: Record<P>) => r.(estado := estado))
  }

  /** The rows a `findMany({ where })` selects, in storage order. */
  function Filter<P(!new)>(rows: seq<Record<P>>, keep: Record<P> -> bool): (r: seq<Record<P>>)
    ensures forall x :: multiset(r)[x] == if keep(x) then multiset(rows)[x] else 0
    ensures forall x :: x in r <==> x in rows && keep(x)
  {
    if |rows| == 0 then []
    else
      var rest := Filter(rows[1..], keep);
      assert rows == [rows[0]] + rows[1..];
      assert multiset(rows) == multiset{rows[0]} + multiset(rows[1..]);
      if keep(rows[0]) then [rows[0]] + rest else rest
  }

  ghost predicate NewestFirst<P>(s: seq<Record<P>>) {
    forall i, j :: 0 <= i < j < |s| ==> s[i].createdAt >= s[j].createdAt
  }

  /** A row no older than every row of a newest-first sequence can go in front of it. */
  lemma PrependNewest<P>(h: Record<P>, t: seq<Record<P>>)
    requires NewestFirst(t)
    requires forall y :: y in t ==> y.createdAt <= h.createdAt
    ensures NewestFirst([h] + t)
  {
    var r := [h] + t;
    forall i, j | 0 <= i < j < |r| ensures r[i].createdAt >= r[j].createdAt {
      if i == 0 {
        assert r[j] == t[j - 1];
        assert r[j] in t;
      } else {
        assert r[i] == t[i - 1] && r[j] == t[j - 1];
      }
    }
  }

  /** One step of the ordering: `x` goes in front of the first row not newer than it. */
  function InsertByDate<P>(x: Record<P>, s: seq<Record<P>>): (r: seq<Record<P>>)
    ensures |r| == |s| + 1
  {
    if |s| == 0 || x.createdAt >= s[0].createdAt then [x] + s
    else [s[0]] + InsertByDate(x, s[1..])
  }

  /** Inserting adds `x` once and keeps every row of `s`, each as often as before. */
  lemma {:induction false} InsertByDatePermutes<P>(x: Record<P>, s: seq<Record<P>>)
    ensures multiset(InsertByDate(x, s)) == multiset(s) + multiset{x}
  {
    if |s| > 0 && x.createdAt < s[0].createdAt {
      InsertByDatePermutes(x, s[1..]);
      assert s == [s[0]] + s[1..];
    }
  }

  /** Inserting into a newest-first sequence gives a newest-first sequence. */
  lemma {:induction false} InsertByDateOrdered<P>(x: Record<P>, s: seq<Record<P>>)
    requires NewestFirst(s)
    ensures NewestFirst(InsertByDate(x, s))
  {
    if |s| == 0 || x.createdAt >= s[0].createdAt {
      forall y | y in s ensures y.createdAt <= x.createdAt {
        var j :| 0 <= j < |s| && s[j] == y;
      }
      PrependNewest(x, s);
    } else {
      var rest := InsertByDate(x, s[1..]);
      InsertByDateOrdered(x, s[1..]);
      InsertByDatePermutes(x, s[1..]);
      forall y | y in rest ensures y.createdAt <= s[0].createdAt {
        assert y in multiset(rest);
        if y != x {
          assert y in s[1..];
          var j :| 0 <= j < |s[1..]| && s[1..][j] == y;
          assert y == s[j + 1];
        }
      }
      PrependNewest(s[0], rest);
    }
  }

  /** `orderBy: { createdAt: 'desc' }`: the same rows, newest first. */
  function OrderByNewest<P>(s: seq<Record<P>>): (r: seq<Record<P>>)
    ensures NewestFirst(r)
    ensures multiset(r) == multiset(s)
  {
    if |s| == 0 then []
    else
      var rest := OrderByNewest(s[1..]);
      InsertByDateOrdered(s[0], rest);
      InsertByDatePermutes(s[0], rest);
      assert s == [s[0]] + s[1..];
      InsertByDate(s[0], rest)
  }

  /**
   * `findMany({ where: keep, orderBy: { createdAt: 'desc' } })`: exactly the rows
   * that satisfy the filter, each as often as it is stored, newest first.
   */
  function Listing<P(!new)>(rows: seq<Record<P>>, keep: Record<P> -> bool): (r: seq<Record<P>>)
    ensures NewestFirst(r)
    ensures forall x :: multiset(r)[x] == if keep(x) then multiset(rows)[x] else 0
    ensures forall x :: x in r <==> x in rows && keep(x)
  {
    var r := OrderByNewest(Filter(rows, keep));
    assert forall x :: x in r <==> x in multiset(r);
    r
  }

  /**
   * Soft delete hides exactly one row from the not-deleted listing: the rows
   * listed afterwards are those listed before minus the one with that id.
   */
  lemma SoftDeleteHides<P(!new)>(rows: seq<Record<P>>, id: Uuid)
    ensures forall x :: x in Listing(SoftDeleted(rows, id), NotDeleted) <==>
                        x in Listing(rows, NotDeleted) && x.id != id
  {
    var after := SoftDeleted(rows, id);
    forall x
      ensures x in Listing(after, NotDeleted) <==> x in Listing(rows, NotDeleted) && x.id != id
    {
      if x in after && NotDeleted(x) {
        var k :| 0 <= k < |after| && after[k] == x;
        assert x == rows[k] && x.id != id;
      }
      if x in rows && NotDeleted(x) && x.id != id {
        var k :| 0 <= k < |rows| && rows[k] == x;
        assert after[k] == x;
      }
    }
  }

  /** `estado` plays no part in the not-deleted listing: a deactivated row is still listed. */
  lemma EstadoKeepsListing<P(!new)>(rows: seq<Record<P>>, id: Uuid, estado: int, k: nat)
    requires k < |rows| && rows[k].id == id && NotDeleted(rows[k])
    ensures rows[k].(estado := estado) in Listing(WithEstado(rows, id, estado), NotDeleted)
  {
    assert WithEstado(rows, id, estado)[k] == rows[k].(estado := estado);
  }

  /** One table of the store, changed in place by the ORM calls the controllers make. */
  class Table<P> {
    var rows: seq<Record<P>>

    ghost predicate Valid()
      reads this
    {
      UniqueIds(rows)
    }

    constructor ()
      ensures Valid() && rows == []
    {
      rows := [];
    }

    /** `create({ data })` with an id the database generated, so not yet present. */
    method Insert(r: Record<P>)
      requires Valid() && !HasId(rows, r.id)
      modifies this
      ensures Valid() && rows == old(rows) + [r]
    {
      rows := rows + [r];
    }

    /**
     * `update({ where: { id }, data })`: a missing id makes the ORM throw
     * (`None` here) and leaves the table as it was; otherwise the row is
     * rewritten and returned.
     */
    method Update(id: Uuid, f: Record<P> -> Record<P>) returns (updated: Option<Record<P>>)
      requires Valid()
      modifies this
      ensures Valid()
      ensures rows == UpdateWhere(old(rows), id, f)
      ensures !HasId(old(rows), id) ==> updated == None && rows == old(rows)
      ensures HasId(old(rows), id) ==> updated == Some(f(Find(old(rows), id).value).(id := id))
    {
      UpdateWhereShape(rows, id, f);
      var found := Find(rows, id);
      if found.Some? {
        updated := Some(f(found.value).(id := id));
      } else {
        updated := None;
      }
      rows := UpdateWhere(rows, id, f);
    }
  }
}
