/**
 * The two stock primitives and the effect of running one of them over every
 * line item of a transaction, as the receipt and sale handlers do.
 */
module StockHelpers {
  import opened Store
  import opened Schema

  function WithStock(a: Articulo, n: int): (b: Articulo)
    ensures b.data.stock == n
  {
    a.(data := a.data.(stock := n))
  }

  /**
   * The article rows after `d` units are added to the stock of article `id`:
   * that article's stock moves by `d`, with no lower bound, and no other
   * article and no other column changes. This closed form is the reference
   * `WriteStock`, `AdjustObserved` and `AdjustInverse` are proved against.
   */
  function Adjust(rows: seq<Articulo>, id: Uuid, d: int): (r: seq<Articulo>)
    ensures |r| == |rows|
    ensures forall i :: 0 <= i < |rows| && rows[i].id == id ==> r[i] == WithStock(rows[i], rows[i].data.stock + d)
    ensures forall i :: 0 <= i < |rows| && rows[i].id != id ==> r[i] == rows[i]
  {
    seq(|rows|, i requires 0 <= i < |rows| =>
      if rows[i].id == id then WithStock(rows[i], rows[i].data.stock + d) else rows[i])
  }

  /** A missing article leaves the table exactly as it was. */
  lemma AdjustAbsent(rows: seq<Articulo>, id: Uuid, d: int)
    requires !HasId(rows, id)
    ensures Adjust(rows, id, d) == rows
  {
    var r := Adjust(rows, id, d);
    forall i | 0 <= i < |rows| ensures r[i] == rows[i] {
      assert rows[i].id != id;
    }
  }

  /** Adding `c` and then subtracting `c` from the same article restores the table. */
  lemma AdjustInverse(rows: seq<Articulo>, id: Uuid, c: int)
    ensures Adjust(Adjust(rows, id, c), id, -c) == rows
  {
    var r := Adjust(Adjust(rows, id, c), id, -c);
    forall i | 0 <= i < |rows| ensures r[i] == rows[i] {
      assert Adjust(rows, id, c)[i].id == rows[i].id;
    }
  }

  /** `Adjust` keeps every id where it was, so it keeps ids unique. */
  lemma AdjustKeepsIds(rows: seq<Articulo>, id: Uuid, d: int)
    ensures forall i :: 0 <= i < |rows| ==> Adjust(rows, id, d)[i].id == rows[i].id
    ensures UniqueIds(rows) ==> UniqueIds(Adjust(rows, id, d))
  {
    var r := Adjust(rows, id, d);
    assert forall i :: 0 <= i < |rows| ==> r[i].id == rows[i].id;
  }

  /** Seen through a lookup by id, a stored article's stock is its old stock plus `d`. */
  lemma AdjustObserved(rows: seq<Articulo>, k: nat, d: int)
    requires UniqueIds(rows) && k < |rows|
    ensures UniqueIds(Adjust(rows, rows[k].id, d))
    ensures Find(Adjust(rows, rows[k].id, d), rows[k].id) == Some(WithStock(rows[k], rows[k].data.stock + d))
  {
    AdjustKeepsIds(rows, rows[k].id, d);
    FindAt(Adjust(rows, rows[k].id, d), k);
  }

  /** `aumentarStock`: read the article, write back its stock plus `cantidad`; a missing id is skipped. */
  method AumentarStock(articulos: Table<ArticuloData>, articuloId: Uuid, cantidad: int)
    requires articulos.Valid()
    modifies articulos
    ensures articulos.Valid()
    ensures articulos.rows == Adjust(old(articulos.rows), articuloId, cantidad)
  {
    WriteStock(articulos, articuloId, cantidad);
  }

  /** `disminuirStock`: read the article, write back its stock minus `cantidad`; a missing id is skipped. */
  method DisminuirStock(articulos: Table<ArticuloData>, articuloId: Uuid, cantidad: int)
    requires articulos.Valid()
    modifies articulos
    ensures articulos.Valid()
    ensures articulos.rows == Adjust(old(articulos.rows), articuloId, -cantidad)
  {
    WriteStock(articulos, articuloId, -cantidad);
  }

  /**
   * The `update` a primitive issues, writing `stock` alone on the article it
   * read, is `Adjust` by the difference between the new and the old stock.
   */
  lemma UpdateIsAdjust(rows: seq<Articulo>, k: nat, d: int, f: Articulo -> Articulo)
    requires UniqueIds(rows) && k < |rows|
    requires f(rows[k]) == WithStock(rows[k], rows[k].data.stock + d)
    ensures UpdateWhere(rows, rows[k].id, f) == Adjust(rows, rows[k].id, d)
  {
    var u := UpdateWhere(rows, rows[k].id, f);
    var a := Adjust(rows, rows[k].id, d);
    forall i | 0 <= i < |rows| ensures u[i] == a[i] {
      if rows[i].id == rows[k].id {
        assert i == k;
      }
    }
  }

  /** The read-modify-write both primitives perform: `findUnique`, then `update` of `stock` alone. */
  method WriteStock(articulos: Table<ArticuloData>, articuloId: Uuid, d: int)
    requires articulos.Valid()
    modifies articulos
    ensures articulos.Valid()
    ensures articulos.rows == Adjust(old(articulos.rows), articuloId, d)
  {
    var articulo := Find(articulos.rows, articuloId);
    if articulo.Some? {
      ghost var before := articulos.rows;
      ghost var k :| 0 <= k < |before| && before[k] == articulo.value;
      var nuevoStock := articulo.value.data.stock + d;
      var escribir := (a: Articulo) => WithStock(a, nuevoStock);
      UpdateIsAdjust(before, k, d, escribir);
      var _ := articulos.Update(articuloId, escribir);
    } else {
      AdjustAbsent(articulos.rows, articuloId, d);
    }
  }

  /** Whether a handler's loop calls `aumentarStock` (receipts) or `disminuirStock` (sales, and receipt deactivation). */
  datatype Direction = Up | Down

  function Signed(dir: Direction, n: int): int {
    if dir == Up then n else -n
  }

  /** The units of article `id` over a list of line items. */
  function SumFor(lines: seq<Detalle>, id: Uuid): int {
    if |lines| == 0 then 0
    else
      var last := lines[|lines| - 1];
      SumFor(lines[..|lines| - 1], id) + (if last.articulo == id then last.cantidad else 0)
  }

  /** The article rows after the loop `for (const detalle of detalles)` has run the primitive once per line, in order. */
  function ApplyLines(rows: seq<Articulo>, lines: seq<Detalle>, dir: Direction): (r: seq<Articulo>)
    ensures |r| == |rows|
  {
    if |lines| == 0 then rows
    else
      var last := lines[|lines| - 1];
      Adjust(ApplyLines(rows, lines[..|lines| - 1], dir), last.articulo, Signed(dir, last.cantidad))
  }

  /** One more line of the loop: the first `i + 1` lines are the first `i` followed by one stock write. */
  lemma ApplyLinesStep(rows: seq<Articulo>, lines: seq<Detalle>, i: nat, dir: Direction)
    requires i < |lines|
    ensures ApplyLines(rows, lines[..i + 1], dir) ==
            Adjust(ApplyLines(rows, lines[..i], dir), lines[i].articulo, Signed(dir, lines[i].cantidad))
  {
    assert lines[..i + 1][..i] == lines[..i];
  }

  /**
   * The loop every receipt and sale handler runs over its line items: one
   * `aumentarStock` (`Up`) or `disminuirStock` (`Down`) per line, in order.
   */
  method AplicarLineas(articulos: Table<ArticuloData>, detalles: seq<Detalle>, dir: Direction)
    requires articulos.Valid()
    modifies articulos
    ensures articulos.Valid()
    ensures articulos.rows == ApplyLines(old(articulos.rows), detalles, dir)
  {
    for i := 0 to |detalles|
      invariant articulos.Valid()
      invariant articulos.rows == ApplyLines(old(articulos.rows), detalles[..i], dir)
    {
      ApplyLinesStep(old(articulos.rows), detalles, i, dir);
      if dir == Up {
        AumentarStock(articulos, detalles[i].articulo, detalles[i].cantidad);
      } else {
        DisminuirStock(articulos, detalles[i].articulo, detalles[i].cantidad);
      }
    }
    assert detalles[..|detalles|] == detalles;
  }

  /**
   * Net effect of the loop: every article's stock moves by the signed sum of the
   * quantities of the lines naming it, and nothing else about any article changes.
   */
  lemma {:induction false} ApplyLinesNet(rows: seq<Articulo>, lines: seq<Detalle>, dir: Direction)
    ensures forall i :: 0 <= i < |rows| ==>
              ApplyLines(rows, lines, dir)[i] == WithStock(rows[i], rows[i].data.stock + Signed(dir, SumFor(lines, rows[i].id)))
  {
    if |lines| > 0 {
      ApplyLinesNet(rows, lines[..|lines| - 1], dir);
    }
  }

  /** The loop keeps every id where it was, so it keeps the article table valid. */
  lemma ApplyLinesKeepsIds(rows: seq<Articulo>, lines: seq<Detalle>, dir: Direction)
    ensures forall i :: 0 <= i < |rows| ==> ApplyLines(rows, lines, dir)[i].id == rows[i].id
    ensures UniqueIds(rows) ==> UniqueIds(ApplyLines(rows, lines, dir))
  {
    ApplyLinesNet(rows, lines, dir);
  }

  lemma {:induction false} SumForAppend(a: seq<Detalle>, b: seq<Detalle>, id: Uuid)
    ensures SumFor(a + b, id) == SumFor(a, id) + SumFor(b, id)
  {
    if |b| > 0 {
      assert (a + b)[..|a + b| - 1] == a + b[..|b| - 1];
      SumForAppend(a, b[..|b| - 1], id);
    } else {
      assert a + b == a;
    }
  }

  lemma {:induction false} SumForUnreferenced(lines: seq<Detalle>, id: Uuid)
    requires forall k :: 0 <= k < |lines| ==> lines[k].articulo != id
    ensures SumFor(lines, id) == 0
  {
    if |lines| > 0 {
      SumForUnreferenced(lines[..|lines| - 1], id);
    }
  }

  /** An article that no line names comes out of the loop unchanged. */
  lemma UnreferencedUntouched(rows: seq<Articulo>, lines: seq<Detalle>, dir: Direction, i: nat)
    requires i < |rows|
    requires forall k :: 0 <= k < |lines| ==> lines[k].articulo != rows[i].id
    ensures ApplyLines(rows, lines, dir)[i] == rows[i]
  {
    ApplyLinesNet(rows, lines, dir);
    SumForUnreferenced(lines, rows[i].id);
  }

  /**
   * A line naming an article that is not in the table is skipped and the loop
   * goes on: the outcome is the same as if that line were not there.
   */
  lemma MissingArticleSkipped(rows: seq<Articulo>, before: seq<Detalle>, line: Detalle, after: seq<Detalle>, dir: Direction)
    requires !HasId(rows, line.articulo)
    ensures ApplyLines(rows, before + [line] + after, dir) == ApplyLines(rows, before + after, dir)
  {
    var withLine := ApplyLines(rows, before + [line] + after, dir);
    var without := ApplyLines(rows, before + after, dir);
    ApplyLinesNet(rows, before + [line] + after, dir);
    ApplyLinesNet(rows, before + after, dir);
    forall i | 0 <= i < |rows| ensures withLine[i] == without[i] {
      var id := rows[i].id;
      assert id != line.articulo;
      SumForAppend(before + [line], after, id);
      SumForAppend(before, [line], id);
      SumForAppend(before, after, id);
      assert SumFor([line], id) == 0 by {
        assert [line][..0] == [];
      }
    }
  }
}
