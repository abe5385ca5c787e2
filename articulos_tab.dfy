/**
  The article tab as the writers see it: the six cells `A:F` an article is written as,
  how such a row reads back, what appending, rewriting and deleting one row does to the
  list `getArticulos` shows, and how the writers' row lookup relates to that list.
 */
module ArticulosTab {
  import opened Wrappers
  import opened Text
  import opened SheetTable
  import opened Records

  /** `ArticuloNuevo`: the description may be missing. */
  datatype ArticuloNuevo = ArticuloNuevo(
    codbarra: string,
    idarticulo: string,
    nombre: string,
    descripcion: Option<string>,
    precio: int,
    stock: int)

  /** The cells `A:F` an article is written as by `insertarArticulo` and `actualizarArticulo`. */
  function ArticuloValues(a: ArticuloNuevo): (r: Row)
    ensures |r| == 6 && r[0] == a.codbarra && r[1] == a.idarticulo && r[2] == a.nombre
  {
    [a.codbarra, a.idarticulo, a.nombre, OptionalCell(a.descripcion), IntToString(a.precio), IntToString(a.stock)]
  }

  /** The layout the article writers rely on: the first six columns are the fields, in order. */
  predicate ArticuloLayout(c: ArticuloColumns) {
    c.codbarra == 0 && c.id == 1 && c.nombre == 2 && c.descripcion == 3 && c.precio == 4 && c.stock == 5
    && (c.categoria < 0 || c.categoria >= 6)
  }

  predicate ArticuloTrimmed(a: ArticuloNuevo) {
    Trim(a.codbarra) == a.codbarra && Trim(a.idarticulo) == a.idarticulo && Trim(a.nombre) == a.nombre
    && TrimmedOptional(a.descripcion)
  }

  /**
    The article a reader sees in a row the writers filled with `a`: a missing description
    was written as an empty cell, and the category is whatever the row held beyond `F`.
   */
  function ArticuloLeido(a: ArticuloNuevo, categoria: Option<string>): Articulo {
    Articulo(a.codbarra, a.idarticulo, a.nombre, Some(OptionalCell(a.descripcion)), a.precio, a.stock, categoria)
  }

  /** The category a reader takes from a row: the cell of the category column, if there is one. */
  function CategoriaOf(c: ArticuloColumns, row: Row): Option<string> {
    if c.categoria >= 0 then Some(Cell(row, c.categoria)) else None
  }

  /**
    Round trip: in the layout the writers rely on, a row that starts with an article's
    cells reads back as that article, numbers included.
   */
  lemma {:induction false} ArticuloReadBack(c: ArticuloColumns, a: ArticuloNuevo, row: Row)
    requires ArticuloLayout(c) && ArticuloTrimmed(a)
    requires |row| >= 6 && row[..6] == ArticuloValues(a)
    ensures ParseArticulo(c, row) == ArticuloLeido(a, CategoriaOf(c, row))
  {
    var v := ArticuloValues(a);
    assert forall j :: 0 <= j < 6 ==> row[j] == v[j];
    assert Trim("") == "";
    NumAfterWrite(a.precio);
    NumAfterWrite(a.stock);
  }

  /** A freshly appended row holds nothing beyond `F`: its category, if read, is empty. */
  lemma {:induction false} ArticuloValuesCategoria(c: ArticuloColumns, a: ArticuloNuevo)
    requires ArticuloLayout(c)
    ensures CategoriaOf(c, ArticuloValues(a)) == if c.categoria >= 0 then Some("") else None
  {
  }

  /** A header row is present: appending a row adds one article at the end and leaves the others. */
  lemma {:induction false} AppendedArticulo(tab: Table, row: Row)
    requires |tab| >= 1
    ensures ParseArticulos(tab + [row]) == ParseArticulos(tab) + [ParseArticulo(ArticuloCols(Headers(tab)), row)]
  {
    var c := ArticuloCols(Headers(tab));
    assert (tab + [row])[0] == tab[0];
    assert Headers(tab + [row]) == Headers(tab);
    if |tab| == 1 {
      assert (tab + [row])[1..] == [row];
    } else {
      assert (tab + [row])[1..] == tab[1..] + [row];
      ParseWithAppend(c, tab[1..], row);
    }
  }

  lemma {:induction false} ParseWithAppend(c: ArticuloColumns, rows: seq<Row>, row: Row)
    ensures ParseArticulosWith(c, rows + [row]) == ParseArticulosWith(c, rows) + [ParseArticulo(c, row)]
  {
  }

  /**
    `actualizarArticulo` seen through `getArticulos`: writing an article's cells over data
    row `r` replaces exactly the article listed from that row; its category, beyond `F`, is
    kept.
   */
  lemma {:induction false} ArticuloRowRewritten(tab: Table, k: nat, a: ArticuloNuevo)
    requires k + 1 < |tab| && ArticuloLayout(ArticuloCols(Headers(tab))) && ArticuloTrimmed(a)
    ensures k < |ParseArticulos(tab)|
    ensures ParseArticulos(tab[k + 1 := WriteRange(tab[k + 1], ArticuloValues(a))])
            == ParseArticulos(tab)[k := ArticuloLeido(a, ParseArticulos(tab)[k].categoria)]
  {
    var c := ArticuloCols(Headers(tab));
    var row := WriteRange(tab[k + 1], ArticuloValues(a));
    ArticulosAfterRowUpdate(tab, k, row);
    ArticuloReadBack(c, a, row);
    ArticuloOfRow(tab, k);
    CategoriaKept(c, tab[k + 1], ArticuloValues(a));
  }

  /** A write of the cells `A:F` leaves the category, read beyond `F`, as it was. */
  lemma {:induction false} CategoriaKept(c: ArticuloColumns, row: Row, values: Row)
    requires ArticuloLayout(c) && |values| == 6
    ensures CategoriaOf(c, WriteRange(row, values)) == CategoriaOf(c, row)
  {
  }

  /**
    `insertarArticulo` seen through `getArticulos`: in the layout the writers rely on, the
    article appended is listed last, as given, with an empty category if the tab has one.
   */
  lemma {:induction false} InsertedArticuloListed(tab: Table, a: ArticuloNuevo)
    requires |tab| >= 1 && ArticuloLayout(ArticuloCols(Headers(tab))) && ArticuloTrimmed(a)
    ensures var c := ArticuloCols(Headers(tab));
            ParseArticulos(tab + [ArticuloValues(a)])
            == ParseArticulos(tab) + [ArticuloLeido(a, if c.categoria >= 0 then Some("") else None)]
  {
    var c := ArticuloCols(Headers(tab));
    var row := ArticuloValues(a);
    AppendedArticulo(tab, row);
    ArticuloReadBack(c, a, row);
    ArticuloValuesCategoria(c, a);
  }

  /** Deleting a data row removes exactly the article read from it; the others keep their order. */
  lemma {:induction false} ArticulosAfterRemoval(tab: Table, r: nat)
    requires 1 <= r < |tab|
    ensures ParseArticulos(RemoveRow(tab, r)) == ParseArticulos(tab)[..r - 1] + ParseArticulos(tab)[r..]
  {
    DataRowsRemoved(tab, r);
    ArticulosWithSpliced(ArticuloCols(Headers(tab)), tab[1..], r - 1);
  }

  /** The ids of a list of articles. */
  function ArticuloIds(arts: seq<Articulo>): (ids: seq<string>)
    ensures |ids| == |arts| && forall j :: 0 <= j < |arts| ==> ids[j] == arts[j].idarticulo
  {
    if arts == [] then [] else [arts[0].idarticulo] + ArticuloIds(arts[1..])
  }

  /**
    The lookup of `actualizarArticulo` and `eliminarArticulo` agrees with `getArticulos`:
    when the header names an id column the reader knows, the lookup succeeds exactly when
    an article is listed under the key, and on the row of the first one.
   */
  lemma {:induction false} LocateArticuloFindsListed(tab: Table, key: string)
    requires ArticuloCols(Headers(tab)).id >= 0
    ensures var r := LocateById(tab, ARTICULO_ID_WRITE_ALIASES, key, ARTICULO_NO_ENCONTRADO);
            var arts := ParseArticulos(tab);
            (r.Success? <==> ArticuloExiste(arts, key))
            && (r.Success? ==> r.value == FindArticulo(arts, key) + 1)
  {
    var arts := ParseArticulos(tab);
    HeaderIndexPrefix(Headers(tab), ARTICULO_ID_ALIASES, ["id articulo", "codigo", "c\U{F3}digo"]);
    ArticuloIdsAreCells(tab);
    LocateByIdMatchesList(tab, ARTICULO_ID_WRITE_ALIASES, key, ARTICULO_NO_ENCONTRADO, ArticuloIds(arts));
    ArticuloExisteIffFound(arts, key);
  }

  /**
    With an id column, deleting the row the writers find for an existing article removes
    exactly the article `articuloExiste` found.
   */
  lemma {:induction false} ArticuloEliminado(tab: Table, key: string)
    requires ArticuloCols(Headers(tab)).id >= 0
    requires LocateById(tab, ARTICULO_ID_WRITE_ALIASES, key, ARTICULO_NO_ENCONTRADO).Success?
    ensures var r := LocateById(tab, ARTICULO_ID_WRITE_ALIASES, key, ARTICULO_NO_ENCONTRADO).value;
            var arts := ParseArticulos(tab);
            var k := FindArticulo(arts, key);
            1 <= r < |tab| && r == k + 1 && 0 <= k < |arts|
            && ParseArticulos(RemoveRow(tab, r)) == arts[..k] + arts[k + 1..]
  {
    var r := LocateById(tab, ARTICULO_ID_WRITE_ALIASES, key, ARTICULO_NO_ENCONTRADO).value;
    LocateArticuloFindsListed(tab, key);
    ArticulosAfterRemoval(tab, r);
  }

  /** Each listed article id is the id cell of its data row. */
  lemma {:induction false} ArticuloIdsAreCells(tab: Table)
    requires ArticuloCols(Headers(tab)).id >= 0
    ensures var ids := ArticuloIds(ParseArticulos(tab));
            |ids| == |tab| - 1
            && forall k :: 0 <= k < |ids| ==> ids[k] == Cell(tab[k + 1], ArticuloCols(Headers(tab)).id)
  {
    var ids := ArticuloIds(ParseArticulos(tab));
    assert |tab| >= 1;
    forall k | 0 <= k < |ids|
      ensures ids[k] == Cell(tab[k + 1], ArticuloCols(Headers(tab)).id)
    {
      ArticuloOfRow(tab, k);
    }
  }

  /**
    An article appended under an id no listed article has is found afterwards, as the
    last article.
   */
  lemma {:induction false} InsertedArticuloFound(tab: Table, a: ArticuloNuevo)
    requires |tab| >= 1 && ArticuloLayout(ArticuloCols(Headers(tab))) && ArticuloTrimmed(a)
    requires !ArticuloExiste(ParseArticulos(tab), a.idarticulo)
    ensures FindArticulo(ParseArticulos(tab + [ArticuloValues(a)]), a.idarticulo) == |ParseArticulos(tab)|
  {
    var c := ArticuloCols(Headers(tab));
    var row := ArticuloValues(a);
    AppendedArticulo(tab, row);
    assert ParseArticulo(c, row).idarticulo == Cell(row, 1) == a.idarticulo;
    var before := ParseArticulos(tab);
    var after := ParseArticulos(tab + [row]);
    assert after[|before|].idarticulo == a.idarticulo;
    assert forall k :: 0 <= k < |before| ==> after[k] == before[k];
  }
}
