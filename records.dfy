/**
  The records each tab holds and how a row of cells is read into one: the column of every
  field is resolved from the header row by its aliases, cells are read trimmed, numbers
  fall back to 0 and optional text fields are absent when their column is.
 */
module Records {
  import opened Wrappers
  import opened Text
  import opened SheetTable

  // ---------------------------------------------------------------------------
  // Header aliases

  const CODBARRA_ALIASES: seq<string> := ["codbarra", "cod barra"]
  /** The id aliases the article reader accepts. */
  const ARTICULO_ID_ALIASES: seq<string> := ["id", "idarticulo", "id art\U{ED}culo"]
  /** The id aliases the article writers accept: the reader's, then three more. */
  const ARTICULO_ID_WRITE_ALIASES: seq<string> := ARTICULO_ID_ALIASES + ["id articulo", "codigo", "c\U{F3}digo"]
  const NOMBRE_ALIASES: seq<string> := ["nombre"]
  const DESCRIPCION_ALIASES: seq<string> := ["descripcion", "descripci\U{F3}n"]
  const PRECIO_ALIASES: seq<string> := ["precio"]
  const STOCK_ALIASES: seq<string> := ["stock", "existencia", "inventario"]
  const CATEGORIA_ALIASES: seq<string> := ["categoria", "categor\U{ED}a"]

  const PROVEEDOR_ID_ALIASES: seq<string> := ["id", "idproveedor", "id proveedor", "codigo", "c\U{F3}digo"]
  const CLIENTE_ID_ALIASES: seq<string> := ["id", "idcliente", "id cliente", "codigo", "c\U{F3}digo"]
  const TELEFONO_ALIASES: seq<string> := ["telefono", "tel\U{E9}fono", "phone"]
  const EMAIL_ALIASES: seq<string> := ["email", "correo", "e-mail"]
  const DIRECCION_ALIASES: seq<string> := ["direccion", "direcci\U{F3}n", "dir", "address"]
  const CONTACTO_ALIASES: seq<string> := ["contacto", "persona contacto"]
  const FECHA_CREACION_ALIASES: seq<string> :=
    ["fechacreacion", "fecha creacion", "fecha_creacion", "fecha alta", "fecha", "fechacrea", "creado", "created"]
  /** The column `fechaCreacion` is read from when no header names it. */
  const FECHA_CREACION_DEFAULT: nat := 5

  const IDCOMPRA_ALIASES: seq<string> := ["idcompra", "id compra"]
  const FECHA_ALIASES: seq<string> := ["fecha"]
  const PROVEEDOR_ALIASES: seq<string> := ["proveedor"]
  const COMPRA_IDARTICULO_ALIASES: seq<string> := ["idarticulo", "id articulo", "articuloid"]
  const COMPRA_ARTICULO_ALIASES: seq<string> := ["articulo", "nombre", "articulonombre"]
  const CANTIDAD_ALIASES: seq<string> := ["cantidad"]
  const COMPRA_PRECIO_ALIASES: seq<string> := ["precio", "preciounitario"]

  const ARTICULO_NO_ENCONTRADO: string := "Art\U{ED}culo no encontrado"

  /**
    No header can name two of the article fields: the stock, price and category alias
    lists share no alias with any other field's list.
   */
  lemma {:induction false} ArticuloAliasesDisjoint()
    ensures Disjoint(STOCK_ALIASES, CODBARRA_ALIASES) && Disjoint(STOCK_ALIASES, ARTICULO_ID_ALIASES)
    ensures Disjoint(STOCK_ALIASES, NOMBRE_ALIASES) && Disjoint(STOCK_ALIASES, DESCRIPCION_ALIASES)
    ensures Disjoint(STOCK_ALIASES, CATEGORIA_ALIASES) && Disjoint(STOCK_ALIASES, PRECIO_ALIASES)
    ensures Disjoint(PRECIO_ALIASES, CODBARRA_ALIASES) && Disjoint(PRECIO_ALIASES, ARTICULO_ID_ALIASES)
    ensures Disjoint(PRECIO_ALIASES, NOMBRE_ALIASES) && Disjoint(PRECIO_ALIASES, DESCRIPCION_ALIASES)
    ensures Disjoint(PRECIO_ALIASES, CATEGORIA_ALIASES) && Disjoint(PRECIO_ALIASES, STOCK_ALIASES)
    ensures Disjoint(CATEGORIA_ALIASES, CODBARRA_ALIASES) && Disjoint(CATEGORIA_ALIASES, ARTICULO_ID_ALIASES)
    ensures Disjoint(CATEGORIA_ALIASES, NOMBRE_ALIASES) && Disjoint(CATEGORIA_ALIASES, DESCRIPCION_ALIASES)
  {
  }

  lemma {:induction false} ArticuloAliasesLowerCase()
    ensures LowerCase(CODBARRA_ALIASES) && LowerCase(ARTICULO_ID_ALIASES) && LowerCase(NOMBRE_ALIASES)
    ensures LowerCase(DESCRIPCION_ALIASES)
  {
    assert Lower("codbarra") == "codbarra";
    assert Lower("cod barra") == "cod barra";
    assert Lower("id") == "id";
    assert Lower("idarticulo") == "idarticulo";
    assert Lower("id art\U{ED}culo") == "id art\U{ED}culo";
    assert Lower("nombre") == "nombre";
    assert Lower("descripcion") == "descripcion";
    assert Lower("descripci\U{F3}n") == "descripci\U{F3}n";
  }

  lemma {:induction false} ArticuloValueAliasesLowerCase()
    ensures LowerCase(PRECIO_ALIASES) && LowerCase(STOCK_ALIASES) && LowerCase(CATEGORIA_ALIASES)
  {
    assert Lower("precio") == "precio";
    assert Lower("stock") == "stock";
    assert Lower("existencia") == "existencia";
    assert Lower("inventario") == "inventario";
    assert Lower("categoria") == "categoria";
    assert Lower("categor\U{ED}a") == "categor\U{ED}a";
  }

  lemma {:induction false} ArticuloWriteAliasesLowerCase()
    ensures LowerCase(ARTICULO_ID_WRITE_ALIASES)
  {
    ArticuloAliasesLowerCase();
    assert Lower("id articulo") == "id articulo";
    assert Lower("codigo") == "codigo";
    assert Lower("c\U{F3}digo") == "c\U{F3}digo";
  }

  lemma {:induction false} ProveedorAliasesLowerCase()
    ensures LowerCase(PROVEEDOR_ID_ALIASES) && LowerCase(TELEFONO_ALIASES) && LowerCase(EMAIL_ALIASES)
  {
    assert Lower("id") == "id";
    assert Lower("idproveedor") == "idproveedor";
    assert Lower("id proveedor") == "id proveedor";
    assert Lower("codigo") == "codigo";
    assert Lower("c\U{F3}digo") == "c\U{F3}digo";
    assert Lower("telefono") == "telefono";
    assert Lower("tel\U{E9}fono") == "tel\U{E9}fono";
    assert Lower("phone") == "phone";
    assert Lower("email") == "email";
    assert Lower("correo") == "correo";
    assert Lower("e-mail") == "e-mail";
  }

  lemma {:induction false} ContactoAliasesLowerCase()
    ensures LowerCase(DIRECCION_ALIASES) && LowerCase(CONTACTO_ALIASES)
  {
    assert Lower("direccion") == "direccion";
    assert Lower("direcci\U{F3}n") == "direcci\U{F3}n";
    assert Lower("dir") == "dir";
    assert Lower("address") == "address";
    assert Lower("contacto") == "contacto";
    assert Lower("persona contacto") == "persona contacto";
  }

  lemma {:induction false} ClienteAliasesLowerCase()
    ensures LowerCase(CLIENTE_ID_ALIASES)
  {
    assert Lower("id") == "id";
    assert Lower("idcliente") == "idcliente";
    assert Lower("id cliente") == "id cliente";
    assert Lower("codigo") == "codigo";
    assert Lower("c\U{F3}digo") == "c\U{F3}digo";
  }

  lemma {:induction false} FechaCreacionAliasesLowerCase()
    ensures LowerCase(FECHA_CREACION_ALIASES)
  {
    assert Lower("fechacreacion") == "fechacreacion";
    assert Lower("fecha creacion") == "fecha creacion";
    assert Lower("fecha_creacion") == "fecha_creacion";
    assert Lower("fecha alta") == "fecha alta";
    assert Lower("fecha") == "fecha";
    assert Lower("fechacrea") == "fechacrea";
    assert Lower("creado") == "creado";
    assert Lower("created") == "created";
  }

  lemma {:induction false} CompraAliasesLowerCase()
    ensures LowerCase(IDCOMPRA_ALIASES) && LowerCase(FECHA_ALIASES) && LowerCase(PROVEEDOR_ALIASES)
    ensures LowerCase(COMPRA_IDARTICULO_ALIASES)
  {
    assert Lower("idcompra") == "idcompra";
    assert Lower("id compra") == "id compra";
    assert Lower("fecha") == "fecha";
    assert Lower("proveedor") == "proveedor";
    assert Lower("idarticulo") == "idarticulo";
    assert Lower("id articulo") == "id articulo";
    assert Lower("articuloid") == "articuloid";
  }

  lemma {:induction false} CompraValueAliasesLowerCase()
    ensures LowerCase(COMPRA_ARTICULO_ALIASES) && LowerCase(CANTIDAD_ALIASES) && LowerCase(COMPRA_PRECIO_ALIASES)
  {
    assert Lower("articulo") == "articulo";
    assert Lower("nombre") == "nombre";
    assert Lower("articulonombre") == "articulonombre";
    assert Lower("cantidad") == "cantidad";
    assert Lower("precio") == "precio";
    assert Lower("preciounitario") == "preciounitario";
  }

  /** The keys of the ventas lookup are in lower case as well. */
  lemma {:induction false} VentaKeysLowerCase()
    ensures LowerCase(["idventa", "fecha", "idarticulo", "articuloid", "nombre", "articulonombre",
                       "cantidad", "preciounitario", "precio", "total"])
  {
    assert Lower("idventa") == "idventa";
    assert Lower("fecha") == "fecha";
    assert Lower("idarticulo") == "idarticulo";
    assert Lower("articuloid") == "articuloid";
    assert Lower("nombre") == "nombre";
    assert Lower("articulonombre") == "articulonombre";
    assert Lower("cantidad") == "cantidad";
    assert Lower("preciounitario") == "preciounitario";
    assert Lower("precio") == "precio";
    assert Lower("total") == "total";
  }

  // ---------------------------------------------------------------------------
  // Cells as values

  /** `getNum`: `parseFloat` of the trimmed cell, 0 when it is not a number. */
  function Num(cell: string): int {
    NumOrZero(ParseInt(cell))
  }

  /** `idx >= 0 ? get(idx) || undefined : undefined` */
  function OptCell(row: Row, i: int): (r: Option<string>)
    ensures r.Some? <==> i >= 0 && Cell(row, i) != ""
    ensures r.Some? ==> r.value == Cell(row, i)
  {
    if i >= 0 && Cell(row, i) != "" then Some(Cell(row, i)) else None
  }

  /**
    What a reader makes of an optional field a writer put in a cell (`x ?? ''`): a
    missing or empty value comes back missing.
   */
  function ReadOptional(x: Option<string>): (r: Option<string>)
    ensures r.Some? <==> x.Some? && x.value != ""
    ensures r.Some? ==> r == x
  {
    if x.Some? && x.value != "" then x else None
  }

  predicate TrimmedOptional(x: Option<string>) {
    x.Some? ==> Trim(x.value) == x.value
  }

  /** A cell written with an optional trimmed value reads back as `ReadOptional` of it. */
  lemma {:induction false} OptionalCellReadBack(row: Row, i: nat, x: Option<string>)
    requires i < |row| && i < READ_WIDTH && row[i] == OptionalCell(x) && TrimmedOptional(x)
    ensures OptCell(row, i) == ReadOptional(x)
  {
    assert Trim("") == "";
  }

  /** Case-insensitive comparison of trimmed keys: `a.trim().toLowerCase() === b.trim().toLowerCase()`. */
  predicate SameKey(a: string, b: string) {
    Lower(Trim(a)) == Lower(Trim(b))
  }

  /** A key that matches something non-blank is itself non-blank. */
  lemma {:induction false} SameKeyBlank(a: string, b: string)
    requires SameKey(a, b)
    ensures IsBlank(a) <==> IsBlank(b)
  {
  }

  /**
    The writers' row lookup agrees with the list a reader shows when the reader takes
    record `k`'s id from the same column of data row `k + 1`: the lookup succeeds exactly
    when some listed id matches the key, and it lands on the first such record.
   */
  lemma {:induction false} LocateByIdMatchesList(tab: Table, aliases: seq<string>, key: string, notFound: string, ids: seq<string>)
    requires HeaderIndex(Headers(tab), aliases) >= 0 && |ids| == |tab| - 1
    requires forall k :: 0 <= k < |ids| ==> ids[k] == Cell(tab[k + 1], HeaderIndex(Headers(tab), aliases))
    ensures var r := LocateById(tab, aliases, key, notFound);
            (r.Success? <==> exists k :: 0 <= k < |ids| && SameKey(ids[k], key))
            && (r.Success? ==> SameKey(ids[r.value - 1], key) && forall k :: 0 <= k < r.value - 1 ==> !SameKey(ids[k], key))
  {
    var col := HeaderIndex(Headers(tab), aliases);
    if |tab| >= 2 {
      FindRowMatchesList(tab, col, key, ids);
    }
  }

  /** The first data row whose cell in `col` matches the key holds the first matching listed id. */
  lemma {:induction false} FindRowMatchesList(tab: Table, col: int, key: string, ids: seq<string>)
    requires |tab| >= 1 && |ids| == |tab| - 1
    requires forall k :: 0 <= k < |ids| ==> ids[k] == Cell(tab[k + 1], col)
    ensures var i := FindRow(tab, col, key);
            (i >= 1 <==> exists k :: 0 <= k < |ids| && SameKey(ids[k], key))
            && (i >= 1 ==> SameKey(ids[i - 1], key) && forall k :: 0 <= k < i - 1 ==> !SameKey(ids[k], key))
  {
    forall k | 0 <= k < |ids|
      ensures SameKey(ids[k], key) <==> Lower(Cell(tab[k + 1], col)) == Lower(Trim(key))
    {
      CellTrimmed(tab[k + 1], col);
    }
    var i := FindRow(tab, col, key);
    if exists k :: 0 <= k < |ids| && SameKey(ids[k], key) {
      var k :| 0 <= k < |ids| && SameKey(ids[k], key);
      assert Lower(Cell(tab[k + 1], col)) == Lower(Trim(key));
    }
    if i >= 1 {
      assert SameKey(ids[i - 1], key);
    }
  }

  // ---------------------------------------------------------------------------
  // articulos

  datatype Articulo = Articulo(
    codbarra: string,
    idarticulo: string,
    nombre: string,
    descripcion: Option<string>,
    precio: int,
    stock: int,
    categoria: Option<string>)

  datatype ArticuloColumns = ArticuloColumns(
    codbarra: int, id: int, nombre: int, descripcion: int, precio: int, stock: int, categoria: int)

  function ArticuloCols(headers: Row): ArticuloColumns {
    ArticuloColumns(
      HeaderIndex(headers, CODBARRA_ALIASES),
      HeaderIndex(headers, ARTICULO_ID_ALIASES),
      HeaderIndex(headers, NOMBRE_ALIASES),
      HeaderIndex(headers, DESCRIPCION_ALIASES),
      HeaderIndex(headers, PRECIO_ALIASES),
      HeaderIndex(headers, STOCK_ALIASES),
      HeaderIndex(headers, CATEGORIA_ALIASES))
  }

  function ParseArticulo(cols: ArticuloColumns, row: Row): Articulo {
    Articulo(
      Cell(row, cols.codbarra),
      Cell(row, cols.id),
      Cell(row, cols.nombre),
      if cols.descripcion >= 0 then Some(Cell(row, cols.descripcion)) else None,
      Num(Cell(row, cols.precio)),
      Num(Cell(row, cols.stock)),
      if cols.categoria >= 0 then Some(Cell(row, cols.categoria)) else None)
  }

  /** The data rows read with the given columns, one article per row. */
  function ParseArticulosWith(cols: ArticuloColumns, rows: seq<Row>): (r: seq<Articulo>)
    ensures |r| == |rows|
    ensures forall j :: 0 <= j < |rows| ==> r[j] == ParseArticulo(cols, rows[j])
  {
    if rows == [] then [] else [ParseArticulo(cols, rows[0])] + ParseArticulosWith(cols, rows[1..])
  }

  /** Leaving row `k` out of the rows leaves out the article read from it and keeps the others in order. */
  lemma {:induction false} ArticulosWithSpliced(cols: ArticuloColumns, rows: seq<Row>, k: nat)
    requires k < |rows|
    ensures ParseArticulosWith(cols, rows[..k] + rows[k + 1..]) == ParseArticulosWith(cols, rows)[..k] + ParseArticulosWith(cols, rows)[k + 1..]
  {
    var all := ParseArticulosWith(cols, rows);
    var spliced := rows[..k] + rows[k + 1..];
    var after := ParseArticulosWith(cols, spliced);
    var wanted := all[..k] + all[k + 1..];
    assert |after| == |wanted|;
    forall j | 0 <= j < |after|
      ensures after[j] == wanted[j]
    {
      if j < k {
        assert spliced[j] == rows[j] && wanted[j] == all[j];
      } else {
        assert spliced[j] == rows[j + 1] && wanted[j] == all[j + 1];
      }
    }
    assert after == wanted;
  }

  /** `getArticulos`: one article per data row; nothing without at least one data row. */
  function ParseArticulos(tab: Table): seq<Articulo> {
    if |tab| < 2 then [] else ParseArticulosWith(ArticuloCols(Headers(tab)), tab[1..])
  }

  /** A tab whose header has no stock column reads every stock as 0. */
  lemma {:induction false} StockWithoutColumn(tab: Table)
    requires ArticuloCols(Headers(tab)).stock < 0
    ensures forall k :: 0 <= k < |ParseArticulos(tab)| ==> ParseArticulos(tab)[k].stock == 0
  {
    NumEmpty();
  }

  lemma {:induction false} NumEmpty()
    ensures Num("") == 0
  {
    assert TrimStart("") == "";
    assert DigitRun("") == 0;
  }

  /** Stock and price columns, when present, are distinct from every other article column. */
  lemma {:induction false} ArticuloColsDistinct(headers: Row)
    ensures var c := ArticuloCols(headers);
            c.stock >= 0 ==> c.stock != c.codbarra && c.stock != c.id && c.stock != c.nombre
                             && c.stock != c.descripcion && c.stock != c.categoria && c.stock != c.precio
    ensures var c := ArticuloCols(headers);
            c.precio >= 0 ==> c.precio != c.codbarra && c.precio != c.id && c.precio != c.nombre
                              && c.precio != c.descripcion && c.precio != c.categoria && c.precio != c.stock
    ensures var c := ArticuloCols(headers);
            c.categoria >= 0 ==> c.categoria != c.codbarra && c.categoria != c.id && c.categoria != c.nombre
                                 && c.categoria != c.descripcion
  {
    ArticuloAliasesDisjoint();
    var c := ArticuloCols(headers);
    if c.stock >= 0 {
      DistinctColumns(headers, STOCK_ALIASES, CODBARRA_ALIASES);
      DistinctColumns(headers, STOCK_ALIASES, ARTICULO_ID_ALIASES);
      DistinctColumns(headers, STOCK_ALIASES, NOMBRE_ALIASES);
      DistinctColumns(headers, STOCK_ALIASES, DESCRIPCION_ALIASES);
      DistinctColumns(headers, STOCK_ALIASES, CATEGORIA_ALIASES);
      DistinctColumns(headers, STOCK_ALIASES, PRECIO_ALIASES);
    }
    if c.precio >= 0 {
      DistinctColumns(headers, PRECIO_ALIASES, CODBARRA_ALIASES);
      DistinctColumns(headers, PRECIO_ALIASES, ARTICULO_ID_ALIASES);
      DistinctColumns(headers, PRECIO_ALIASES, NOMBRE_ALIASES);
      DistinctColumns(headers, PRECIO_ALIASES, DESCRIPCION_ALIASES);
      DistinctColumns(headers, PRECIO_ALIASES, CATEGORIA_ALIASES);
      DistinctColumns(headers, PRECIO_ALIASES, STOCK_ALIASES);
    }
    if c.categoria >= 0 {
      DistinctColumns(headers, CATEGORIA_ALIASES, CODBARRA_ALIASES);
      DistinctColumns(headers, CATEGORIA_ALIASES, ARTICULO_ID_ALIASES);
      DistinctColumns(headers, CATEGORIA_ALIASES, NOMBRE_ALIASES);
      DistinctColumns(headers, CATEGORIA_ALIASES, DESCRIPCION_ALIASES);
    }
  }

  /** Writing a number into a cell reads back as that number. */
  lemma {:induction false} NumAfterWrite(n: int)
    ensures Num(Trim(IntToString(n))) == n
  {
    TrimIntToString(n);
    IntToStringRoundTrip(n);
  }

  /** Replacing data row `k + 1` changes the article read from that row, the `k`-th, only. */
  lemma {:induction false} ArticulosAfterRowUpdate(tab: Table, k: nat, row: Row)
    requires k + 1 < |tab|
    ensures ParseArticulos(tab[k + 1 := row]) == ParseArticulos(tab)[k := ParseArticulo(ArticuloCols(Headers(tab)), row)]
  {
    HeadersAfterRowUpdate(tab, k + 1, row);
    TailUpdate(tab, k + 1, row);
    var c := ArticuloCols(Headers(tab));
    assert ParseArticulos(tab[k + 1 := row]) == ParseArticulosWith(c, tab[k + 1 := row][1..]);
    ParseWithUpdate(c, tab[1..], k, row);
  }

  lemma {:induction false} ParseWithUpdate(cols: ArticuloColumns, rows: seq<Row>, i: nat, row: Row)
    requires i < |rows|
    ensures ParseArticulosWith(cols, rows[i := row]) == ParseArticulosWith(cols, rows)[i := ParseArticulo(cols, row)]
  {
  }

  /** The stock column is present, inside the columns read, and no other field is read from it. */
  predicate StockColumnApart(c: ArticuloColumns) {
    0 <= c.stock < READ_WIDTH
    && c.stock != c.codbarra && c.stock != c.id && c.stock != c.nombre
    && c.stock != c.descripcion && c.stock != c.categoria && c.stock != c.precio
  }

  /** The price column is present, inside the columns read, and no other field is read from it. */
  predicate PrecioColumnApart(c: ArticuloColumns) {
    0 <= c.precio < READ_WIDTH
    && c.precio != c.codbarra && c.precio != c.id && c.precio != c.nombre
    && c.precio != c.descripcion && c.precio != c.categoria && c.precio != c.stock
  }

  /** Whatever the headers, a stock or price column that is found stands apart from the others. */
  lemma {:induction false} ColumnsApart(headers: Row)
    requires |headers| <= READ_WIDTH
    ensures ArticuloCols(headers).stock >= 0 ==> StockColumnApart(ArticuloCols(headers))
    ensures ArticuloCols(headers).precio >= 0 ==> PrecioColumnApart(ArticuloCols(headers))
  {
    ArticuloColsDistinct(headers);
  }

  /** Writing a number into the stock cell of a row sets that row's stock and nothing else. */
  lemma {:induction false} ParseArticuloAfterStockWrite(c: ArticuloColumns, row: Row, n: int)
    requires StockColumnApart(c)
    ensures ParseArticulo(c, SetCell(row, c.stock, IntToString(n))) == ParseArticulo(c, row).(stock := n)
  {
    var v := IntToString(n);
    CellAfterSet(row, c.stock, v, c.codbarra);
    CellAfterSet(row, c.stock, v, c.id);
    CellAfterSet(row, c.stock, v, c.nombre);
    CellAfterSet(row, c.stock, v, c.descripcion);
    CellAfterSet(row, c.stock, v, c.precio);
    CellAfterSet(row, c.stock, v, c.stock);
    CellAfterSet(row, c.stock, v, c.categoria);
    NumAfterWrite(n);
  }

  /** Writing a number into the price cell of a row sets that row's price and nothing else. */
  lemma {:induction false} ParseArticuloAfterPrecioWrite(c: ArticuloColumns, row: Row, n: int)
    requires PrecioColumnApart(c)
    ensures ParseArticulo(c, SetCell(row, c.precio, IntToString(n))) == ParseArticulo(c, row).(precio := n)
  {
    var v := IntToString(n);
    CellAfterSet(row, c.precio, v, c.codbarra);
    CellAfterSet(row, c.precio, v, c.id);
    CellAfterSet(row, c.precio, v, c.nombre);
    CellAfterSet(row, c.precio, v, c.descripcion);
    CellAfterSet(row, c.precio, v, c.precio);
    CellAfterSet(row, c.precio, v, c.stock);
    CellAfterSet(row, c.precio, v, c.categoria);
    NumAfterWrite(n);
  }

  /** Writing a price and then a stock into a row sets that row's price and stock and nothing else. */
  lemma {:induction false} ParseArticuloAfterPrecioStockWrite(c: ArticuloColumns, row: Row, p: int, n: int)
    requires PrecioColumnApart(c) && StockColumnApart(c)
    ensures ParseArticulo(c, SetCell(SetCell(row, c.precio, IntToString(p)), c.stock, IntToString(n)))
            == ParseArticulo(c, row).(precio := p, stock := n)
  {
    var row1 := SetCell(row, c.precio, IntToString(p));
    ParseArticuloAfterPrecioWrite(c, row, p);
    ParseArticuloAfterStockWrite(c, row1, n);
  }

  /** `articulos.find(a => a.idarticulo.trim().toLowerCase() === id.trim().toLowerCase())`, from position `from`. */
  function FindArticuloFrom(arts: seq<Articulo>, id: string, from: nat): (k: int)
    requires from <= |arts|
    decreases |arts| - from
    ensures k == -1 || from <= k < |arts|
    ensures k >= 0 ==> SameKey(arts[k].idarticulo, id)
    ensures forall j :: from <= j < |arts| && (k < 0 || j < k) ==> !SameKey(arts[j].idarticulo, id)
  {
    if from == |arts| then -1
    else if SameKey(arts[from].idarticulo, id) then from
    else FindArticuloFrom(arts, id, from + 1)
  }

  /** The position of the first article whose id matches, or -1. */
  function FindArticulo(arts: seq<Articulo>, id: string): int {
    FindArticuloFrom(arts, id, 0)
  }

  /** `articuloExiste(id)` */
  predicate ArticuloExiste(arts: seq<Articulo>, id: string) {
    exists k :: 0 <= k < |arts| && SameKey(arts[k].idarticulo, id)
  }

  /** The existence check and the lookup the stock operations use agree. */
  lemma {:induction false} ArticuloExisteIffFound(arts: seq<Articulo>, id: string)
    ensures ArticuloExiste(arts, id) <==> FindArticulo(arts, id) >= 0
  {
  }

  /** The lookup only reads ids: changing stocks and prices does not move it. */
  lemma {:induction false} FindArticuloIdsOnly(arts: seq<Articulo>, arts': seq<Articulo>, id: string)
    requires |arts'| == |arts|
    requires forall k :: 0 <= k < |arts| ==> arts'[k].idarticulo == arts[k].idarticulo
    ensures FindArticulo(arts', id) == FindArticulo(arts, id)
  {
    FindArticuloFromIdsOnly(arts, arts', id, 0);
  }

  lemma {:induction false} FindArticuloFromIdsOnly(arts: seq<Articulo>, arts': seq<Articulo>, id: string, from: nat)
    requires from <= |arts| == |arts'|
    requires forall k :: 0 <= k < |arts| ==> arts'[k].idarticulo == arts[k].idarticulo
    decreases |arts| - from
    ensures FindArticuloFrom(arts', id, from) == FindArticuloFrom(arts, id, from)
  {
    if from < |arts| {
      FindArticuloFromIdsOnly(arts, arts', id, from + 1);
    }
  }

  /** The barcode clash `articuloExistePorCodbarra` looks for, for one article. */
  predicate CodbarraClash(a: Articulo, codbarra: string, excluirId: Option<string>) {
    SameKey(a.codbarra, codbarra)
    && (excluirId.None? || excluirId.value == "" || !SameKey(a.idarticulo, excluirId.value))
  }

  /** `articuloExistePorCodbarra(codbarra, excluirId)`: a blank barcode never clashes. */
  predicate ArticuloExistePorCodbarra(arts: seq<Articulo>, codbarra: string, excluirId: Option<string>) {
    !IsBlank(codbarra) && exists k :: 0 <= k < |arts| && CodbarraClash(arts[k], codbarra, excluirId)
  }

  /** In edit mode an article never clashes with its own barcode. */
  lemma {:induction false} CodbarraExcludesOwnId(arts: seq<Articulo>, codbarra: string, excluirId: string, k: nat)
    requires k < |arts| && excluirId != "" && SameKey(arts[k].idarticulo, excluirId)
    ensures !CodbarraClash(arts[k], codbarra, Some(excluirId))
  {
  }

  /** When the only article with the barcode is the excluded one, no clash is reported. */
  lemma {:induction false} CodbarraOnlySelf(arts: seq<Articulo>, codbarra: string, excluirId: string, k: nat)
    requires k < |arts| && excluirId != "" && SameKey(arts[k].idarticulo, excluirId)
    requires forall j :: 0 <= j < |arts| && j != k ==> !SameKey(arts[j].codbarra, codbarra)
    ensures !ArticuloExistePorCodbarra(arts, codbarra, Some(excluirId))
  {
  }

  /** The error text of the stock writer when the id or stock column is missing. */
  function StockColumnsMessage(headers: Row): string {
    "Columnas no encontradas en articulos. Encontradas: " + JsonStringArray(headers)
    + ". Se buscan: id/idarticulo y stock/existencia"
  }

  /** The error text of the price-and-stock writer when a column is missing. */
  function PrecioStockColumnsMessage(headers: Row): string {
    "Columnas no encontradas en articulos. Encontradas: " + JsonStringArray(headers)
  }

  /** The article at position `k` is read from data row `k + 1`. */
  lemma {:induction false} ArticuloOfRow(tab: Table, k: nat)
    requires k < |ParseArticulos(tab)|
    ensures |tab| >= 2 && k + 1 < |tab|
    ensures ParseArticulos(tab)[k] == ParseArticulo(ArticuloCols(Headers(tab)), tab[k + 1])
  {
    assert tab[1..][k] == tab[k + 1];
  }

  /**
    Writing `n` into the stock cell of the row of article `k` changes the articles read
    in exactly one place: article `k` now has stock `n`.
   */
  lemma {:induction false} StockWriteView(tab: Table, k: nat, n: int)
    requires k < |ParseArticulos(tab)| && ArticuloCols(Headers(tab)).stock >= 0
    ensures k + 1 < |tab|
    ensures var c := ArticuloCols(Headers(tab));
            ParseArticulos(tab[k + 1 := SetCell(tab[k + 1], c.stock, IntToString(n))])
            == ParseArticulos(tab)[k := ParseArticulos(tab)[k].(stock := n)]
  {
    var c := ArticuloCols(Headers(tab));
    ColumnsApart(Headers(tab));
    var row := SetCell(tab[k + 1], c.stock, IntToString(n));
    HeadersAfterRowUpdate(tab, k + 1, row);
    TailUpdate(tab, k + 1, row);
    assert tab[1..][k] == tab[k + 1];
    StockWriteRows(c, tab[1..], k, n);
  }

  lemma {:induction false} StockWriteRows(c: ArticuloColumns, rows: seq<Row>, i: nat, n: int)
    requires i < |rows| && StockColumnApart(c)
    ensures var arts := ParseArticulosWith(c, rows);
            ParseArticulosWith(c, rows[i := SetCell(rows[i], c.stock, IntToString(n))]) == arts[i := arts[i].(stock := n)]
  {
    ParseWithUpdate(c, rows, i, SetCell(rows[i], c.stock, IntToString(n)));
    ParseArticuloAfterStockWrite(c, rows[i], n);
  }

  /**
    Writing `p` into the price cell of the row of article `k` changes the articles read
    in exactly one place: article `k` now has price `p`.
   */
  lemma {:induction false} PrecioWriteView(tab: Table, k: nat, p: int)
    requires k < |ParseArticulos(tab)| && ArticuloCols(Headers(tab)).precio >= 0
    ensures k + 1 < |tab|
    ensures var c := ArticuloCols(Headers(tab));
            ParseArticulos(tab[k + 1 := SetCell(tab[k + 1], c.precio, IntToString(p))])
            == ParseArticulos(tab)[k := ParseArticulos(tab)[k].(precio := p)]
  {
    var c := ArticuloCols(Headers(tab));
    ColumnsApart(Headers(tab));
    var row := SetCell(tab[k + 1], c.precio, IntToString(p));
    HeadersAfterRowUpdate(tab, k + 1, row);
    TailUpdate(tab, k + 1, row);
    assert tab[1..][k] == tab[k + 1];
    PrecioWriteRows(c, tab[1..], k, p);
  }

  lemma {:induction false} PrecioWriteRows(c: ArticuloColumns, rows: seq<Row>, i: nat, p: int)
    requires i < |rows| && PrecioColumnApart(c)
    ensures var arts := ParseArticulosWith(c, rows);
            ParseArticulosWith(c, rows[i := SetCell(rows[i], c.precio, IntToString(p))]) == arts[i := arts[i].(precio := p)]
  {
    ParseWithUpdate(c, rows, i, SetCell(rows[i], c.precio, IntToString(p)));
    ParseArticuloAfterPrecioWrite(c, rows[i], p);
  }

  /**
    Writing price `p` and stock `n` into the row of article `k` changes the articles
    read in exactly one place: article `k` now has price `p` and stock `n`.
   */
  lemma {:induction false} PrecioStockWriteView(tab: Table, k: nat, p: int, n: int)
    requires k < |ParseArticulos(tab)|
    requires ArticuloCols(Headers(tab)).stock >= 0 && ArticuloCols(Headers(tab)).precio >= 0
    ensures k + 1 < |tab|
    ensures var c := ArticuloCols(Headers(tab));
            var row := SetCell(SetCell(tab[k + 1], c.precio, IntToString(p)), c.stock, IntToString(n));
            ParseArticulos(tab[k + 1 := row]) == ParseArticulos(tab)[k := ParseArticulos(tab)[k].(precio := p, stock := n)]
  {
    var c := ArticuloCols(Headers(tab));
    ColumnsApart(Headers(tab));
    var row := SetCell(SetCell(tab[k + 1], c.precio, IntToString(p)), c.stock, IntToString(n));
    HeadersAfterRowUpdate(tab, k + 1, row);
    TailUpdate(tab, k + 1, row);
    assert tab[1..][k] == tab[k + 1];
    PrecioStockWriteRows(c, tab[1..], k, p, n);
  }

  lemma {:induction false} PrecioStockWriteRows(c: ArticuloColumns, rows: seq<Row>, i: nat, p: int, n: int)
    requires i < |rows| && PrecioColumnApart(c) && StockColumnApart(c)
    ensures var row := SetCell(SetCell(rows[i], c.precio, IntToString(p)), c.stock, IntToString(n));
            var arts := ParseArticulosWith(c, rows);
            ParseArticulosWith(c, rows[i := row]) == arts[i := arts[i].(precio := p, stock := n)]
  {
    var row := SetCell(SetCell(rows[i], c.precio, IntToString(p)), c.stock, IntToString(n));
    ParseWithUpdate(c, rows, i, row);
    ParseArticuloAfterPrecioStockWrite(c, rows[i], p, n);
  }

  /**
    The article the reader finds is on the row the stock writer finds: both resolve the
    same id column (the writer's alias list extends the reader's) and both take the first
    data row whose trimmed, lower-cased id matches.
   */
  lemma {:induction false} WriterFindsArticulo(tab: Table, id: string, key: string)
    requires !IsBlank(id) && SameKey(key, id)
    requires FindArticulo(ParseArticulos(tab), id) >= 0
    ensures HeaderIndex(Headers(tab), ARTICULO_ID_WRITE_ALIASES) == ArticuloCols(Headers(tab)).id >= 0
    ensures FindRow(tab, ArticuloCols(Headers(tab)).id, key) == FindArticulo(ParseArticulos(tab), id) + 1
  {
    var c := ArticuloCols(Headers(tab));
    assert ParseArticulos(tab) == ParseArticulosWith(c, tab[1..]);
    RowOfArticulo(tab, c, id, key);
    HeaderIndexPrefix(Headers(tab), ARTICULO_ID_ALIASES, ["id articulo", "codigo", "c\U{F3}digo"]);
  }

  /** A row whose id cell matches a non-blank id has an id column, and the row lookup matches it. */
  lemma {:induction false} FoundIdHasColumn(row: Row, col: int, id: string, key: string)
    requires !IsBlank(id) && SameKey(Cell(row, col), id) && SameKey(key, id)
    ensures 0 <= col < |row| && col < READ_WIDTH
    ensures Lower(Cell(row, col)) == Lower(Trim(key))
  {
    assert Trim("") == "";
    if 0 <= col < |row| && col < READ_WIDTH {
      TrimIdempotent(row[col]);
    }
  }

  lemma {:induction false} IdOfRow(c: ArticuloColumns, tab: Table, i: nat)
    requires 1 <= i < |tab|
    ensures ParseArticulosWith(c, tab[1..])[i - 1].idarticulo == Cell(tab[i], c.id)
  {
    assert tab[1..][i - 1] == tab[i];
  }

  /** The row lookup on the id column finds the data row of the first matching article. */
  lemma {:induction false} RowOfArticulo(tab: Table, c: ArticuloColumns, id: string, key: string)
    requires |tab| >= 2 && !IsBlank(id) && SameKey(key, id)
    requires FindArticulo(ParseArticulosWith(c, tab[1..]), id) >= 0
    ensures c.id >= 0
    ensures FindRow(tab, c.id, key) == FindArticulo(ParseArticulosWith(c, tab[1..]), id) + 1
  {
    var arts := ParseArticulosWith(c, tab[1..]);
    var k := FindArticulo(arts, id);
    IdOfRow(c, tab, k + 1);
    FoundIdHasColumn(tab[k + 1], c.id, id, key);
    forall i | 1 <= i < k + 1
      ensures Lower(Cell(tab[i], c.id)) != Lower(Trim(key))
    {
      EarlierRowDiffers(tab, c, id, key, i);
    }
    FindRowIs(tab, c.id, key, k + 1);
  }

  lemma {:induction false} EarlierRowDiffers(tab: Table, c: ArticuloColumns, id: string, key: string, i: nat)
    requires SameKey(key, id) && 1 <= i < |tab|
    requires var k := FindArticulo(ParseArticulosWith(c, tab[1..]), id); k < 0 || i <= k
    ensures Lower(Cell(tab[i], c.id)) != Lower(Trim(key))
  {
    IdOfRow(c, tab, i);
    assert !SameKey(ParseArticulosWith(c, tab[1..])[i - 1].idarticulo, id);
    if 0 <= c.id < |tab[i]| && c.id < READ_WIDTH {
      TrimIdempotent(tab[i][c.id]);
    }
  }

  // ---------------------------------------------------------------------------
  // ventas

  datatype VentaList = VentaList(
    idventa: string,
    fecha: string,
    idarticulo: string,
    nombre: string,
    cantidad: int,
    precioUnitario: int,
    total: int)

  datatype VentaColumns = VentaColumns(
    idventa: int, fecha: int, idarticulo: int, nombre: int, cantidad: int, precioUnitario: int, total: int)

  /** `headerIndex(a) >= 0 ? headerIndex(a) : headerIndex(b)` with the exact (untrimmed) ventas lookup. */
  function ExactWithFallback(headers: Row, key: string, fallback: string): int {
    if ExactHeaderIndex(headers, key) >= 0 then ExactHeaderIndex(headers, key) else ExactHeaderIndex(headers, fallback)
  }

  function VentaCols(headers: Row): VentaColumns {
    VentaColumns(
      ExactHeaderIndex(headers, "idventa"),
      ExactHeaderIndex(headers, "fecha"),
      ExactWithFallback(headers, "idarticulo", "articuloid"),
      ExactWithFallback(headers, "nombre", "articulonombre"),
      ExactHeaderIndex(headers, "cantidad"),
      ExactWithFallback(headers, "preciounitario", "precio"),
      ExactHeaderIndex(headers, "total"))
  }

  /** One sale row; `i` is its 0-based position among the data rows. */
  function ParseVenta(cols: VentaColumns, row: Row, i: nat): VentaList {
    var cantidad := Num(Cell(row, cols.cantidad));
    var total := Num(Cell(row, cols.total));
    VentaList(
      if cols.idventa >= 0 then Cell(row, cols.idventa) else IntToString(i + 1),
      Cell(row, cols.fecha),
      Cell(row, cols.idarticulo),
      Cell(row, cols.nombre),
      cantidad,
      if cols.precioUnitario >= 0 then Num(Cell(row, cols.precioUnitario)) else PrecioDerivado(total, cantidad),
      total)
  }

  /** The unit price of a sale row without a price column: the total over the quantity, or 0. */
  function PrecioDerivado(total: int, cantidad: int): int {
    if cantidad > 0 then Cociente(total, cantidad) else 0
  }

  /**
    `total / cantidad` for a positive quantity, rounded toward zero (the model keeps integers
    where the application divides numbers), by repeated subtraction.
   */
  function Cociente(total: int, cantidad: int): int
    requires cantidad > 0
    decreases if total < 0 then -total else total, if total < 0 then 1 else 0
  {
    if total < 0 then -Cociente(-total, cantidad)
    else if total < cantidad then 0
    else 1 + Cociente(total - cantidad, cantidad)
  }

  /**
    For a total that is not negative the quotient is the number of whole quantities the
    total holds; a negative total gives the opposite of the quotient of its magnitude.
   */
  lemma {:induction false} CocienteTrunca(total: int, cantidad: int)
    requires cantidad > 0
    ensures total >= 0 ==> 0 <= Cociente(total, cantidad) * cantidad <= total < (Cociente(total, cantidad) + 1) * cantidad
    ensures total < 0 ==> Cociente(total, cantidad) == -Cociente(-total, cantidad)
    decreases if total < 0 then -total else total
  {
    if total >= cantidad {
      var q := Cociente(total - cantidad, cantidad);
      CocienteTrunca(total - cantidad, cantidad);
      assert (q + 1) * cantidad == q * cantidad + cantidad;
      assert (q + 2) * cantidad == (q + 1) * cantidad + cantidad;
    }
  }

  /** `getVentas` */
  function ParseVentas(tab: Table): (r: seq<VentaList>)
    ensures |tab| >= 2 ==> |r| == |tab| - 1
  {
    if |tab| < 2 then [] else ParseVentasWith(VentaCols(Headers(tab)), tab)
  }

  /** The data rows of the tab read with the columns `cols`. */
  function ParseVentasWith(cols: VentaColumns, tab: Table): (r: seq<VentaList>)
    requires |tab| >= 1
    ensures |r| == |tab| - 1
  {
    MapDataRows(VentaReader(cols), tab, |tab| - 1)
  }

  /** The reader `ParseVenta` applies to each data row, with the columns fixed. */
  function VentaReader(cols: VentaColumns): (f: (Row, nat) -> VentaList)
    ensures forall row, i :: f(row, i) == ParseVenta(cols, row, i)
  {
    (row: Row, i: nat) => ParseVenta(cols, row, i)
  }

  /** With an `idventa` column, a sale does not depend on the position of its row. */
  lemma {:induction false} VentaReaderPositionFree(cols: VentaColumns)
    requires cols.idventa >= 0
    ensures PositionFree(VentaReader(cols))
  {
  }

  /** Appending a row to the tab appends the sale read from it. */
  lemma {:induction false} VentasWithAppended(cols: VentaColumns, tab: Table, row: Row)
    requires |tab| >= 1
    ensures ParseVentasWith(cols, tab + [row]) == ParseVentasWith(cols, tab) + [ParseVenta(cols, row, |tab| - 1)]
  {
    MapDataRowsAppended(VentaReader(cols), tab, row);
  }

  /** Replacing data row `k + 1` replaces the sale read from it, the `k`-th, and no other. */
  lemma {:induction false} VentasWithRewritten(cols: VentaColumns, tab: Table, k: nat, row: Row)
    requires k + 1 < |tab|
    ensures ParseVentasWith(cols, tab[k + 1 := row]) == ParseVentasWith(cols, tab)[k := ParseVenta(cols, row, k)]
  {
    MapDataRowsRewritten(VentaReader(cols), tab, k, row);
  }

  /** With an `idventa` column, deleting data row `r` removes the sale read from it and keeps the others in order. */
  lemma {:induction false} VentasWithRemoved(cols: VentaColumns, tab: Table, r: nat)
    requires 1 <= r < |tab| && cols.idventa >= 0
    ensures ParseVentasWith(cols, RemoveRow(tab, r)) == ParseVentasWith(cols, tab)[..r - 1] + ParseVentasWith(cols, tab)[r..]
  {
    VentaReaderPositionFree(cols);
    MapDataRowsRemoved(VentaReader(cols), tab, r);
  }

  /** The sale at position `j` of a read with the columns `cols` comes from data row `j + 1`. */
  lemma {:induction false} VentaWithAt(cols: VentaColumns, tab: Table, j: nat)
    requires j + 1 < |tab|
    ensures ParseVentasWith(cols, tab)[j] == ParseVenta(cols, tab[j + 1], j)
  {
    DataRowRead(VentaReader(cols), tab, j);
  }

  // ---------------------------------------------------------------------------
  // proveedores

  datatype Proveedor = Proveedor(
    idproveedor: string,
    nombre: string,
    telefono: Option<string>,
    email: Option<string>,
    direccion: Option<string>,
    contacto: Option<string>)

  function ParseProveedor(h: Row, row: Row): Proveedor {
    Proveedor(
      Cell(row, HeaderIndex(h, PROVEEDOR_ID_ALIASES)),
      Cell(row, HeaderIndex(h, NOMBRE_ALIASES)),
      OptCell(row, HeaderIndex(h, TELEFONO_ALIASES)),
      OptCell(row, HeaderIndex(h, EMAIL_ALIASES)),
      OptCell(row, HeaderIndex(h, DIRECCION_ALIASES)),
      OptCell(row, HeaderIndex(h, CONTACTO_ALIASES)))
  }

  function ParseProveedoresWith(h: Row, rows: seq<Row>): (r: seq<Proveedor>)
    ensures |r| == |rows|
    ensures forall j :: 0 <= j < |rows| ==> r[j] == ParseProveedor(h, rows[j])
  {
    if rows == [] then [] else [ParseProveedor(h, rows[0])] + ParseProveedoresWith(h, rows[1..])
  }

  /** Leaving row `k` out of the rows leaves out the supplier read from it and keeps the others in order. */
  lemma {:induction false} ProveedoresWithSpliced(h: Row, rows: seq<Row>, k: nat)
    requires k < |rows|
    ensures ParseProveedoresWith(h, rows[..k] + rows[k + 1..]) == ParseProveedoresWith(h, rows)[..k] + ParseProveedoresWith(h, rows)[k + 1..]
  {
    var all := ParseProveedoresWith(h, rows);
    var spliced := rows[..k] + rows[k + 1..];
    var after := ParseProveedoresWith(h, spliced);
    var wanted := all[..k] + all[k + 1..];
    assert |after| == |wanted|;
    forall j | 0 <= j < |after|
      ensures after[j] == wanted[j]
    {
      if j < k {
        assert spliced[j] == rows[j] && wanted[j] == all[j];
      } else {
        assert spliced[j] == rows[j + 1] && wanted[j] == all[j + 1];
      }
    }
    assert after == wanted;
  }

  /** `getProveedores` */
  function ParseProveedores(tab: Table): (r: seq<Proveedor>)
    ensures |tab| >= 2 ==> |r| == |tab| - 1
  {
    if |tab| < 2 then [] else ParseProveedoresWith(Headers(tab), tab[1..])
  }

  /** `proveedorExiste(id)` */
  predicate ProveedorExiste(provs: seq<Proveedor>, id: string) {
    exists k :: 0 <= k < |provs| && SameKey(provs[k].idproveedor, id)
  }

  // ---------------------------------------------------------------------------
  // clientes

  datatype Cliente = Cliente(
    idcliente: string,
    nombre: string,
    telefono: Option<string>,
    email: Option<string>,
    direccion: Option<string>,
    fechaCreacion: string)

  /** The column `fechaCreacion` is read from. */
  function FechaCreacionCol(headers: Row): nat {
    var i := HeaderIndex(headers, FECHA_CREACION_ALIASES);
    if i >= 0 then i else FECHA_CREACION_DEFAULT
  }

  /** One client row; the tab is read as formatted text, so a date cell is its trimmed text. */
  function ParseCliente(h: Row, row: Row): Cliente {
    Cliente(
      Cell(row, HeaderIndex(h, CLIENTE_ID_ALIASES)),
      Cell(row, HeaderIndex(h, NOMBRE_ALIASES)),
      OptCell(row, HeaderIndex(h, TELEFONO_ALIASES)),
      OptCell(row, HeaderIndex(h, EMAIL_ALIASES)),
      OptCell(row, HeaderIndex(h, DIRECCION_ALIASES)),
      Cell(row, FechaCreacionCol(h)))
  }

  function ParseClientesWith(h: Row, rows: seq<Row>): (r: seq<Cliente>)
    ensures |r| == |rows|
    ensures forall j :: 0 <= j < |rows| ==> r[j] == ParseCliente(h, rows[j])
  {
    if rows == [] then [] else [ParseCliente(h, rows[0])] + ParseClientesWith(h, rows[1..])
  }

  /** Leaving row `k` out of the rows leaves out the client read from it and keeps the others in order. */
  lemma {:induction false} ClientesWithSpliced(h: Row, rows: seq<Row>, k: nat)
    requires k < |rows|
    ensures ParseClientesWith(h, rows[..k] + rows[k + 1..]) == ParseClientesWith(h, rows)[..k] + ParseClientesWith(h, rows)[k + 1..]
  {
    var all := ParseClientesWith(h, rows);
    var spliced := rows[..k] + rows[k + 1..];
    var after := ParseClientesWith(h, spliced);
    var wanted := all[..k] + all[k + 1..];
    assert |after| == |wanted|;
    forall j | 0 <= j < |after|
      ensures after[j] == wanted[j]
    {
      if j < k {
        assert spliced[j] == rows[j] && wanted[j] == all[j];
      } else {
        assert spliced[j] == rows[j + 1] && wanted[j] == all[j + 1];
      }
    }
    assert after == wanted;
  }

  /** `getClientes` */
  function ParseClientes(tab: Table): (r: seq<Cliente>)
    ensures |tab| >= 2 ==> |r| == |tab| - 1
  {
    if |tab| < 2 then [] else ParseClientesWith(Headers(tab), tab[1..])
  }

  /** `clienteExiste(id)` */
  predicate ClienteExiste(clientes: seq<Cliente>, id: string) {
    exists k :: 0 <= k < |clientes| && SameKey(clientes[k].idcliente, id)
  }

  // ---------------------------------------------------------------------------
  // compras

  datatype CompraList = CompraList(
    idcompra: string,
    fecha: string,
    proveedor: string,
    idarticulo: string,
    articulo: string,
    cantidad: int,
    precio: int)

  datatype CompraColumns = CompraColumns(
    idcompra: int, fecha: int, proveedor: int, idarticulo: int, articulo: int, cantidad: int, precio: int)

  function CompraCols(h: Row): CompraColumns {
    CompraColumns(
      HeaderIndex(h, IDCOMPRA_ALIASES),
      HeaderIndex(h, FECHA_ALIASES),
      HeaderIndex(h, PROVEEDOR_ALIASES),
      HeaderIndex(h, COMPRA_IDARTICULO_ALIASES),
      HeaderIndex(h, COMPRA_ARTICULO_ALIASES),
      HeaderIndex(h, CANTIDAD_ALIASES),
      HeaderIndex(h, COMPRA_PRECIO_ALIASES))
  }

  /** One purchase row; `i` is its 0-based position among the data rows. */
  function ParseCompra(cols: CompraColumns, row: Row, i: nat): CompraList {
    CompraList(
      if cols.idcompra >= 0 then Cell(row, cols.idcompra) else IntToString(i + 1),
      Cell(row, cols.fecha),
      Cell(row, cols.proveedor),
      Cell(row, cols.idarticulo),
      Cell(row, cols.articulo),
      Num(Cell(row, cols.cantidad)),
      Num(Cell(row, cols.precio)))
  }

  /** `getCompras` */
  function ParseCompras(tab: Table): (r: seq<CompraList>)
    ensures |tab| >= 2 ==> |r| == |tab| - 1
  {
    if |tab| < 2 then [] else ParseComprasWith(CompraCols(Headers(tab)), tab)
  }

  /** The data rows of the tab read with the columns `cols`. */
  function ParseComprasWith(cols: CompraColumns, tab: Table): (r: seq<CompraList>)
    requires |tab| >= 1
    ensures |r| == |tab| - 1
  {
    MapDataRows(CompraReader(cols), tab, |tab| - 1)
  }

  /** The reader `ParseCompra` applies to each data row, with the columns fixed. */
  function CompraReader(cols: CompraColumns): (f: (Row, nat) -> CompraList)
    ensures forall row, i :: f(row, i) == ParseCompra(cols, row, i)
  {
    (row: Row, i: nat) => ParseCompra(cols, row, i)
  }

  /** With an `idcompra` column, a purchase does not depend on the position of its row. */
  lemma {:induction false} CompraReaderPositionFree(cols: CompraColumns)
    requires cols.idcompra >= 0
    ensures PositionFree(CompraReader(cols))
  {
  }

  /** Appending a row to the tab appends the purchase read from it. */
  lemma {:induction false} ComprasWithAppended(cols: CompraColumns, tab: Table, row: Row)
    requires |tab| >= 1
    ensures ParseComprasWith(cols, tab + [row]) == ParseComprasWith(cols, tab) + [ParseCompra(cols, row, |tab| - 1)]
  {
    MapDataRowsAppended(CompraReader(cols), tab, row);
  }

  /** Replacing data row `k + 1` replaces the purchase read from it, the `k`-th, and no other. */
  lemma {:induction false} ComprasWithRewritten(cols: CompraColumns, tab: Table, k: nat, row: Row)
    requires k + 1 < |tab|
    ensures ParseComprasWith(cols, tab[k + 1 := row]) == ParseComprasWith(cols, tab)[k := ParseCompra(cols, row, k)]
  {
    MapDataRowsRewritten(CompraReader(cols), tab, k, row);
  }

  /** With an `idcompra` column, deleting data row `r` removes the purchase read from it and keeps the others in order. */
  lemma {:induction false} ComprasWithRemoved(cols: CompraColumns, tab: Table, r: nat)
    requires 1 <= r < |tab| && cols.idcompra >= 0
    ensures ParseComprasWith(cols, RemoveRow(tab, r)) == ParseComprasWith(cols, tab)[..r - 1] + ParseComprasWith(cols, tab)[r..]
  {
    CompraReaderPositionFree(cols);
    MapDataRowsRemoved(CompraReader(cols), tab, r);
  }

  /** The purchase at position `j` of a read with the columns `cols` comes from data row `j + 1`. */
  lemma {:induction false} CompraWithAt(cols: CompraColumns, tab: Table, j: nat)
    requires j + 1 < |tab|
    ensures ParseComprasWith(cols, tab)[j] == ParseCompra(cols, tab[j + 1], j)
  {
    DataRowRead(CompraReader(cols), tab, j);
  }
}
