/**
  The supplier and client tabs as the writers see them: the six cells `A:F` a record is
  written as, how such a row reads back, what appending, rewriting and deleting one row
  does to the list a reader shows, and how the writers' row lookup relates to that list.
 */
module Directorio {
  import opened Wrappers
  import opened Text
  import opened SheetTable
  import opened Records
  import opened Ids

  const PROVEEDOR_NO_ENCONTRADO: string := "Proveedor no encontrado"
  const CLIENTE_NO_ENCONTRADO: string := "Cliente no encontrado"

  // ---------------------------------------------------------------------------
  // proveedores

  /** `ProveedorNuevo`: the optional fields may be missing. */
  datatype ProveedorNuevo = ProveedorNuevo(
    idproveedor: string,
    nombre: string,
    telefono: Option<string>,
    email: Option<string>,
    direccion: Option<string>,
    contacto: Option<string>)

  /** The cells `A:F` a supplier is written as by `insertarProveedor` and `actualizarProveedor`. */
  function ProveedorValues(p: ProveedorNuevo): (r: Row)
    ensures |r| == 6 && r[0] == p.idproveedor && r[1] == p.nombre
  {
    [p.idproveedor, p.nombre, OptionalCell(p.telefono), OptionalCell(p.email),
     OptionalCell(p.direccion), OptionalCell(p.contacto)]
  }

  /** The layout the supplier writers rely on: the header row names the fields in columns A to F. */
  predicate ProveedorLayout(h: Row) {
    HeaderIndex(h, PROVEEDOR_ID_ALIASES) == 0 && HeaderIndex(h, NOMBRE_ALIASES) == 1
    && HeaderIndex(h, TELEFONO_ALIASES) == 2 && HeaderIndex(h, EMAIL_ALIASES) == 3
    && HeaderIndex(h, DIRECCION_ALIASES) == 4 && HeaderIndex(h, CONTACTO_ALIASES) == 5
  }

  predicate ProveedorTrimmed(p: ProveedorNuevo) {
    Trim(p.idproveedor) == p.idproveedor && Trim(p.nombre) == p.nombre
    && TrimmedOptional(p.telefono) && TrimmedOptional(p.email)
    && TrimmedOptional(p.direccion) && TrimmedOptional(p.contacto)
  }

  /** The supplier a reader sees in a row the writers filled with `p`. */
  function ProveedorLeido(p: ProveedorNuevo): Proveedor {
    Proveedor(p.idproveedor, p.nombre, ReadOptional(p.telefono), ReadOptional(p.email),
              ReadOptional(p.direccion), ReadOptional(p.contacto))
  }

  /**
    Round trip: in the layout the writers rely on, a row that starts with a supplier's
    cells reads back as that supplier, with empty optional fields read as missing.
   */
  lemma {:induction false} ProveedorReadBack(h: Row, p: ProveedorNuevo, row: Row)
    requires ProveedorLayout(h) && ProveedorTrimmed(p)
    requires |row| >= 6 && row[..6] == ProveedorValues(p)
    ensures ParseProveedor(h, row) == ProveedorLeido(p)
  {
    var v := ProveedorValues(p);
    assert forall j :: 0 <= j < 6 ==> row[j] == v[j];
    OptionalCellReadBack(row, 2, p.telefono);
    OptionalCellReadBack(row, 3, p.email);
    OptionalCellReadBack(row, 4, p.direccion);
    OptionalCellReadBack(row, 5, p.contacto);
  }

  /**
    `actualizarProveedor` seen through `getProveedores`: writing a supplier's cells over
    data row `r` replaces exactly the supplier listed from that row.
   */
  lemma {:induction false} ProveedorRowRewritten(tab: Table, r: nat, p: ProveedorNuevo)
    requires 1 <= r < |tab| && ProveedorLayout(Headers(tab)) && ProveedorTrimmed(p)
    ensures ParseProveedores(tab[r := WriteRange(tab[r], ProveedorValues(p))])
            == ParseProveedores(tab)[r - 1 := ProveedorLeido(p)]
  {
    var row := WriteRange(tab[r], ProveedorValues(p));
    ProveedoresAfterRowUpdate(tab, r, row);
    ProveedorReadBack(Headers(tab), p, row);
  }

  /** `insertarProveedor` seen through `getProveedores`: the supplier appended is listed last. */
  lemma {:induction false} InsertedProveedorListed(tab: Table, p: ProveedorNuevo)
    requires |tab| >= 1 && ProveedorLayout(Headers(tab)) && ProveedorTrimmed(p)
    ensures ParseProveedores(tab + [ProveedorValues(p)]) == ParseProveedores(tab) + [ProveedorLeido(p)]
  {
    var row := ProveedorValues(p);
    AppendedProveedor(tab, row);
    ProveedorReadBack(Headers(tab), p, row);
  }

  /** Supplier `j` of the list is read from data row `j + 1`. */
  lemma {:induction false} ProveedorOfRow(tab: Table, j: nat)
    requires j < |ParseProveedores(tab)|
    ensures |tab| >= 2 && j + 1 < |tab|
    ensures ParseProveedores(tab)[j] == ParseProveedor(Headers(tab), tab[j + 1])
  {
    assert tab[1..][j] == tab[j + 1];
  }

  /** A row appended to a tab with a header row adds one supplier at the end. */
  lemma {:induction false} AppendedProveedor(tab: Table, row: Row)
    requires |tab| >= 1
    ensures ParseProveedores(tab + [row]) == ParseProveedores(tab) + [ParseProveedor(Headers(tab), row)]
  {
    var tab' := tab + [row];
    assert tab'[0] == tab[0];
    var after := ParseProveedores(tab');
    var wanted := ParseProveedores(tab) + [ParseProveedor(Headers(tab), row)];
    forall j | 0 <= j < |after|
      ensures after[j] == wanted[j]
    {
      ProveedorOfRow(tab', j);
      if j < |tab| - 1 {
        ProveedorOfRow(tab, j);
      }
    }
  }

  /** Replacing one data row changes the supplier read from that row only. */
  lemma {:induction false} ProveedoresAfterRowUpdate(tab: Table, r: nat, row: Row)
    requires 1 <= r < |tab|
    ensures ParseProveedores(tab[r := row]) == ParseProveedores(tab)[r - 1 := ParseProveedor(Headers(tab), row)]
  {
    HeadersAfterRowUpdate(tab, r, row);
    var tab' := tab[r := row];
    var before := ParseProveedores(tab);
    var after := ParseProveedores(tab');
    forall j | 0 <= j < |after|
      ensures after[j] == before[r - 1 := ParseProveedor(Headers(tab), row)][j]
    {
      ProveedorOfRow(tab', j);
      ProveedorOfRow(tab, j);
    }
  }

  /** Deleting a data row removes exactly the supplier read from it; the others keep their order. */
  lemma {:induction false} ProveedoresAfterRemoval(tab: Table, r: nat)
    requires 1 <= r < |tab|
    ensures ParseProveedores(RemoveRow(tab, r)) == ParseProveedores(tab)[..r - 1] + ParseProveedores(tab)[r..]
  {
    DataRowsRemoved(tab, r);
    ProveedoresWithSpliced(Headers(tab), tab[1..], r - 1);
  }

  /** The ids of a list of suppliers. */
  function ProveedorIds(provs: seq<Proveedor>): (ids: seq<string>)
    ensures |ids| == |provs| && forall j :: 0 <= j < |provs| ==> ids[j] == provs[j].idproveedor
  {
    if provs == [] then [] else [provs[0].idproveedor] + ProveedorIds(provs[1..])
  }

  /**
    The lookup of `actualizarProveedor` and `eliminarProveedor` agrees with
    `proveedorExiste`: on a tab with an id column it succeeds exactly when the supplier
    exists, and on the row of the first supplier listed under that id.
   */
  lemma {:induction false} LocateProveedorFindsListed(tab: Table, key: string)
    requires HeaderIndex(Headers(tab), PROVEEDOR_ID_ALIASES) >= 0
    ensures var r := LocateById(tab, PROVEEDOR_ID_ALIASES, key, PROVEEDOR_NO_ENCONTRADO);
            var provs := ParseProveedores(tab);
            (r.Success? <==> ProveedorExiste(provs, key))
            && (r.Success? ==> r.value - 1 < |provs| && SameKey(provs[r.value - 1].idproveedor, key)
                               && forall k :: 0 <= k < r.value - 1 ==> !SameKey(provs[k].idproveedor, key))
  {
    var provs := ParseProveedores(tab);
    var ids := ProveedorIds(provs);
    var col := HeaderIndex(Headers(tab), PROVEEDOR_ID_ALIASES);
    assert |tab| >= 1;
    forall k | 0 <= k < |ids|
      ensures ids[k] == Cell(tab[k + 1], col)
    {
      ProveedorOfRow(tab, k);
    }
    LocateByIdMatchesList(tab, PROVEEDOR_ID_ALIASES, key, PROVEEDOR_NO_ENCONTRADO, ids);
  }

  /**
    `actualizarProveedor` as a whole, seen through `getProveedores`: the row it rewrites
    is that of a supplier listed under the key, and that supplier is replaced.
   */
  lemma {:induction false} ProveedorUpdated(tab: Table, key: string, p: ProveedorNuevo, r: nat)
    requires LocateById(tab, PROVEEDOR_ID_ALIASES, key, PROVEEDOR_NO_ENCONTRADO) == Success(r)
    requires ProveedorLayout(Headers(tab)) && ProveedorTrimmed(p)
    ensures r - 1 < |ParseProveedores(tab)| && SameKey(ParseProveedores(tab)[r - 1].idproveedor, key)
    ensures ParseProveedores(tab[r := WriteRange(tab[r], ProveedorValues(p))]) == ParseProveedores(tab)[r - 1 := ProveedorLeido(p)]
  {
    assert HeaderIndex(Headers(tab), PROVEEDOR_ID_ALIASES) >= 0;
    LocateProveedorFindsListed(tab, key);
    ProveedorRowRewritten(tab, r, p);
  }

  /** A supplier appended with its id in column A exists afterwards under that id. */
  lemma {:induction false} InsertedProveedorExiste(tab: Table, p: ProveedorNuevo)
    requires |tab| >= 1 && HeaderIndex(Headers(tab), PROVEEDOR_ID_ALIASES) == 0
    ensures ProveedorExiste(ParseProveedores(tab + [ProveedorValues(p)]), p.idproveedor)
  {
    var row := ProveedorValues(p);
    AppendedProveedor(tab, row);
    TrimIdempotent(p.idproveedor);
    var provs := ParseProveedores(tab + [row]);
    assert provs[|provs| - 1].idproveedor == Trim(p.idproveedor);
  }

  // ---------------------------------------------------------------------------
  // clientes

  /** `ClienteNuevo`: the contact fields may be missing; the creation date may not. */
  datatype ClienteNuevo = ClienteNuevo(
    idcliente: string,
    nombre: string,
    telefono: Option<string>,
    email: Option<string>,
    direccion: Option<string>,
    fechaCreacion: string)

  /** The cells `A:F` a client is written as by `insertarCliente` and `actualizarCliente`. */
  function ClienteValues(c: ClienteNuevo): (r: Row)
    ensures |r| == 6 && r[0] == c.idcliente && r[1] == c.nombre && r[5] == c.fechaCreacion
  {
    [c.idcliente, c.nombre, OptionalCell(c.telefono), OptionalCell(c.email),
     OptionalCell(c.direccion), c.fechaCreacion]
  }

  /** The layout the client writers rely on: the header row names the fields in columns A to F. */
  predicate ClienteLayout(h: Row) {
    HeaderIndex(h, CLIENTE_ID_ALIASES) == 0 && HeaderIndex(h, NOMBRE_ALIASES) == 1
    && HeaderIndex(h, TELEFONO_ALIASES) == 2 && HeaderIndex(h, EMAIL_ALIASES) == 3
    && HeaderIndex(h, DIRECCION_ALIASES) == 4 && FechaCreacionCol(h) == 5
  }

  predicate ClienteTrimmed(c: ClienteNuevo) {
    Trim(c.idcliente) == c.idcliente && Trim(c.nombre) == c.nombre
    && TrimmedOptional(c.telefono) && TrimmedOptional(c.email) && TrimmedOptional(c.direccion)
    && Trim(c.fechaCreacion) == c.fechaCreacion
  }

  /** The client a reader sees in a row the writers filled with `c`. */
  function ClienteLeido(c: ClienteNuevo): Cliente {
    Cliente(c.idcliente, c.nombre, ReadOptional(c.telefono), ReadOptional(c.email),
            ReadOptional(c.direccion), c.fechaCreacion)
  }

  /**
    Round trip: in the layout the writers rely on, a row that starts with a client's cells
    reads back as that client, with empty contact fields read as missing.
   */
  lemma {:induction false} ClienteReadBack(h: Row, c: ClienteNuevo, row: Row)
    requires ClienteLayout(h) && ClienteTrimmed(c)
    requires |row| >= 6 && row[..6] == ClienteValues(c)
    ensures ParseCliente(h, row) == ClienteLeido(c)
  {
    var v := ClienteValues(c);
    assert forall j :: 0 <= j < 6 ==> row[j] == v[j];
    OptionalCellReadBack(row, 2, c.telefono);
    OptionalCellReadBack(row, 3, c.email);
    OptionalCellReadBack(row, 4, c.direccion);
  }

  /**
    `actualizarCliente` seen through `getClientes`: writing a client's cells over data row
    `r` replaces exactly the client listed from that row.
   */
  lemma {:induction false} ClienteRowRewritten(tab: Table, r: nat, c: ClienteNuevo)
    requires 1 <= r < |tab| && ClienteLayout(Headers(tab)) && ClienteTrimmed(c)
    ensures ParseClientes(tab[r := WriteRange(tab[r], ClienteValues(c))])
            == ParseClientes(tab)[r - 1 := ClienteLeido(c)]
  {
    var row := WriteRange(tab[r], ClienteValues(c));
    ClientesAfterRowUpdate(tab, r, row);
    ClienteReadBack(Headers(tab), c, row);
  }

  /** `insertarCliente` seen through `getClientes`: the client appended is listed last. */
  lemma {:induction false} InsertedClienteListed(tab: Table, c: ClienteNuevo)
    requires |tab| >= 1 && ClienteLayout(Headers(tab)) && ClienteTrimmed(c)
    ensures ParseClientes(tab + [ClienteValues(c)]) == ParseClientes(tab) + [ClienteLeido(c)]
  {
    var row := ClienteValues(c);
    AppendedCliente(tab, row);
    ClienteReadBack(Headers(tab), c, row);
  }

  /** Client `j` of the list is read from data row `j + 1`. */
  lemma {:induction false} ClienteOfRow(tab: Table, j: nat)
    requires j < |ParseClientes(tab)|
    ensures |tab| >= 2 && j + 1 < |tab|
    ensures ParseClientes(tab)[j] == ParseCliente(Headers(tab), tab[j + 1])
  {
    assert tab[1..][j] == tab[j + 1];
  }

  /** A row appended to a tab with a header row adds one client at the end. */
  lemma {:induction false} AppendedCliente(tab: Table, row: Row)
    requires |tab| >= 1
    ensures ParseClientes(tab + [row]) == ParseClientes(tab) + [ParseCliente(Headers(tab), row)]
  {
    var tab' := tab + [row];
    assert tab'[0] == tab[0];
    var after := ParseClientes(tab');
    var wanted := ParseClientes(tab) + [ParseCliente(Headers(tab), row)];
    forall j | 0 <= j < |after|
      ensures after[j] == wanted[j]
    {
      ClienteOfRow(tab', j);
      if j < |tab| - 1 {
        ClienteOfRow(tab, j);
      }
    }
  }

  /** Replacing one data row changes the client read from that row only. */
  lemma {:induction false} ClientesAfterRowUpdate(tab: Table, r: nat, row: Row)
    requires 1 <= r < |tab|
    ensures ParseClientes(tab[r := row]) == ParseClientes(tab)[r - 1 := ParseCliente(Headers(tab), row)]
  {
    HeadersAfterRowUpdate(tab, r, row);
    var tab' := tab[r := row];
    var before := ParseClientes(tab);
    var after := ParseClientes(tab');
    forall j | 0 <= j < |after|
      ensures after[j] == before[r - 1 := ParseCliente(Headers(tab), row)][j]
    {
      ClienteOfRow(tab', j);
      ClienteOfRow(tab, j);
    }
  }

  /** Deleting a data row removes exactly the client read from it; the others keep their order. */
  lemma {:induction false} ClientesAfterRemoval(tab: Table, r: nat)
    requires 1 <= r < |tab|
    ensures ParseClientes(RemoveRow(tab, r)) == ParseClientes(tab)[..r - 1] + ParseClientes(tab)[r..]
  {
    DataRowsRemoved(tab, r);
    ClientesWithSpliced(Headers(tab), tab[1..], r - 1);
  }

  /** The ids of a list of clients. */
  function ClienteIds(clientes: seq<Cliente>): (ids: seq<string>)
    ensures |ids| == |clientes| && forall j :: 0 <= j < |clientes| ==> ids[j] == clientes[j].idcliente
  {
    if clientes == [] then [] else [clientes[0].idcliente] + ClienteIds(clientes[1..])
  }

  /**
    The lookup of `actualizarCliente` and `eliminarCliente` agrees with `clienteExiste`:
    on a tab with an id column it succeeds exactly when the client exists, and on the row
    of the first client listed under that id.
   */
  lemma {:induction false} LocateClienteFindsListed(tab: Table, key: string)
    requires HeaderIndex(Headers(tab), CLIENTE_ID_ALIASES) >= 0
    ensures var r := LocateById(tab, CLIENTE_ID_ALIASES, key, CLIENTE_NO_ENCONTRADO);
            var clientes := ParseClientes(tab);
            (r.Success? <==> ClienteExiste(clientes, key))
            && (r.Success? ==> r.value - 1 < |clientes| && SameKey(clientes[r.value - 1].idcliente, key)
                               && forall k :: 0 <= k < r.value - 1 ==> !SameKey(clientes[k].idcliente, key))
  {
    ClienteIdsAreCells(tab);
    LocateByIdMatchesList(tab, CLIENTE_ID_ALIASES, key, CLIENTE_NO_ENCONTRADO, ClienteIds(ParseClientes(tab)));
  }

  /**
    `actualizarCliente` as a whole, seen through `getClientes`: the row it rewrites is
    that of a client listed under the key, and that client is replaced.
   */
  lemma {:induction false} ClienteUpdated(tab: Table, key: string, c: ClienteNuevo, r: nat)
    requires LocateById(tab, CLIENTE_ID_ALIASES, key, CLIENTE_NO_ENCONTRADO) == Success(r)
    requires ClienteLayout(Headers(tab)) && ClienteTrimmed(c)
    ensures r - 1 < |ParseClientes(tab)| && SameKey(ParseClientes(tab)[r - 1].idcliente, key)
    ensures ParseClientes(tab[r := WriteRange(tab[r], ClienteValues(c))]) == ParseClientes(tab)[r - 1 := ClienteLeido(c)]
  {
    assert HeaderIndex(Headers(tab), CLIENTE_ID_ALIASES) >= 0;
    LocateClienteFindsListed(tab, key);
    ClienteRowRewritten(tab, r, c);
  }

  /** Each listed client id is the id cell of its data row. */
  lemma {:induction false} ClienteIdsAreCells(tab: Table)
    requires HeaderIndex(Headers(tab), CLIENTE_ID_ALIASES) >= 0
    ensures var ids := ClienteIds(ParseClientes(tab));
            |ids| == |tab| - 1
            && forall k :: 0 <= k < |ids| ==> ids[k] == Cell(tab[k + 1], HeaderIndex(Headers(tab), CLIENTE_ID_ALIASES))
  {
    var ids := ClienteIds(ParseClientes(tab));
    assert |tab| >= 1;
    forall k | 0 <= k < |ids|
      ensures ids[k] == Cell(tab[k + 1], HeaderIndex(Headers(tab), CLIENTE_ID_ALIASES))
    {
      ClienteOfRow(tab, k);
    }
  }

  /** `generarSiguienteIdCliente` on the clients a reader shows. */
  function NextClienteId(tab: Table): string {
    NextId(ClienteIds(ParseClientes(tab)))
  }

  /**
    The generated client id is new: no listed client has it, compared as
    `clienteExiste` compares (trimmed, case-insensitive).
   */
  lemma {:induction false} NextClienteIdFresh(tab: Table)
    ensures !ClienteExiste(ParseClientes(tab), NextClienteId(tab))
    ensures Trim(NextClienteId(tab)) == NextClienteId(tab)
  {
    var clientes := ParseClientes(tab);
    var ids := ClienteIds(clientes);
    forall k | 0 <= k < |clientes|
      ensures !SameKey(clientes[k].idcliente, NextClienteId(tab))
    {
      SiguienteIdFreshLower(ids, k);
    }
    SiguienteIdTrimmed(ids);
  }

  /** No data row holds the generated id in the id column, compared as the writers compare. */
  lemma {:induction false} NextClienteIdFreshAt(tab: Table, i: nat)
    requires 1 <= i < |tab| && HeaderIndex(Headers(tab), CLIENTE_ID_ALIASES) >= 0
    ensures Lower(Cell(tab[i], HeaderIndex(Headers(tab), CLIENTE_ID_ALIASES))) != Lower(Trim(NextClienteId(tab)))
  {
    var col := HeaderIndex(Headers(tab), CLIENTE_ID_ALIASES);
    var ids := ClienteIds(ParseClientes(tab));
    var cell := Cell(tab[i], col);
    ClienteIdsAreCells(tab);
    CellTrimmed(tab[i], col);
    SiguienteIdFreshCell(ids, i - 1, cell);
  }

  /**
    A client inserted under the generated id, with the id in column A, is found by the
    writers' lookup on the row just appended.
   */
  lemma {:induction false} InsertedClienteLocated(tab: Table, c: ClienteNuevo)
    requires |tab| >= 1 && HeaderIndex(Headers(tab), CLIENTE_ID_ALIASES) == 0
    requires c.idcliente == NextClienteId(tab)
    ensures LocateById(tab + [ClienteValues(c)], CLIENTE_ID_ALIASES, c.idcliente, CLIENTE_NO_ENCONTRADO)
            == Success(|tab|)
  {
    var id := c.idcliente;
    var tab' := tab + [ClienteValues(c)];
    assert tab'[0] == tab[0];
    assert Headers(tab') == Headers(tab);
    forall i | 1 <= i < |tab|
      ensures Lower(Cell(tab'[i], 0)) != Lower(Trim(id))
    {
      assert tab'[i] == tab[i];
      NextClienteIdFreshAt(tab, i);
    }
    SiguienteIdTrimmed(ClienteIds(ParseClientes(tab)));
    assert Cell(tab'[|tab|], 0) == Trim(id);
    FindRowIs(tab', 0, id, |tab|);
  }
}
