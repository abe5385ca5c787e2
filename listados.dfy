/**
  The search boxes of the five lists (sales, purchases, suppliers, clients, articles).
  A blank filter shows the whole list; otherwise the filter is trimmed and lower-cased and
  a record stays when that text occurs in one of its lower-cased fields. Filtering keeps
  the records' order.
 */
module Listados {
  import opened Wrappers
  import opened Text
  import opened Records
  import FormCompras

  // ---------------------------------------------------------------------------
  // Array.prototype.filter

  /** `xs.filter(keep)` */
  function Filtrar<T>(xs: seq<T>, keep: T -> bool): (r: seq<T>)
    ensures |r| <= |xs|
  {
    if xs == [] then [] else Filtrar(xs[..|xs| - 1], keep) + (if keep(xs[|xs| - 1]) then [xs[|xs| - 1]] else [])
  }

  /** The positions of `xs` whose element `keep` holds, in increasing order. */
  function Posiciones<T>(xs: seq<T>, keep: T -> bool): seq<nat> {
    if xs == [] then [] else Posiciones(xs[..|xs| - 1], keep) + (if keep(xs[|xs| - 1]) then [|xs| - 1] else [])
  }

  /**
    `r` lists the elements of `xs` at the positions `idx`, which increase and are exactly
    the positions whose element `keep` holds.
   */
  predicate Seleccion<T(==)>(xs: seq<T>, keep: T -> bool, r: seq<T>, idx: seq<nat>) {
    && |idx| == |r|
    && (forall k :: 0 <= k < |idx| ==> idx[k] < |xs| && r[k] == xs[idx[k]])
    && (forall k, m :: 0 <= k < m < |idx| ==> idx[k] < idx[m])
    && (forall i :: 0 <= i < |xs| ==> (keep(xs[i]) <==> i in idx))
  }

  /** `r` is the order-preserving subsequence of the elements of `xs` that `keep` holds for. */
  predicate SubsecuenciaDeLosQue<T(==)>(xs: seq<T>, keep: T -> bool, r: seq<T>) {
    Seleccion(xs, keep, r, Posiciones(xs, keep))
  }

  /** Appending a kept element extends a selection by its position. */
  lemma {:induction false} SeleccionConUltimo<T>(xs: seq<T>, keep: T -> bool, r0: seq<T>, idx0: seq<nat>)
    requires xs != [] && keep(xs[|xs| - 1]) && Seleccion(xs[..|xs| - 1], keep, r0, idx0)
    ensures Seleccion(xs, keep, r0 + [xs[|xs| - 1]], idx0 + [|xs| - 1])
  {
    var n := |xs| - 1;
    var r, idx := r0 + [xs[n]], idx0 + [n];
    forall k | 0 <= k < |idx|
      ensures idx[k] < |xs| && r[k] == xs[idx[k]]
    {
      if k < |idx0| {
        assert idx[k] == idx0[k] && r[k] == r0[k] && xs[..n][idx0[k]] == xs[idx0[k]];
      }
    }
    forall i | 0 <= i < |xs|
      ensures keep(xs[i]) <==> i in idx
    {
      if i < n {
        assert xs[..n][i] == xs[i];
      }
    }
  }

  /** Appending a dropped element keeps a selection as it is. */
  lemma {:induction false} SeleccionSinUltimo<T>(xs: seq<T>, keep: T -> bool, r0: seq<T>, idx0: seq<nat>)
    requires xs != [] && !keep(xs[|xs| - 1]) && Seleccion(xs[..|xs| - 1], keep, r0, idx0)
    ensures Seleccion(xs, keep, r0, idx0)
  {
    var n := |xs| - 1;
    forall k | 0 <= k < |idx0|
      ensures idx0[k] < |xs| && r0[k] == xs[idx0[k]]
    {
      assert xs[..n][idx0[k]] == xs[idx0[k]];
    }
    forall i | 0 <= i < |xs|
      ensures keep(xs[i]) <==> i in idx0
    {
      if i < n {
        assert xs[..n][i] == xs[i];
      } else {
        assert forall k :: 0 <= k < |idx0| ==> idx0[k] < n;
      }
    }
  }

  /** The filter keeps, in their order, exactly the elements the predicate holds for. */
  lemma {:induction false} FiltrarSelecciona<T>(xs: seq<T>, keep: T -> bool)
    ensures SubsecuenciaDeLosQue(xs, keep, Filtrar(xs, keep))
  {
    if xs != [] {
      var n := |xs| - 1;
      FiltrarSelecciona(xs[..n], keep);
      if keep(xs[n]) {
        SeleccionConUltimo(xs, keep, Filtrar(xs[..n], keep), Posiciones(xs[..n], keep));
      } else {
        SeleccionSinUltimo(xs, keep, Filtrar(xs[..n], keep), Posiciones(xs[..n], keep));
      }
    }
  }

  /** An element survives the filter exactly when it is in the list and the predicate holds for it. */
  lemma {:induction false} FiltrarPertenece<T>(xs: seq<T>, keep: T -> bool, x: T)
    ensures x in Filtrar(xs, keep) <==> x in xs && keep(x)
  {
    var r, idx := Filtrar(xs, keep), Posiciones(xs, keep);
    FiltrarSelecciona(xs, keep);
    if x in r {
      var k :| 0 <= k < |r| && r[k] == x;
      assert idx[k] in idx;
    }
    if x in xs && keep(x) {
      var i :| 0 <= i < |xs| && xs[i] == x;
      var k :| 0 <= k < |idx| && idx[k] == i;
    }
  }

  // ---------------------------------------------------------------------------
  // Matching a field

  /** `filtro.trim().toLowerCase()` */
  function Texto(filtro: string): (t: string)
    ensures IsBlank(filtro) <==> t == ""
  {
    LowerEmpty(Trim(filtro));
    Lower(Trim(filtro))
  }

  /** `campo.toLowerCase().includes(texto)` */
  predicate Incluye(campo: string, texto: string) {
    Contains(Lower(campo), texto)
  }

  /** `campo?.toLowerCase().includes(texto)`: an absent field never matches. */
  predicate IncluyeOpcional(campo: Option<string>, texto: string) {
    campo.Some? && Incluye(campo.value, texto)
  }

  /** `n.toString().includes(texto)`: numbers are matched without case folding. */
  predicate IncluyeNumero(n: int, texto: string) {
    Contains(IntToString(n), texto)
  }

  lemma {:induction false} LowerSlice(s: string, i: nat, j: nat)
    requires i <= j <= |s|
    ensures Lower(s[i..j]) == Lower(s)[i..j]
  {
  }

  /** Typing a field's own value into the search box matches that field. */
  lemma {:induction false} IncluyeSuPropioTexto(campo: string)
    ensures Incluye(campo, Texto(campo))
  {
    var u := TrimStart(campo);
    TrimStartSuffix(campo);
    TrimEndPrefix(u);
    var a := |campo| - |u|;
    var b := a + |Trim(campo)|;
    assert Trim(campo) == campo[a..b];
    LowerSlice(campo, a, b);
    assert Texto(campo) <= Lower(campo)[a..];
    ContainsAt(Lower(campo), Texto(campo));
  }

  /** Text that occurs in text that occurs in `s` occurs in `s`. */
  lemma {:induction false} ContainsTransitivo(s: string, t: string, u: string)
    requires Contains(s, t) && Contains(t, u)
    ensures Contains(s, u)
  {
    ContainsAt(s, t);
    ContainsAt(t, u);
    var k :| 0 <= k <= |s| - |t| && t <= s[k..];
    var m :| 0 <= m <= |t| - |u| && u <= t[m..];
    assert u <= s[k + m..];
    ContainsAt(s, u);
  }

  // ---------------------------------------------------------------------------
  // ListVentas

  /** A sale matches on its id, date, article id or name, or the digits of its quantity or total. */
  predicate CoincideVenta(v: VentaList, texto: string) {
    || Incluye(v.idventa, texto) || Incluye(v.fecha, texto) || Incluye(v.idarticulo, texto) || Incluye(v.nombre, texto)
    || IncluyeNumero(v.cantidad, texto) || IncluyeNumero(v.total, texto)
  }

  function CoincideVentaCon(texto: string): VentaList -> bool {
    v => CoincideVenta(v, texto)
  }

  /** `ventasFiltradas` */
  function VentasFiltradas(ventas: seq<VentaList>, filtro: string): (r: seq<VentaList>)
    ensures IsBlank(filtro) ==> r == ventas
    ensures !IsBlank(filtro) ==> forall v :: v in r <==> v in ventas && CoincideVenta(v, Texto(filtro))
    ensures !IsBlank(filtro) ==> SubsecuenciaDeLosQue(ventas, CoincideVentaCon(Texto(filtro)), r)
  {
    if IsBlank(filtro) then ventas
    else
      var keep := CoincideVentaCon(Texto(filtro));
      FiltrarSelecciona(ventas, keep);
      forall v ensures v in Filtrar(ventas, keep) <==> v in ventas && keep(v) {
        FiltrarPertenece(ventas, keep, v);
      }
      Filtrar(ventas, keep)
  }

  /** Searching for a sale's id shows that sale. */
  lemma {:induction false} VentaBuscadaPorSuId(ventas: seq<VentaList>, v: VentaList)
    requires v in ventas
    ensures v in VentasFiltradas(ventas, v.idventa)
  {
    IncluyeSuPropioTexto(v.idventa);
  }

  /**
    Typing more narrows the list: a filter whose text contains another's shows only sales
    the other shows.
   */
  lemma {:induction false} VentasFiltroMasLargo(ventas: seq<VentaList>, corto: string, largo: string)
    requires !IsBlank(corto) && Contains(Texto(largo), Texto(corto))
    ensures forall v :: v in VentasFiltradas(ventas, largo) ==> v in VentasFiltradas(ventas, corto)
  {
    var t, u := Texto(largo), Texto(corto);
    assert !IsBlank(largo);
    forall v | v in VentasFiltradas(ventas, largo)
      ensures CoincideVenta(v, u)
    {
      if Incluye(v.idventa, t) {
        ContainsTransitivo(Lower(v.idventa), t, u);
      } else if Incluye(v.fecha, t) {
        ContainsTransitivo(Lower(v.fecha), t, u);
      } else if Incluye(v.idarticulo, t) {
        ContainsTransitivo(Lower(v.idarticulo), t, u);
      } else if Incluye(v.nombre, t) {
        ContainsTransitivo(Lower(v.nombre), t, u);
      } else if IncluyeNumero(v.cantidad, t) {
        ContainsTransitivo(IntToString(v.cantidad), t, u);
      } else {
        ContainsTransitivo(IntToString(v.total), t, u);
      }
    }
  }

  // ---------------------------------------------------------------------------
  // ListCompras

  /**
    A purchase as the list shows it: besides the stored fields, a total and, for a
    purchase of several articles, its lines.
   */
  datatype CompraMostrada = CompraMostrada(
    idcompra: string,
    fecha: string,
    proveedor: string,
    articulo: string,
    total: int,
    articulos: Option<seq<FormCompras.ArticuloDeCompra>>)

  /** Some line of the purchase has a name or article id that contains the text. */
  predicate LineaCoincide(c: CompraMostrada, texto: string) {
    c.articulos.Some?
    && exists i :: 0 <= i < |c.articulos.value|
         && (Incluye(c.articulos.value[i].nombre, texto) || Incluye(c.articulos.value[i].idarticulo, texto))
  }

  /** A purchase matches on its id, date, supplier, article, total, or any line's name or article id. */
  predicate CoincideCompra(c: CompraMostrada, texto: string) {
    || Incluye(c.idcompra, texto) || Incluye(c.fecha, texto) || Incluye(c.proveedor, texto)
    || Incluye(c.articulo, texto) || IncluyeNumero(c.total, texto) || LineaCoincide(c, texto)
  }

  function CoincideCompraCon(texto: string): CompraMostrada -> bool {
    c => CoincideCompra(c, texto)
  }

  /** `comprasFiltradas` */
  function ComprasFiltradas(compras: seq<CompraMostrada>, filtro: string): (r: seq<CompraMostrada>)
    ensures IsBlank(filtro) ==> r == compras
    ensures !IsBlank(filtro) ==> forall c :: c in r <==> c in compras && CoincideCompra(c, Texto(filtro))
    ensures !IsBlank(filtro) ==> SubsecuenciaDeLosQue(compras, CoincideCompraCon(Texto(filtro)), r)
  {
    if IsBlank(filtro) then compras
    else
      var keep := CoincideCompraCon(Texto(filtro));
      FiltrarSelecciona(compras, keep);
      forall c ensures c in Filtrar(compras, keep) <==> c in compras && keep(c) {
        FiltrarPertenece(compras, keep, c);
      }
      Filtrar(compras, keep)
  }

  /** Searching for the name of an article bought in a purchase shows that purchase. */
  lemma {:induction false} CompraBuscadaPorArticulo(compras: seq<CompraMostrada>, c: CompraMostrada, i: nat)
    requires c in compras && c.articulos.Some? && i < |c.articulos.value|
    requires !IsBlank(c.articulos.value[i].nombre)
    ensures c in ComprasFiltradas(compras, c.articulos.value[i].nombre)
  {
    IncluyeSuPropioTexto(c.articulos.value[i].nombre);
  }

  /** How the list shows one line: name, quantity and unit price. */
  function TextoDeLinea(a: FormCompras.ArticuloDeCompra): (t: string)
    ensures a.nombre <= t
  {
    if a.cantidad > 0 then a.nombre + " (" + IntToString(a.cantidad) + " \U{D7} " + IntToString(Cociente(a.total, a.cantidad)) + ")"
    else a.nombre
  }

  /**
    The article column: the lines joined with " · " when the purchase has lines, otherwise
    its article, or "-" when that is empty.
   */
  function DescripcionArticulos(c: CompraMostrada): (d: string)
    ensures (c.articulos.None? || c.articulos.value == []) ==> d == (if c.articulo != "" then c.articulo else "-") && d != ""
  {
    if c.articulos.Some? && |c.articulos.value| > 0 then
      var lineas := c.articulos.value;
      Join(seq(|lineas|, i requires 0 <= i < |lineas| => TextoDeLinea(lineas[i])), " \U{B7} ")
    else if c.articulo != "" then c.articulo
    else "-"
  }

  /** The article column names every line of the purchase. */
  lemma {:induction false} DescripcionNombraCadaLinea(c: CompraMostrada, i: nat)
    requires c.articulos.Some? && i < |c.articulos.value|
    ensures Contains(DescripcionArticulos(c), c.articulos.value[i].nombre)
  {
    var lineas := c.articulos.value;
    var partes := seq(|lineas|, k requires 0 <= k < |lineas| => TextoDeLinea(lineas[k]));
    JoinContainsParts(partes, " \U{B7} ", i);
    var nombre := lineas[i].nombre;
    assert nombre <= partes[i];
    assert Contains(partes[i], nombre);
    ContainsTransitivo(DescripcionArticulos(c), partes[i], nombre);
  }

  // ---------------------------------------------------------------------------
  // ListaProveedores

  /** A supplier matches on its id, name, or the phone, e-mail, address or contact it has. */
  predicate CoincideProveedor(p: Proveedor, texto: string) {
    || Incluye(p.idproveedor, texto) || Incluye(p.nombre, texto) || IncluyeOpcional(p.telefono, texto)
    || IncluyeOpcional(p.email, texto) || IncluyeOpcional(p.direccion, texto) || IncluyeOpcional(p.contacto, texto)
  }

  function CoincideProveedorCon(texto: string): Proveedor -> bool {
    p => CoincideProveedor(p, texto)
  }

  /** `proveedoresFiltrados` */
  function ProveedoresFiltrados(proveedores: seq<Proveedor>, filtro: string): (r: seq<Proveedor>)
    ensures IsBlank(filtro) ==> r == proveedores
    ensures !IsBlank(filtro) ==> forall p :: p in r <==> p in proveedores && CoincideProveedor(p, Texto(filtro))
    ensures !IsBlank(filtro) ==> SubsecuenciaDeLosQue(proveedores, CoincideProveedorCon(Texto(filtro)), r)
  {
    if IsBlank(filtro) then proveedores
    else
      var keep := CoincideProveedorCon(Texto(filtro));
      FiltrarSelecciona(proveedores, keep);
      forall p ensures p in Filtrar(proveedores, keep) <==> p in proveedores && keep(p) {
        FiltrarPertenece(proveedores, keep, p);
      }
      Filtrar(proveedores, keep)
  }

  /** Searching for a supplier's name shows that supplier. */
  lemma {:induction false} ProveedorBuscadoPorNombre(proveedores: seq<Proveedor>, p: Proveedor)
    requires p in proveedores && !IsBlank(p.nombre)
    ensures p in ProveedoresFiltrados(proveedores, p.nombre)
  {
    IncluyeSuPropioTexto(p.nombre);
  }

  /**
    A supplier without phone, e-mail, address or contact is found only through its id or
    name, whatever the filter.
   */
  lemma {:induction false} ProveedorSinDatosOpcionales(proveedores: seq<Proveedor>, p: Proveedor, filtro: string)
    requires p in proveedores && !IsBlank(filtro)
    requires p.telefono.None? && p.email.None? && p.direccion.None? && p.contacto.None?
    ensures p in ProveedoresFiltrados(proveedores, filtro) <==>
              Incluye(p.idproveedor, Texto(filtro)) || Incluye(p.nombre, Texto(filtro))
  {
  }

  // ---------------------------------------------------------------------------
  // ListClientes

  /** A client matches on its id, name, creation date, or the phone, e-mail or address it has. */
  predicate CoincideCliente(c: Cliente, texto: string) {
    || Incluye(c.idcliente, texto) || Incluye(c.nombre, texto) || IncluyeOpcional(c.telefono, texto)
    || IncluyeOpcional(c.email, texto) || IncluyeOpcional(c.direccion, texto) || Incluye(c.fechaCreacion, texto)
  }

  function CoincideClienteCon(texto: string): Cliente -> bool {
    c => CoincideCliente(c, texto)
  }

  /** `clientesFiltrados` */
  function ClientesFiltrados(clientes: seq<Cliente>, filtro: string): (r: seq<Cliente>)
    ensures IsBlank(filtro) ==> r == clientes
    ensures !IsBlank(filtro) ==> forall c :: c in r <==> c in clientes && CoincideCliente(c, Texto(filtro))
    ensures !IsBlank(filtro) ==> SubsecuenciaDeLosQue(clientes, CoincideClienteCon(Texto(filtro)), r)
  {
    if IsBlank(filtro) then clientes
    else
      var keep := CoincideClienteCon(Texto(filtro));
      FiltrarSelecciona(clientes, keep);
      forall c ensures c in Filtrar(clientes, keep) <==> c in clientes && keep(c) {
        FiltrarPertenece(clientes, keep, c);
      }
      Filtrar(clientes, keep)
  }

  /** Searching for a client's id shows that client. */
  lemma {:induction false} ClienteBuscadoPorSuId(clientes: seq<Cliente>, c: Cliente)
    requires c in clientes && !IsBlank(c.idcliente)
    ensures c in ClientesFiltrados(clientes, c.idcliente)
  {
    IncluyeSuPropioTexto(c.idcliente);
  }

  // ---------------------------------------------------------------------------
  // ListaArticulos

  /** An article matches on its barcode, id, name or description; price and stock are not searched. */
  predicate CoincideArticulo(a: Articulo, texto: string) {
    Incluye(a.codbarra, texto) || Incluye(a.idarticulo, texto) || Incluye(a.nombre, texto) || IncluyeOpcional(a.descripcion, texto)
  }

  function CoincideArticuloCon(texto: string): Articulo -> bool {
    a => CoincideArticulo(a, texto)
  }

  /** `articulosFiltrados` */
  function ArticulosFiltrados(articulos: seq<Articulo>, filtro: string): (r: seq<Articulo>)
    ensures IsBlank(filtro) ==> r == articulos
    ensures !IsBlank(filtro) ==> forall a :: a in r <==> a in articulos && CoincideArticulo(a, Texto(filtro))
    ensures !IsBlank(filtro) ==> SubsecuenciaDeLosQue(articulos, CoincideArticuloCon(Texto(filtro)), r)
  {
    if IsBlank(filtro) then articulos
    else
      var keep := CoincideArticuloCon(Texto(filtro));
      FiltrarSelecciona(articulos, keep);
      forall a ensures a in Filtrar(articulos, keep) <==> a in articulos && keep(a) {
        FiltrarPertenece(articulos, keep, a);
      }
      Filtrar(articulos, keep)
  }

  /** Scanning an article's barcode into the search box shows that article. */
  lemma {:induction false} ArticuloBuscadoPorCodbarra(articulos: seq<Articulo>, a: Articulo)
    requires a in articulos && !IsBlank(a.codbarra)
    ensures a in ArticulosFiltrados(articulos, a.codbarra)
  {
    IncluyeSuPropioTexto(a.codbarra);
  }

  /** Whether an article is shown does not depend on its price or stock. */
  lemma {:induction false} ArticulosFiltradosIgnoranPrecioYStock(articulos: seq<Articulo>, a: Articulo, filtro: string, precio: int, stock: int)
    requires a in articulos && a.(precio := precio, stock := stock) in articulos
    ensures a in ArticulosFiltrados(articulos, filtro) <==> a.(precio := precio, stock := stock) in ArticulosFiltrados(articulos, filtro)
  {
  }
}
