/**
  The purchase form's cart: the lines of a purchase being put together, each an article
  with a quantity, a unit price and a line total. Adding an article that is already in the
  cart (ids compared case-insensitively) adds to its line; a line can be removed or edited;
  the form shows the running total and refuses to send an empty cart or a purchase
  without a supplier.

  Prices are whole numbers here; the form reads them with `parseFloat`.
 */
module FormCompras {
  import opened Wrappers
  import opened Text
  import ApiCompras

  const CANTIDAD_MINIMA: string := "La cantidad debe ser al menos 1"
  const PRECIO_NO_NEGATIVO: string := "El precio debe ser mayor o igual a 0"
  const CARRITO_VACIO: string := "Debe agregar al menos un art\U{ED}culo a la compra"
  const SIN_PROVEEDOR: string := "Debe seleccionar un proveedor"

  /** A line of the cart. */
  datatype Linea = Linea(idarticulo: string, nombre: string, cantidad: int, total: int, precioUnitario: int)

  /** The article the search found: the fields the form reads; `None` is absent or `null`. */
  datatype ArticuloEncontrado = ArticuloEncontrado(
    id: Option<string>,
    idarticulo: Option<string>,
    nombre: Option<string>,
    precio: Option<int>)

  /** `art.idarticulo ?? art.id ?? ""` */
  function IdDe(art: ArticuloEncontrado): string {
    if art.idarticulo.Some? then art.idarticulo.value else if art.id.Some? then art.id.value else ""
  }

  /** `art.nombre ?? ""` */
  function NombreDe(art: ArticuloEncontrado): string {
    if art.nombre.Some? then art.nombre.value else ""
  }

  // ---------------------------------------------------------------------------
  // What the cart keeps

  /** The line is for article `id`: the ids agree once lower-cased (they are not trimmed). */
  predicate EsDe(l: Linea, id: string) {
    Lower(l.idarticulo) == Lower(id)
  }

  /** No two lines are for the same article. */
  predicate IdsDistintos(lineas: seq<Linea>) {
    forall i, j :: 0 <= i < j < |lineas| ==> Lower(lineas[i].idarticulo) != Lower(lineas[j].idarticulo)
  }

  /** Every line holds at least one unit, a price that is not negative and its own total. */
  predicate LineasValidas(lineas: seq<Linea>) {
    forall i :: 0 <= i < |lineas| ==>
      lineas[i].cantidad >= 1 && lineas[i].precioUnitario >= 0
      && lineas[i].total == lineas[i].cantidad * lineas[i].precioUnitario
  }

  /** `lineas.reduce((sum, l) => sum + l.total, 0)` */
  function Suma(lineas: seq<Linea>): int {
    if lineas == [] then 0 else Suma(lineas[..|lineas| - 1]) + lineas[|lineas| - 1].total
  }

  lemma {:induction false} SumaConcat(a: seq<Linea>, b: seq<Linea>)
    ensures Suma(a + b) == Suma(a) + Suma(b)
    decreases |b|
  {
    if b == [] {
      assert a + b == a;
    } else {
      assert (a + b)[..|a + b| - 1] == a + b[..|b| - 1];
      SumaConcat(a, b[..|b| - 1]);
    }
  }

  /** Replacing one line changes the sum by the difference of the two totals. */
  lemma {:induction false} SumaReemplazo(lineas: seq<Linea>, j: nat, l: Linea)
    requires j < |lineas|
    ensures Suma(lineas[j := l]) == Suma(lineas) - lineas[j].total + l.total
  {
    assert lineas == lineas[..j] + [lineas[j]] + lineas[j + 1..];
    assert lineas[j := l] == lineas[..j] + [l] + lineas[j + 1..];
    SumaConcat(lineas[..j] + [lineas[j]], lineas[j + 1..]);
    SumaConcat(lineas[..j], [lineas[j]]);
    SumaConcat(lineas[..j] + [l], lineas[j + 1..]);
    SumaConcat(lineas[..j], [l]);
  }

  /** Lines that keep their invariant never add up to a negative total. */
  lemma {:induction false} SumaNoNegativa(lineas: seq<Linea>)
    requires LineasValidas(lineas)
    ensures Suma(lineas) >= 0
  {
    if lineas != [] {
      var n := |lineas| - 1;
      assert LineasValidas(lineas[..n]) by {
        forall i | 0 <= i < n ensures lineas[..n][i] == lineas[i] { }
      }
      SumaNoNegativa(lineas[..n]);
      assert lineas[n].cantidad >= 1 && lineas[n].precioUnitario >= 0;
      assert lineas[n].total == lineas[n].cantidad * lineas[n].precioUnitario;
    }
  }

  // ---------------------------------------------------------------------------
  // agregarLinea

  /** Some line of the cart is for article `id`. */
  predicate HayLineaDe(lineas: seq<Linea>, id: string) {
    exists i :: 0 <= i < |lineas| && EsDe(lineas[i], id)
  }

  /** A matching line after adding `cantidad` units at price `precio`. */
  function Sumada(l: Linea, cantidad: int, precio: int): Linea {
    l.(cantidad := l.cantidad + cantidad, total := (l.cantidad + cantidad) * precio, precioUnitario := precio)
  }

  /**
    `agregarLinea(art, cantidad, precio)`: when lines for the article exist, each of them
    gets the units added and the new price; otherwise a new line goes at the end.
   */
  function ConLinea(lineas: seq<Linea>, id: string, nombre: string, cantidad: int, precio: int): (r: seq<Linea>)
    ensures HayLineaDe(lineas, id) ==> |r| == |lineas|
    ensures !HayLineaDe(lineas, id) ==> |r| == |lineas| + 1
    ensures forall i :: 0 <= i < |lineas| ==> r[i].idarticulo == lineas[i].idarticulo
  {
    if HayLineaDe(lineas, id) then
      seq(|lineas|, i requires 0 <= i < |lineas| =>
        if EsDe(lineas[i], id) then Sumada(lineas[i], cantidad, precio) else lineas[i])
    else
      lineas + [Linea(id, nombre, cantidad, cantidad * precio, precio)]
  }

  /**
    Adding an article already in a cart whose ids are distinct updates its one line: the
    quantities add up, the price is the new one and the total is their product. No other
    line changes, and the sum grows by the change of that line's total.
   */
  lemma {:induction false} ConLineaExistente(lineas: seq<Linea>, id: string, nombre: string, cantidad: int, precio: int, j: nat)
    requires IdsDistintos(lineas) && j < |lineas| && EsDe(lineas[j], id)
    ensures var r := ConLinea(lineas, id, nombre, cantidad, precio);
            r == lineas[j := Sumada(lineas[j], cantidad, precio)]
            && r[j].cantidad == lineas[j].cantidad + cantidad && r[j].precioUnitario == precio
            && r[j].total == r[j].cantidad * precio && r[j].nombre == lineas[j].nombre
            && Suma(r) == Suma(lineas) - lineas[j].total + r[j].total
  {
    var r := ConLinea(lineas, id, nombre, cantidad, precio);
    assert HayLineaDe(lineas, id);
    forall i | 0 <= i < |lineas| && i != j
      ensures r[i] == lineas[i]
    {
      if i < j {
        assert Lower(lineas[i].idarticulo) != Lower(lineas[j].idarticulo);
      } else {
        assert Lower(lineas[j].idarticulo) != Lower(lineas[i].idarticulo);
      }
    }
    assert r == lineas[j := Sumada(lineas[j], cantidad, precio)];
    SumaReemplazo(lineas, j, Sumada(lineas[j], cantidad, precio));
  }

  /** Adding an article not in the cart appends its line and leaves the others alone. */
  lemma {:induction false} ConLineaNueva(lineas: seq<Linea>, id: string, nombre: string, cantidad: int, precio: int)
    requires forall i :: 0 <= i < |lineas| ==> !EsDe(lineas[i], id)
    ensures var r := ConLinea(lineas, id, nombre, cantidad, precio);
            r[..|lineas|] == lineas && r[|lineas|] == Linea(id, nombre, cantidad, cantidad * precio, precio)
            && Suma(r) == Suma(lineas) + cantidad * precio
  {
    var r := ConLinea(lineas, id, nombre, cantidad, precio);
    assert r[..|lineas|] == lineas;
  }

  /** Adding keeps the ids distinct and grows the cart by at most one line. */
  lemma {:induction false} ConLineaConservaDistintos(lineas: seq<Linea>, id: string, nombre: string, cantidad: int, precio: int)
    requires IdsDistintos(lineas)
    ensures var r := ConLinea(lineas, id, nombre, cantidad, precio);
            IdsDistintos(r) && |lineas| <= |r| <= |lineas| + 1
  {
    var r := ConLinea(lineas, id, nombre, cantidad, precio);
    if !HayLineaDe(lineas, id) {
      forall i, j | 0 <= i < j < |r|
        ensures Lower(r[i].idarticulo) != Lower(r[j].idarticulo)
      {
        if j == |lineas| {
          assert !EsDe(lineas[i], id);
        }
      }
    }
  }

  /** Adding at least one unit at a price that is not negative keeps every line valid. */
  lemma {:induction false} ConLineaConservaValidas(lineas: seq<Linea>, id: string, nombre: string, cantidad: int, precio: int)
    requires LineasValidas(lineas) && cantidad >= 1 && precio >= 0
    ensures LineasValidas(ConLinea(lineas, id, nombre, cantidad, precio))
  {
  }

  // ---------------------------------------------------------------------------
  // quitarLinea

  /** `lineas.filter((_, i) => i !== index)` */
  function SinLinea(lineas: seq<Linea>, index: int): (r: seq<Linea>)
    ensures |r| <= |lineas|
  {
    if lineas == [] then []
    else SinLinea(lineas[..|lineas| - 1], index) + (if |lineas| - 1 == index then [] else [lineas[|lineas| - 1]])
  }

  /**
    Removing line `index` takes out exactly that line and keeps the rest in order; an
    index that names no line leaves the cart as it is.
   */
  lemma {:induction false} SinLineaQuitaUna(lineas: seq<Linea>, index: int)
    ensures SinLinea(lineas, index) == if 0 <= index < |lineas| then lineas[..index] + lineas[index + 1..] else lineas
  {
    if lineas != [] {
      var n := |lineas| - 1;
      var ini := lineas[..n];
      SinLineaQuitaUna(ini, index);
      if 0 <= index < n {
        assert ini[..index] == lineas[..index];
        assert ini[index + 1..] + [lineas[n]] == lineas[index + 1..];
      } else if index == n {
        assert ini == lineas[..index];
      } else {
        assert ini + [lineas[n]] == lineas;
      }
    }
  }

  /** Removing a line takes its total off the sum. */
  lemma {:induction false} SinLineaSuma(lineas: seq<Linea>, index: nat)
    requires index < |lineas|
    ensures Suma(SinLinea(lineas, index)) == Suma(lineas) - lineas[index].total
  {
    SinLineaQuitaUna(lineas, index);
    SumaSinUna(lineas, index);
  }

  /** Leaving line `index` out of the list takes its total off the sum. */
  lemma {:induction false} SumaSinUna(lineas: seq<Linea>, index: nat)
    requires index < |lineas|
    ensures Suma(lineas[..index] + lineas[index + 1..]) == Suma(lineas) - lineas[index].total
  {
    var c := lineas[index..];
    SumaPartida(lineas, index);
    SumaCabeza(c);
    assert c[0] == lineas[index] && c[1..] == lineas[index + 1..];
    SumaConcat(lineas[..index], lineas[index + 1..]);
  }

  /** The sum of a non-empty cart is its first line's total plus the sum of the others. */
  lemma {:induction false} SumaCabeza(lineas: seq<Linea>)
    requires lineas != []
    ensures Suma(lineas) == lineas[0].total + Suma(lineas[1..])
  {
    assert lineas == [lineas[0]] + lineas[1..];
    SumaConcat([lineas[0]], lineas[1..]);
    SumaUna(lineas[0]);
  }

  /** The sum of a cart is the sum of its first `k` lines plus the sum of the rest. */
  lemma {:induction false} SumaPartida(lineas: seq<Linea>, k: nat)
    requires k <= |lineas|
    ensures Suma(lineas) == Suma(lineas[..k]) + Suma(lineas[k..])
  {
    assert lineas[..k] + lineas[k..] == lineas;
    SumaConcat(lineas[..k], lineas[k..]);
  }

  lemma {:induction false} SumaUna(x: Linea)
    ensures Suma([x]) == x.total
  {
    assert [x][..0] == [];
  }

  /** Removing a line keeps the other lines valid and their ids distinct. */
  lemma {:induction false} SinLineaConserva(lineas: seq<Linea>, index: int)
    ensures LineasValidas(lineas) ==> LineasValidas(SinLinea(lineas, index))
    ensures IdsDistintos(lineas) ==> IdsDistintos(SinLinea(lineas, index))
  {
    SinLineaQuitaUna(lineas, index);
    var r := SinLinea(lineas, index);
    if 0 <= index < |lineas| {
      assert forall i :: 0 <= i < |r| ==> r[i] == lineas[if i < index then i else i + 1];
    }
  }

  // ---------------------------------------------------------------------------
  // actualizarLinea

  /**
    `actualizarLinea(index, cantidad, precio)`: refused (the cart stays as it is) for less
    than one unit or a negative price; otherwise line `index` takes the new quantity and
    price, and their product as total.
   */
  function LineaActualizada(lineas: seq<Linea>, index: int, cantidad: int, precio: int): (r: seq<Linea>)
    ensures |r| == |lineas|
    ensures forall i :: 0 <= i < |lineas| ==> r[i].idarticulo == lineas[i].idarticulo
  {
    if cantidad < 1 || precio < 0 then lineas
    else
      seq(|lineas|, i requires 0 <= i < |lineas| =>
        if i == index then lineas[i].(cantidad := cantidad, precioUnitario := precio, total := cantidad * precio)
        else lineas[i])
  }

  /**
    An edit either is refused and changes nothing, or changes line `index` alone, to the
    new quantity, price and total; valid lines and distinct ids survive it.
   */
  lemma {:induction false} LineaActualizadaSoloEsa(lineas: seq<Linea>, index: int, cantidad: int, precio: int)
    ensures var r := LineaActualizada(lineas, index, cantidad, precio);
            (cantidad < 1 || precio < 0 || !(0 <= index < |lineas|) ==> r == lineas)
            && (cantidad >= 1 && precio >= 0 && 0 <= index < |lineas| ==>
                  r == lineas[index := Linea(lineas[index].idarticulo, lineas[index].nombre, cantidad, cantidad * precio, precio)]
                  && Suma(r) == Suma(lineas) - lineas[index].total + cantidad * precio)
            && (LineasValidas(lineas) ==> LineasValidas(r))
            && (IdsDistintos(lineas) ==> IdsDistintos(r))
  {
    var r := LineaActualizada(lineas, index, cantidad, precio);
    if cantidad >= 1 && precio >= 0 && 0 <= index < |lineas| {
      var l := Linea(lineas[index].idarticulo, lineas[index].nombre, cantidad, cantidad * precio, precio);
      assert r == lineas[index := l];
      SumaReemplazo(lineas, index, l);
      ReemplazoConserva(lineas, index, l);
    } else if cantidad >= 1 && precio >= 0 {
      assert r == lineas;
    }
  }

  /** Replacing a line by a valid one for the same article keeps the cart valid and its articles distinct. */
  lemma {:induction false} ReemplazoConserva(lineas: seq<Linea>, j: nat, l: Linea)
    requires j < |lineas| && l.idarticulo == lineas[j].idarticulo
    requires l.cantidad >= 1 && l.precioUnitario >= 0 && l.total == l.cantidad * l.precioUnitario
    ensures LineasValidas(lineas) ==> LineasValidas(lineas[j := l])
    ensures IdsDistintos(lineas) ==> IdsDistintos(lineas[j := l])
  {
    var r := lineas[j := l];
    assert forall i :: 0 <= i < |r| ==> r[i].idarticulo == lineas[i].idarticulo;
  }

  // ---------------------------------------------------------------------------
  // handleAgregarAlCarrito

  /**
    The quantity and price `handleAgregarAlCarrito` adds, or the error it shows.
    `cantidadActual` is the quantity field, read with `parseInt`; `precioLeido` is what
    `parseFloat` reads from the price field (`None` for `NaN`). A quantity that does not
    parse or is 0 becomes 1; a price that does not parse or is 0 falls back to the
    article's price, then to 0.
   */
  function ValoresParaAgregar(cantidadActual: string, precioLeido: Option<int>, precioArticulo: Option<int>): (r: Result<(int, int), string>)
    ensures (NumOrZero(ParseInt(cantidadActual)) >= 0 && NumOrZero(precioLeido) >= 0
             && (NumOrZero(precioLeido) != 0 || NumOrZero(precioArticulo) >= 0)) ==> r.Success?
    ensures NumOrZero(ParseInt(cantidadActual)) < 0 ==> r == Failure(CANTIDAD_MINIMA)
    ensures r.Success? ==>
              r.value.0 >= 1 && r.value.1 >= 0
              && r.value.0 == (if NumOrZero(ParseInt(cantidadActual)) == 0 then 1 else NumOrZero(ParseInt(cantidadActual)))
              && (NumOrZero(precioLeido) != 0 ==> r.value.1 == precioLeido.value)
              && (NumOrZero(precioLeido) == 0 && NumOrZero(precioArticulo) != 0 ==> r.value.1 == precioArticulo.value)
              && (NumOrZero(precioLeido) == 0 && NumOrZero(precioArticulo) == 0 ==> r.value.1 == 0)
    ensures NumOrZero(ParseInt(cantidadActual)) >= 0 && r.Failure? ==>
              r.error == PRECIO_NO_NEGATIVO
              && (NumOrZero(precioLeido) < 0 || (NumOrZero(precioLeido) == 0 && NumOrZero(precioArticulo) < 0))
  {
    var leida := NumOrZero(ParseInt(cantidadActual));
    var cant := if leida != 0 then leida else 1;
    var prec := if NumOrZero(precioLeido) != 0 then precioLeido.value
                else if NumOrZero(precioArticulo) != 0 then precioArticulo.value
                else 0;
    if cant < 1 then Failure(CANTIDAD_MINIMA)
    else if prec < 0 then Failure(PRECIO_NO_NEGATIVO)
    else Success((cant, prec))
  }

  // ---------------------------------------------------------------------------
  // handleSubmit

  /** A line as the form sends it: the unit price is dropped. */
  datatype ArticuloDeCompra = ArticuloDeCompra(idarticulo: string, nombre: string, cantidad: int, total: int)

  /** The body the form sends. */
  datatype EnvioCompra = EnvioCompra(fecha: string, proveedor: string, articulos: seq<ArticuloDeCompra>, total: int)

  function SinPrecio(l: Linea): ArticuloDeCompra {
    ArticuloDeCompra(l.idarticulo, l.nombre, l.cantidad, l.total)
  }

  function SumaArticulos(articulos: seq<ArticuloDeCompra>): int {
    if articulos == [] then 0 else SumaArticulos(articulos[..|articulos| - 1]) + articulos[|articulos| - 1].total
  }

  /**
    What `handleSubmit` sends, or the error it shows: an empty cart and a blank supplier
    are refused, in that order; otherwise the trimmed date and supplier, the lines without
    their unit price, and the cart's total.
   */
  function Envio(lineas: seq<Linea>, fecha: string, proveedor: string): (r: Result<EnvioCompra, string>)
    ensures lineas == [] ==> r == Failure(CARRITO_VACIO)
    ensures lineas != [] && IsBlank(proveedor) ==> r == Failure(SIN_PROVEEDOR)
    ensures r.Success? <==> lineas != [] && !IsBlank(proveedor)
    ensures r.Success? ==>
              r.value.fecha == Trim(fecha) && r.value.proveedor == Trim(proveedor) && !IsBlank(r.value.proveedor)
              && |r.value.articulos| == |lineas|
              && (forall i :: 0 <= i < |lineas| ==>
                    r.value.articulos[i].idarticulo == lineas[i].idarticulo && r.value.articulos[i].nombre == lineas[i].nombre
                    && r.value.articulos[i].cantidad == lineas[i].cantidad && r.value.articulos[i].total == lineas[i].total)
  {
    if lineas == [] then Failure(CARRITO_VACIO)
    else if IsBlank(proveedor) then Failure(SIN_PROVEEDOR)
    else
      TrimIdempotent(proveedor);
      Success(EnvioCompra(Trim(fecha), Trim(proveedor), seq(|lineas|, i requires 0 <= i < |lineas| => SinPrecio(lineas[i])), Suma(lineas)))
  }

  lemma {:induction false} SumaSinPrecio(lineas: seq<Linea>, articulos: seq<ArticuloDeCompra>)
    requires |articulos| == |lineas| && forall i :: 0 <= i < |lineas| ==> articulos[i].total == lineas[i].total
    ensures SumaArticulos(articulos) == Suma(lineas)
  {
    if lineas != [] {
      var n := |lineas| - 1;
      SumaSinPrecio(lineas[..n], articulos[..n]);
    }
  }

  /**
    The total the form sends is the sum of the totals of the lines it sends; for a cart
    whose lines keep their invariant it is not negative.
   */
  lemma {:induction false} EnvioTotalCuadra(lineas: seq<Linea>, fecha: string, proveedor: string)
    requires Envio(lineas, fecha, proveedor).Success?
    ensures var e := Envio(lineas, fecha, proveedor).value;
            e.total == SumaArticulos(e.articulos) && (LineasValidas(lineas) ==> e.total >= 0)
  {
    var e := Envio(lineas, fecha, proveedor).value;
    SumaSinPrecio(lineas, e.articulos);
    if LineasValidas(lineas) {
      SumaNoNegativa(lineas);
    }
  }

  // ---------------------------------------------------------------------------
  // The form

  /** The state of the purchase form that the cart operations change. */
  class Carrito {
    var lineas: seq<Linea>
    var error: string

    /** A new purchase: an empty cart and no error. */
    constructor ()
      ensures lineas == [] && error == ""
    {
      lineas := [];
      error := "";
    }

    /** `totalCompra`, as shown under the cart. */
    function TotalCompra(): (t: int)
      reads this
      ensures LineasValidas(lineas) ==> t >= 0
    {
      if LineasValidas(lineas) then SumaNoNegativa(lineas); Suma(lineas) else Suma(lineas)
    }

    method AgregarLinea(art: ArticuloEncontrado, cantidad: int, precio: int)
      modifies this`lineas
      ensures lineas == ConLinea(old(lineas), IdDe(art), NombreDe(art), cantidad, precio)
      ensures IdsDistintos(old(lineas)) ==> IdsDistintos(lineas)
    {
      if IdsDistintos(lineas) {
        ConLineaConservaDistintos(lineas, IdDe(art), NombreDe(art), cantidad, precio);
      }
      lineas := ConLinea(lineas, IdDe(art), NombreDe(art), cantidad, precio);
    }

    method QuitarLinea(index: int)
      modifies this`lineas
      ensures lineas == SinLinea(old(lineas), index)
      ensures 0 <= index < |old(lineas)| ==> lineas == old(lineas)[..index] + old(lineas)[index + 1..]
      ensures !(0 <= index < |old(lineas)|) ==> lineas == old(lineas)
    {
      SinLineaQuitaUna(lineas, index);
      lineas := SinLinea(lineas, index);
    }

    method ActualizarLinea(index: int, cantidad: int, precio: int)
      modifies this`lineas
      ensures lineas == LineaActualizada(old(lineas), index, cantidad, precio)
      ensures LineasValidas(old(lineas)) ==> LineasValidas(lineas)
      ensures IdsDistintos(old(lineas)) ==> IdsDistintos(lineas)
    {
      LineaActualizadaSoloEsa(lineas, index, cantidad, precio);
      lineas := LineaActualizada(lineas, index, cantidad, precio);
    }

    /**
      `handleAgregarAlCarrito`: nothing happens without a found article; an invalid
      quantity or price shows its error; otherwise the error is cleared and the line added,
      which keeps every line valid.
     */
    method AgregarAlCarrito(art: Option<ArticuloEncontrado>, cantidadActual: string, precioLeido: Option<int>)
      modifies this`lineas, this`error
      ensures art.None? ==> lineas == old(lineas) && error == old(error)
      ensures art.Some? ==>
                var v := ValoresParaAgregar(cantidadActual, precioLeido, art.value.precio);
                (v.Failure? ==> lineas == old(lineas) && error == v.error)
                && (v.Success? ==> error == "" && lineas == ConLinea(old(lineas), IdDe(art.value), NombreDe(art.value), v.value.0, v.value.1))
      ensures LineasValidas(old(lineas)) ==> LineasValidas(lineas)
      ensures IdsDistintos(old(lineas)) ==> IdsDistintos(lineas)
    {
      if art.None? {
        return;
      }
      var v := ValoresParaAgregar(cantidadActual, precioLeido, art.value.precio);
      if v.Failure? {
        error := v.error;
        return;
      }
      error := "";
      if LineasValidas(lineas) {
        ConLineaConservaValidas(lineas, IdDe(art.value), NombreDe(art.value), v.value.0, v.value.1);
      }
      AgregarLinea(art.value, v.value.0, v.value.1);
    }

    /** `handleSubmit` up to the request: the body to send, or the error it shows. */
    method Enviar(fecha: string, proveedor: string) returns (envio: Option<EnvioCompra>)
      modifies this`error
      ensures var r := Envio(lineas, fecha, proveedor);
              (r.Failure? ==> envio.None? && error == r.error)
              && (r.Success? ==> envio == Some(r.value) && error == "")
    {
      var r := Envio(lineas, fecha, proveedor);
      if r.Failure? {
        error := r.error;
        return None;
      }
      error := "";
      return Some(r.value);
    }
  }

  // ---------------------------------------------------------------------------
  // What the route makes of the form's body

  /**
    The fields `POST /api/compras` reads from the form's body: it takes a single article
    (`idarticulo`, `articulo`, `cantidad`, `precio`), none of which the body has.
   */
  function PedidoDelEnvio(e: EnvioCompra): ApiCompras.PedidoCompra {
    ApiCompras.PedidoCompra(Some(e.fecha), Some(e.proveedor), None, None, None, None)
  }

  /** As written, the route refuses every purchase the form sends. */
  lemma {:induction false} EnvioRechazadoPorLaRuta(lineas: seq<Linea>, fecha: string, proveedor: string, hoy: string)
    requires Envio(lineas, fecha, proveedor).Success?
    ensures ApiCompras.CompraDelPedido(PedidoDelEnvio(Envio(lineas, fecha, proveedor).value), hoy)
            == Failure(ApiCompras.PROVEEDOR_Y_ARTICULO)
  {
  }

  /** One request per line, in the single-article form the route reads. */
  function PedidosDelCarrito(lineas: seq<Linea>, fecha: string, proveedor: string): (r: seq<ApiCompras.PedidoCompra>)
    ensures |r| == |lineas|
  {
    seq(|lineas|, i requires 0 <= i < |lineas| =>
      ApiCompras.PedidoCompra(Some(Trim(fecha)), Some(Trim(proveedor)), Some(lineas[i].idarticulo), Some(lineas[i].nombre),
                              Some(lineas[i].cantidad), Some(lineas[i].precioUnitario)))
  }

  /**
    A cart the form would send, whose lines are valid and name their article, is accepted
    line by line: each purchase records that line's article, quantity and unit price from
    that supplier.
   */
  lemma {:induction false} PedidosDelCarritoAceptados(lineas: seq<Linea>, fecha: string, proveedor: string, hoy: string, i: nat)
    requires Envio(lineas, fecha, proveedor).Success? && LineasValidas(lineas) && i < |lineas|
    requires !IsBlank(lineas[i].idarticulo) && !IsBlank(lineas[i].nombre)
    ensures var c := ApiCompras.CompraDelPedido(PedidosDelCarrito(lineas, fecha, proveedor)[i], hoy);
            c.Success? && c.value.idarticulo == Trim(lineas[i].idarticulo) && c.value.articulo == Trim(lineas[i].nombre)
            && c.value.proveedor == Trim(proveedor) && c.value.cantidad == lineas[i].cantidad
            && c.value.precio == lineas[i].precioUnitario
  {
    TrimIdempotent(proveedor);
    var p := PedidosDelCarrito(lineas, fecha, proveedor)[i];
    assert !IsBlankOpt(p.proveedor) && !IsBlankOpt(p.articulo) && !IsBlankOpt(p.idarticulo);
  }
}
