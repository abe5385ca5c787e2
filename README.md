# Inventario on Google Sheets — a Dafny model

The application is a small inventory system for a shop. It keeps its data in one Google
spreadsheet with five tabs:

- `articulos`: the articles, with barcode, id, name, description, price, stock and category;
- `ventas`: the sales;
- `compras`: the purchases;
- `proveedores`: the suppliers;
- `clientes`: the clients.

Each tab is a header row followed by data rows. The server library `src/lib/google-sheets.ts`:

- reads a tab by resolving column names against lists of accepted header aliases;
- finds rows by id, trimmed and case-insensitively;
- writes single cells through A1 addresses (`toCol`);
- rewrites or deletes whole rows;
- appends new rows, generating the next numeric id where the system assigns ids.

On top of that library:

- The API routes create sales, purchases, articles, suppliers and clients.
  - A sale takes its quantities off stock and gives them back when the sale cannot be stored.
  - A purchase records the new price and adds the quantity to stock, and takes the quantity back when the purchase cannot be stored.
  - The article search and the barcode check answer the forms.
- In the browser, the purchase form keeps a cart of lines.
- Five list components filter their rows by a free-text filter.

The model represents:

- a tab as a `seq<seq<string>>`, a header row and then the data rows;
- the spreadsheet as a class `GoogleSheets.Spreadsheet`, with one such field per tab;
- each read (`getArticulos`, `getVentas`, …) as a function from a tab to a list of records.

The writers are methods that change exactly the cells the source writes. Their contracts do two things:

- state the new tab;
- relate it to the records the readers see afterwards.

The route handlers are methods on the spreadsheet. Their request bodies are datatypes whose absent fields are `None`.

The purchase form's cart is a class `FormCompras.Carrito` whose methods mirror the form's callbacks. The list filters are functions in `Listados`.

Modules, in dependency order:

| module | file | what it holds |
|---|---|---|
| `Wrappers` | wrappers.dfy | `Option`, `Result`, `Outcome` |
| `Text` | text.dfy | trim, lower case, substring search, decimal integers (`parseInt`, `String(n)`) |
| `SheetTable` | sheet_table.dfy | tabs and cells, header alias resolution, `toCol` and A1 addresses, row lookup, row writes and deletes |
| `Records` | records.dfy | the five readers, the article lookup, the existence predicates, the views of stock and price writes |
| `Stock` | stock.dfy | the stock primitives as functions on the article list |
| `Ids` | ids.dfy | `generarSiguienteId*` |
| `VentasTab`, `ComprasTab`, `ArticulosTab`, `Directorio` | ventas_tab.dfy, compras_tab.dfy, articulos_tab.dfy, directorio.dfy | the row layouts the writers use, the update merges, what each write looks like through the reader |
| `GoogleSheets` | google_sheets.dfy | the class `Spreadsheet` and its writer methods |
| `Respuestas` | respuestas.dfy | the answer of a route, request field helpers, uniqueness of keys |
| `ApiVentas`, `ApiCompras`, `ApiArticulos`, `ApiDirectorio` | api_*.dfy | the route handlers |
| `FormCompras` | form_compras.dfy | the purchase cart |
| `Listados` | listados.dfy | the list filters |

## Model

| member | source | states |
|---|---|---|
| Text.TrimIdempotent | src/lib/google-sheets.ts:142 | trimming a trimmed string changes nothing, so values written trimmed read back as written |
| Text.IntToStringRoundTrip | src/lib/google-sheets.ts:350-355 | a number written as `String(n)` is read back by `parseInt` as `n` |
| Text.IntToStringInjective | src/lib/google-sheets.ts:757 | two different numbers never print as the same id |
| Text.ParseIntOfTrimmed | src/lib/google-sheets.ts:754 | a cell holding a natural number's decimal text between blanks is read as that number |
| SheetTable.Window | src/lib/google-sheets.ts:113-116 | a read sees at most the 26 columns `A:Z` of a row, as a prefix of it |
| SheetTable.HeaderMatchesLowerKey | src/lib/google-sheets.ts:126 | a header matches a lower-case alias exactly when its trimmed, lower-cased text equals the alias |
| SheetTable.FindHeader | src/lib/google-sheets.ts:126 | the column found for one alias is inside the header row and its header matches the alias |
| SheetTable.FindHeaderFirst | src/lib/google-sheets.ts:126 | no column before the one found matches, and when none is found no column matches |
| SheetTable.HeaderIndex | src/lib/google-sheets.ts:124-130 | the column resolved for a list of aliases is -1 or a column of the header row |
| SheetTable.HeaderIndexDecided | src/lib/google-sheets.ts:124-130 | the resolved column is the first match of the first alias that matches at all, after every earlier alias matched nothing; -1 when no alias matches |
| SheetTable.HeaderIndexMatches | src/lib/google-sheets.ts:124-130 | a resolved column's header names one of the aliases |
| SheetTable.HeaderIndexPrefix | src/lib/google-sheets.ts:254 | appending aliases to a list that already resolves does not move the column; the writers' longer id list finds the reader's id column |
| SheetTable.DistinctColumns | src/lib/google-sheets.ts:131-139 | two fields whose alias lists share no alias never resolve to the same column |
| SheetTable.ExactHeaderIndex | src/lib/google-sheets.ts:576-577 | the sales lookup compares the untrimmed, lower-cased header with the key and returns the first such column, or -1 when there is none |
| SheetTable.ToCol | src/lib/google-sheets.ts:345-346 | a column name is a non-empty string of the letters A to Z |
| SheetTable.FromColToCol | src/lib/google-sheets.ts:345-346 | reading a column name back gives the index it was made from |
| SheetTable.ToColFromCol | src/lib/google-sheets.ts:345-346 | every non-empty string of letters A to Z is the name of some column, so the naming is a bijection |
| SheetTable.ToColInjective | src/lib/google-sheets.ts:345-346 | two columns never share a name |
| SheetTable.ToColExamples | src/lib/google-sheets.ts:345-346 | 0 is A, 25 is Z, 26 is AA, 51 is AZ and 52 is BA |
| SheetTable.A1RoundTrip | src/lib/google-sheets.ts:347 | the address `${toCol(col)}${row + 1}` designates exactly that column and row |
| SheetTable.SetCell | src/lib/google-sheets.ts:347-355 | a cell write keeps the row's length, or pads a short row up to the written column |
| SheetTable.CellAfterSet | src/lib/google-sheets.ts:347-355 | after a write the written cell reads as the trimmed value and every other cell reads as before |
| SheetTable.WriteRange | src/lib/google-sheets.ts:266-284 | a range write replaces the first cells of the row with the values and keeps the cells after them |
| SheetTable.HeadersAfterRowUpdate | src/lib/google-sheets.ts:279-284 | rewriting a data row leaves the header row alone |
| SheetTable.RemoveRow | src/lib/google-sheets.ts:537-555 | deleting a row keeps the rows above it and shifts every row below it up by one |
| SheetTable.FindRow | src/lib/google-sheets.ts:259-261 | the row found is a data row whose trimmed, lower-cased cell equals the trimmed, lower-cased key, and no data row above it matches; -1 when none matches |
| SheetTable.FindRowIs | src/lib/google-sheets.ts:259-261 | a matching data row with no match above it is the row the lookup returns |
| SheetTable.FindRowExact | src/lib/google-sheets.ts:645-648 | the sales lookup finds the first data row whose trimmed cell equals the trimmed key with case kept |
| SheetTable.FindRowExactIs | src/lib/google-sheets.ts:645-648 | a data row holding the trimmed key with no such row above it is the row found |
| SheetTable.RowNumber | src/lib/google-sheets.ts:649-652 | without an id column, a key designates a data row exactly when `parseInt` reads it as a number from 1 to the last row, and then it is that row |
| SheetTable.CellTrimmed | src/lib/google-sheets.ts:142 | every cell a reader returns is already trimmed |
| SheetTable.LocateById | src/lib/google-sheets.ts:241-264 | the lookup of the row writers fails exactly when there is no data row, no id column or no matching row; it fails with 'not found' unless the id column is missing; on success it gives a data row |
| SheetTable.MapDataRowsRemoved | src/lib/google-sheets.ts:589 | a reader that maps every data row to a record independently of its position loses exactly record `r - 1` when data row `r` is deleted, the others keeping their order |
| Records.ArticuloAliasesDisjoint | src/lib/google-sheets.ts:131-139 | no two article fields share a header alias |
| Records.ArticuloAliasesLowerCase | src/lib/google-sheets.ts:131-139 | the article aliases are lower case, so the case-insensitive comparison is a plain equality |
| Records.ArticuloWriteAliasesLowerCase | src/lib/google-sheets.ts:254 | the id aliases of the article writers are lower case |
| Records.ProveedorAliasesLowerCase | src/lib/google-sheets.ts:819-826 | the supplier aliases are lower case |
| Records.ClienteAliasesLowerCase | src/lib/google-sheets.ts:1249-1265 | the client aliases are lower case |
| Records.CompraAliasesLowerCase | src/lib/google-sheets.ts:1027-1035 | the purchase aliases are lower case |
| Records.VentaKeysLowerCase | src/lib/google-sheets.ts:579-587 | the sales header keys are lower case |
| Records.OptCell | src/lib/google-sheets.ts:153 | an optional field is present exactly when its column exists and its cell is not empty, and then it is the cell |
| Records.ReadOptional | src/lib/google-sheets.ts:153 | an optional value that is written and read back is present exactly when it was given and not empty |
| Records.OptionalCellReadBack | src/lib/google-sheets.ts:210 | an optional trimmed value written as `x ?? ''` reads back as that value, or as absent when it was absent or empty |
| Records.SameKeyBlank | src/lib/google-sheets.ts:175-176 | a key that matches another, trimmed and lower-cased, is blank exactly when the other is |
| Records.LocateByIdMatchesList | src/lib/google-sheets.ts:254-264 | the row writers find the row of the first listed record whose id matches the key |
| Records.FindRowMatchesList | src/lib/google-sheets.ts:259-261 | the first data row whose id cell matches the key holds the first matching id of the list read from the tab |
| Records.ParseArticulosWith | src/lib/google-sheets.ts:141-158 | `getArticulos` gives one article per data row, read from that row |
| Records.StockWithoutColumn | src/lib/google-sheets.ts:143-147 | without a stock column every article reads a stock of 0 |
| Records.NumEmpty | src/lib/google-sheets.ts:143-147 | an empty cell reads as the number 0 |
| Records.ArticuloColsDistinct | src/lib/google-sheets.ts:131-139 | the stock and price columns, when found, differ from every other article column |
| Records.NumAfterWrite | src/lib/google-sheets.ts:347-355 | a number written into a cell reads back as that number |
| Records.ArticulosAfterRowUpdate | src/lib/google-sheets.ts:141-158 | replacing one data row changes only the article read from that row |
| Records.ColumnsApart | src/lib/google-sheets.ts:131-139 | a stock or price column that is found lies inside the columns read and holds no other field |
| Records.ParseArticuloAfterStockWrite | src/lib/google-sheets.ts:347-355 | writing a number into the stock cell sets that article's stock and nothing else |
| Records.ParseArticuloAfterPrecioWrite | src/lib/google-sheets.ts:441-453 | writing a number into the price cell sets that article's price and nothing else |
| Records.ParseArticuloAfterPrecioStockWrite | src/lib/google-sheets.ts:441-453 | writing a price and then a stock sets that article's price and stock and nothing else |
| Records.FindArticuloFrom | src/lib/google-sheets.ts:365-367 | the article found is the first one whose trimmed, lower-cased id equals the key's |
| Records.ArticuloExisteIffFound | src/lib/google-sheets.ts:173-177 | `articuloExiste` holds exactly when the stock operations' lookup finds the article |
| Records.FindArticuloIdsOnly | src/lib/google-sheets.ts:365-367 | the lookup reads only the ids, so changing stocks and prices never moves it |
| Records.CodbarraExcludesOwnId | src/lib/google-sheets.ts:183-196 | in edit mode an article never clashes with its own barcode |
| Records.CodbarraOnlySelf | src/lib/google-sheets.ts:183-196 | when the only article with the barcode is the excluded one, no clash is reported |
| Records.ArticuloOfRow | src/lib/google-sheets.ts:141-158 | the article at position `k` is read from data row `k + 1` |
| Records.StockWriteView | src/lib/google-sheets.ts:345-355 | writing `n` into the stock cell of an article's row makes the list show that article with stock `n` and every other article unchanged |
| Records.PrecioWriteView | src/lib/google-sheets.ts:441-453 | writing a price into an article's row changes only that article's price in the list |
| Records.PrecioStockWriteView | src/lib/google-sheets.ts:441-453 | the two-cell write of a purchase changes only that article's price and stock in the list |
| Records.WriterFindsArticulo | src/lib/google-sheets.ts:328-342 | the writers' id column is the reader's, and the writers' row lookup finds the row of the article the reader's lookup finds |
| Records.RowOfArticulo | src/lib/google-sheets.ts:337-342 | the row lookup on the id column finds the data row of the first matching article |
| Records.ParseVentas | src/lib/google-sheets.ts:561-614 | `getVentas` gives one sale per data row, and none without a data row |
| Records.ParseProveedores | src/lib/google-sheets.ts:797-839 | `getProveedores` gives one supplier per data row |
| Records.ParseProveedoresWith | src/lib/google-sheets.ts:828-838 | each supplier is read from its own data row |
| Records.ParseClientes | src/lib/google-sheets.ts:1226-1289 | `getClientes` gives one client per data row |
| Records.ParseClientesWith | src/lib/google-sheets.ts:1268-1288 | each client is read from its own data row |
| Records.ParseCompras | src/lib/google-sheets.ts:1004-1056 | `getCompras` gives one purchase per data row |
| Stock.Subtract | src/lib/google-sheets.ts:362-379 | a success keeps the number of articles; what it yields case by case is stated by `Stock.SubtractSpec` |
| Stock.SubtractSpec | src/lib/google-sheets.ts:362-379 | `descontarStockArticulo` and `restarStockArticulo` on the article list. A blank id or a non-positive quantity changes nothing. An unknown article is 'not found'. A quantity above the stock is the 'insufficient stock' error of each function, with the stock it saw. Otherwise the first matching article loses exactly the quantity and keeps a non-negative stock, and every other article is unchanged |
| Stock.Reposicion | src/lib/google-sheets.ts:479-488 | a success keeps the number of articles; what it yields case by case is stated by `Stock.ReposicionSpec` |
| Stock.ReposicionSpec | src/lib/google-sheets.ts:479-488 | `reponerStockArticulo`: a blank id, a non-positive quantity or an unknown article changes nothing and is no error. Its only error is a missing stock column. Otherwise only the matching article gains the quantity |
| Stock.PrecioYStock | src/lib/google-sheets.ts:385-454 | a success keeps the number of articles; what it yields case by case is stated by `Stock.PrecioYStockSpec` |
| Stock.PrecioYStockSpec | src/lib/google-sheets.ts:385-454 | `actualizarPrecioYStockArticulo`: a blank id changes nothing. An unknown article is 'not found'. A missing column is the columns error. Otherwise the matching article takes the new price and gains the quantity, and nothing else changes |
| Stock.PrecioYStockApplied | src/lib/google-sheets.ts:425-453 | a successful purchase update is one update of the matching article, to the new price and the old stock plus the quantity |
| Stock.ReposicionApplied | src/lib/google-sheets.ts:479-488 | a successful replenishment is one update of the matching article's stock |
| Stock.StockChangesKeepIds | src/lib/google-sheets.ts:365-367 | stock and price changes keep every id, so later lookups and existence checks answer as before |
| Stock.DescuentoThenReposicion | src/lib/google-sheets.ts:362-379 | giving back what a discount took restores the article list exactly |
| Stock.PrecioYStockThenSubtract | src/lib/google-sheets.ts:459-474 | taking back a recorded purchase leaves the list as before except for the new price |
| Stock.SubtractKeepsNonNegative | src/lib/google-sheets.ts:370-376 | a discount or a revert never makes a stock negative |
| Ids.MaxParsedBound | src/lib/google-sheets.ts:750-758 | the running maximum is at least every number `parseInt` reads from an id |
| Ids.MaxParsedAttained | src/lib/google-sheets.ts:750-758 | the maximum is 0 or the number of some id |
| Ids.Larger | src/lib/google-sheets.ts:754-755 | one step of the loop keeps the larger of the maximum and the number read |
| Ids.SiguienteId | src/lib/google-sheets.ts:750-758 | the loop over the ids computes the next id, one more than the largest number read |
| Ids.SiguienteIdFresh | src/lib/google-sheets.ts:750-758 | the next id differs from every existing id once trimmed |
| Ids.SiguienteIdFreshLower | src/lib/google-sheets.ts:1306-1314 | the next id differs from every existing id even compared case-insensitively |
| Ids.SiguienteIdTrimmed | src/lib/google-sheets.ts:757 | the next id has no surrounding blanks |
| VentasTab.LocateVenta | src/lib/google-sheets.ts:641-655 | the sales writers' lookup. With an `idventa` column it finds the first data row holding the trimmed key. Without one it takes the row number `parseInt` reads. It fails with 'Venta no encontrada' |
| VentasTab.FindVentaFrom | src/lib/google-sheets.ts:723 | `ventas.find` returns the first sale whose trimmed id equals the trimmed key |
| VentasTab.VentaOfRow | src/lib/google-sheets.ts:589-613 | sale `j` is read from data row `j + 1` |
| VentasTab.ListedIdMatches | src/lib/google-sheets.ts:597 | a listed sale's id matches the key exactly when its row's `idventa` cell does |
| VentasTab.LocateVentaFindsListed | src/lib/google-sheets.ts:641-655 | the writers delete or rewrite the row of the sale the list shows under the key |
| VentasTab.LocateByIdVentaColumn | src/lib/google-sheets.ts:645-648 | with an `idventa` column the row found is that of the first listed sale with the key |
| VentasTab.LocatedVentaListed | src/lib/google-sheets.ts:645-648 | with an `idventa` column, a row the writers find is the row of the first listed sale with the key |
| VentasTab.LocateByRowNumber | src/lib/google-sheets.ts:649-652 | without an `idventa` column a sale is listed under its row number, which the writers read back |
| VentasTab.MergeVenta | src/lib/google-sheets.ts:726-734 | a merged sale keeps its id |
| VentasTab.MergeVentaLaws | src/lib/google-sheets.ts:726-734 | an empty patch changes nothing, and applying a patch twice is applying it once |
| VentasTab.VentaRowReadBack | src/lib/google-sheets.ts:736-737 | in the layout the writers rely on, a row written with a sale's cells reads back as that sale |
| VentasTab.VentasAfterRowUpdate | src/lib/google-sheets.ts:589-613 | replacing a data row changes only the sale read from it |
| VentasTab.VentaRowRewritten | src/lib/google-sheets.ts:736-744 | rewriting a sale's row shows the new sale in its place and every other sale unchanged |
| VentasTab.VentaActualizada | src/lib/google-sheets.ts:679-745 | the sale the list shows first under the id lies on a data row the lookup finds, and writing the merged sale over that row replaces exactly that sale |
| VentasTab.AppendedVenta | src/lib/google-sheets.ts:781-789 | an appended row adds one sale at the end of the list |
| VentasTab.VentasAfterRemoval | src/lib/google-sheets.ts:657-673 | deleting a sale's row removes exactly that sale from the list and keeps the others in order |
| VentasTab.VentaIds | src/lib/google-sheets.ts:753-756 | the ids of the listed sales, in order |
| VentasTab.InsertedVentaLocated | src/lib/google-sheets.ts:764-790 | a sale appended under the generated id is the one the writers then find under that id |
| VentasTab.NextVentaIdFresh | src/lib/google-sheets.ts:750-758 | no data row holds the generated id in the `idventa` column |
| VentasTab.NextVentaIdFreshAt | src/lib/google-sheets.ts:750-758 | a given data row does not hold the generated id |
| ComprasTab.LocateCompraAsWritten | src/lib/google-sheets.ts:1127-1134 | the purchase writers as written search the `idcompra` column, or column A when there is none, for the trimmed key; they fail when no data row holds it |
| ComprasTab.LocateCompra | src/lib/google-sheets.ts:1127-1134 | the corrected lookup. With an `idcompra` column it is the lookup as written. Without one it takes the row number `parseInt` reads, the id `getCompras` lists |
| ComprasTab.FindCompraFrom | src/lib/google-sheets.ts:1127-1134 | the first listed purchase whose trimmed id equals the trimmed key |
| ComprasTab.CompraOfRow | src/lib/google-sheets.ts:1037-1055 | purchase `j` is read from data row `j + 1` |
| ComprasTab.ListedCompraIdMatches | src/lib/google-sheets.ts:1037-1055 | with an `idcompra` column a listed purchase's id matches the key exactly when its cell does |
| ComprasTab.LocateCompraFindsListed | src/lib/google-sheets.ts:1127-1134 | the corrected lookup finds the row of the purchase the list shows under the key |
| ComprasTab.LocatedCompraListed | src/lib/google-sheets.ts:1127-1134 | with an `idcompra` column, a row found is that of the first listed purchase with the key |
| ComprasTab.LocateByIdCompraColumn | src/lib/google-sheets.ts:1127-1134 | with an `idcompra` column the lookup as written finds the listed purchase |
| ComprasTab.LocateCompraByRowNumber | src/lib/google-sheets.ts:1037-1055 | without an `idcompra` column the corrected lookup finds a purchase under the row number it is listed with |
| ComprasTab.AsWrittenLocatesOtherPurchase | src/lib/google-sheets.ts:1127-1134 | in a tab without an `idcompra` header, the purchase listed as "1" is in data row 1, but the lookup as written designates data row 2 |
| ComprasTab.MergeCompra | src/lib/google-sheets.ts:1140-1148 | a merged purchase keeps its id |
| ComprasTab.MergeCompraLaws | src/lib/google-sheets.ts:1140-1148 | an empty patch changes nothing, and applying a patch twice is applying it once |
| ComprasTab.CompraRowReadBack | src/lib/google-sheets.ts:1150-1159 | in the layout the writers rely on, a row written with a purchase's cells reads back as that purchase |
| ComprasTab.CompraRowRewritten | src/lib/google-sheets.ts:1150-1159 | rewriting a purchase's row shows the new purchase in its place and every other unchanged |
| ComprasTab.CompraActualizada | src/lib/google-sheets.ts:1094-1160 | as written: the purchase the list shows first under the id lies on data row `k + 1`. With an `idcompra` column that is the row the lookup finds, and writing the merged purchase over it replaces exactly that purchase |
| ComprasTab.CompraActualizadaCorregida | src/lib/google-sheets.ts:1094-1160 | with the corrected lookup of the compras finding, the row found is always that of the purchase listed first under the id, with or without an `idcompra` column, and rewriting it replaces exactly that purchase |
| ComprasTab.ComprasAfterRowUpdate | src/lib/google-sheets.ts:1037-1055 | replacing a data row changes only the purchase read from it |
| ComprasTab.AppendedCompra | src/lib/google-sheets.ts:1085-1091 | an appended row adds one purchase at the end of the list |
| ComprasTab.ComprasAfterRemoval | src/lib/google-sheets.ts:1200-1217 | deleting a purchase's row removes exactly that purchase from the list |
| ComprasTab.CompraIds | src/lib/google-sheets.ts:1061-1064 | the ids of the listed purchases, in order |
| ComprasTab.InsertedCompraListed | src/lib/google-sheets.ts:1068-1092 | an inserted purchase is listed last under its generated id, with its fields as given |
| ComprasTab.InsertedCompraLocated | src/lib/google-sheets.ts:1068-1092 | a purchase appended under the generated id is the one the writers then find under that id |
| ComprasTab.NextCompraIdFresh | src/lib/google-sheets.ts:1058-1066 | no data row holds the generated id in the `idcompra` column |
| ComprasTab.NextCompraIdFreshAt | src/lib/google-sheets.ts:1058-1066 | a given data row does not hold the generated id |
| ArticulosTab.ArticuloValues | src/lib/google-sheets.ts:205-214 | an article is written as six cells: barcode, id, name, then the description, price and stock |
| ArticulosTab.ArticuloReadBack | src/lib/google-sheets.ts:205-214 | in the layout the writers rely on, a row written with an article's cells reads back as that article |
| ArticulosTab.ArticuloValuesCategoria | src/lib/google-sheets.ts:216-224 | a freshly appended row has an empty category when the tab has a category column |
| ArticulosTab.AppendedArticulo | src/lib/google-sheets.ts:216-224 | an appended row adds one article at the end of the list |
| ArticulosTab.ParseWithAppend | src/lib/google-sheets.ts:141-158 | reading a tab with one more row gives the same articles followed by the one read from that row |
| ArticulosTab.ArticuloRowRewritten | src/lib/google-sheets.ts:266-284 | rewriting an article's row shows the new article in its place, keeping its category, and every other unchanged |
| ArticulosTab.ArticuloEliminado | src/lib/google-sheets.ts:526-555 | deleting the row the writers find for an existing article removes exactly the article `articuloExiste` found, and no other |
| ArticulosTab.CategoriaKept | src/lib/google-sheets.ts:267 | writing the cells `A:F` leaves the category, read beyond `F`, as it was |
| ArticulosTab.InsertedArticuloListed | src/lib/google-sheets.ts:201-225 | an inserted article is listed last with the fields it was given |
| ArticulosTab.ArticulosAfterRemoval | src/lib/google-sheets.ts:537-555 | deleting an article's row removes exactly that article from the list |
| ArticulosTab.ArticuloIds | src/lib/google-sheets.ts:173-177 | the ids of the listed articles, in order |
| ArticulosTab.LocateArticuloFindsListed | src/lib/google-sheets.ts:254-264 | with an id column the writers find a row exactly when `articuloExiste`, and it is the row of the first listed match |
| ArticulosTab.ArticuloIdsAreCells | src/lib/google-sheets.ts:151 | each listed article id is the id cell of its data row |
| ArticulosTab.InsertedArticuloFound | src/lib/google-sheets.ts:201-225 | an inserted article whose id was new is the one the lookup then finds under that id |
| Directorio.ProveedorValues | src/lib/google-sheets.ts:856-878 | a supplier is written as six cells starting with its id and name |
| Directorio.ProveedorReadBack | src/lib/google-sheets.ts:856-878 | in the layout the writers rely on, a row written with a supplier's cells reads back as that supplier |
| Directorio.ProveedorRowRewritten | src/lib/google-sheets.ts:923-934 | rewriting a supplier's row shows the new supplier in its place |
| Directorio.InsertedProveedorListed | src/lib/google-sheets.ts:856-878 | an inserted supplier is listed last |
| Directorio.ProveedorOfRow | src/lib/google-sheets.ts:828-838 | supplier `j` is read from data row `j + 1` |
| Directorio.AppendedProveedor | src/lib/google-sheets.ts:871-877 | an appended row adds one supplier at the end |
| Directorio.ProveedoresAfterRowUpdate | src/lib/google-sheets.ts:828-838 | replacing a data row changes only the supplier read from it |
| Directorio.ProveedoresAfterRemoval | src/lib/google-sheets.ts:980-995 | deleting a supplier's row removes exactly that supplier from the list |
| Directorio.ProveedorIds | src/lib/google-sheets.ts:850-854 | the ids of the listed suppliers, in order |
| Directorio.LocateProveedorFindsListed | src/lib/google-sheets.ts:904-915 | with an id column the writers find a row exactly when `proveedorExiste`, and it is the row of the first listed match |
| Directorio.ProveedorUpdated | src/lib/google-sheets.ts:880-935 | `actualizarProveedor` replaces exactly the supplier found under the old id with the new one |
| Directorio.InsertedProveedorExiste | src/lib/google-sheets.ts:850-878 | a supplier inserted with its id in column A exists afterwards under that id |
| Directorio.ClienteValues | src/lib/google-sheets.ts:1316-1338 | a client is written as six cells: id, name, contact fields and creation date |
| Directorio.ClienteReadBack | src/lib/google-sheets.ts:1316-1338 | in the layout the writers rely on, a row written with a client's cells reads back as that client |
| Directorio.ClienteRowRewritten | src/lib/google-sheets.ts:1383-1394 | rewriting a client's row shows the new client in its place |
| Directorio.InsertedClienteListed | src/lib/google-sheets.ts:1316-1338 | an inserted client is listed last |
| Directorio.ClienteOfRow | src/lib/google-sheets.ts:1268-1288 | client `j` is read from data row `j + 1` |
| Directorio.AppendedCliente | src/lib/google-sheets.ts:1331-1337 | an appended row adds one client at the end |
| Directorio.ClientesAfterRowUpdate | src/lib/google-sheets.ts:1268-1288 | replacing a data row changes only the client read from it |
| Directorio.ClientesAfterRemoval | src/lib/google-sheets.ts:1440-1455 | deleting a client's row removes exactly that client from the list |
| Directorio.ClienteIds | src/lib/google-sheets.ts:1300-1304 | the ids of the listed clients, in order |
| Directorio.LocateClienteFindsListed | src/lib/google-sheets.ts:1364-1375 | with an id column the writers find a row exactly when `clienteExiste`, and it is the row of the first listed match |
| Directorio.ClienteUpdated | src/lib/google-sheets.ts:1340-1395 | `actualizarCliente` replaces exactly the client found under the old id with the new one |
| Directorio.ClienteIdsAreCells | src/lib/google-sheets.ts:1269-1288 | each listed client id is the id cell of its data row |
| Directorio.NextClienteIdFresh | src/lib/google-sheets.ts:1306-1314 | no listed client has the generated id, and the id has no surrounding blanks |
| Directorio.NextClienteIdFreshAt | src/lib/google-sheets.ts:1306-1314 | no data row holds the generated id in the id column, compared as the writers compare |
| Directorio.InsertedClienteLocated | src/lib/google-sheets.ts:1316-1338 | a client appended under the generated id is the one the writers then find under that id |
| GoogleSheets.WithStockKeepsHeaders | src/lib/google-sheets.ts:345-355 | the stock write leaves the header row alone |
| GoogleSheets.WithPrecioStockKeepsHeaders | src/lib/google-sheets.ts:439-453 | the price-and-stock write leaves the header row alone |
| GoogleSheets.TwoCellWrite | src/lib/google-sheets.ts:441-453 | the two cell writes of a purchase are one update of that article's row |
| GoogleSheets.PrecioStockWriteArticulos | src/lib/google-sheets.ts:441-453 | the two-cell write changes only that article's price and stock in the list |
| GoogleSheets.PrecioStockCells | src/lib/google-sheets.ts:385-454 | the cells the writer updates are exactly the list-level update `PrecioYStock` describes |
| GoogleSheets.StockColumnOfPositive | src/lib/google-sheets.ts:143-155 | an article with a positive stock comes from a tab with a stock column, so a discount that succeeds can always write its cell |
| GoogleSheets.Spreadsheet.constructor | src/lib/google-sheets.ts:109-159 | the spreadsheet holds the five tabs it is given |
| GoogleSheets.Spreadsheet.ActualizarStockArticuloPorId | src/lib/google-sheets.ts:306-356 | with no data row, or a key matching no row, it answers 'not found'. Without an id or a stock column it reports the missing columns. Otherwise it writes the new stock into the stock cell of the first matching row and nothing else. A failure writes nothing |
| GoogleSheets.Spreadsheet.SubtractStock | src/lib/google-sheets.ts:362-379 | the articles afterwards are those `Subtract` gives, and a failure leaves the tab as it was. A real discount writes exactly the stock cell of the matching article's row |
| GoogleSheets.Spreadsheet.DescontarStockArticulo | src/lib/google-sheets.ts:362-379 | discounts a sold quantity as `Subtract` says, writing only that article's stock cell |
| GoogleSheets.Spreadsheet.RestarStockArticulo | src/lib/google-sheets.ts:459-474 | takes back a purchased quantity as `Subtract` says, with the revert's error text |
| GoogleSheets.Spreadsheet.ReponerStockArticulo | src/lib/google-sheets.ts:479-488 | gives back a quantity as `Reposicion` says. An unknown article, a blank id or a non-positive quantity writes nothing |
| GoogleSheets.Spreadsheet.WriteTwoCells | src/lib/google-sheets.ts:444-453 | the batch update rewrites exactly the two cells in one row |
| GoogleSheets.Spreadsheet.ActualizarPrecioYStockArticulo | src/lib/google-sheets.ts:385-454 | the articles afterwards are those `PrecioYStock` gives, and a failure changes nothing. A real update writes the price and stock cells of the matching row only |
| GoogleSheets.Spreadsheet.InsertarArticulo | src/lib/google-sheets.ts:201-225 | appends the article's six cells. In the usual layout the article is listed last with the fields given |
| GoogleSheets.Spreadsheet.ActualizarArticulo | src/lib/google-sheets.ts:230-285 | rewrites the cells `A:F` of the row the lookup finds, and fails without writing when it finds none. With an id column it succeeds exactly when `articuloExiste(idAntiguo)`. In the usual layout the list then shows the new article in the old one's place, with its category kept |
| GoogleSheets.Spreadsheet.EliminarArticulo | src/lib/google-sheets.ts:493-555 | deletes the row the lookup finds, and fails without writing when it finds none. With an id column it succeeds exactly when the article exists, and the list loses exactly that article |
| GoogleSheets.Spreadsheet.EliminarVenta | src/lib/google-sheets.ts:619-674 | deletes the row `LocateVenta` designates or fails without writing. A sale the list shows is always found. With an `idventa` column the list loses exactly that sale |
| GoogleSheets.Spreadsheet.ActualizarVenta | src/lib/google-sheets.ts:679-745 | fails with 'Venta no encontrada' and writes nothing when the list has no sale with the id. Otherwise it writes the merged sale over that sale's row. In the usual layout the list shows the merged sale in its place |
| GoogleSheets.Spreadsheet.SiguienteIdVenta | src/lib/google-sheets.ts:750-758 | the generated sale id is taken by no listed sale |
| GoogleSheets.Spreadsheet.InsertarVenta | src/lib/google-sheets.ts:764-790 | appends the sale's seven cells under the generated id; when the `idventa` column is column A, the sale writers then find the new row under that id |
| GoogleSheets.Spreadsheet.EliminarCompra | src/lib/google-sheets.ts:1162-1218 | as written: deletes the first data row whose cell in the `idcompra` column, or in column A when there is none, holds the trimmed id, and fails without writing when no row does. With an `idcompra` column it succeeds exactly when the list shows a purchase with the id, and the list loses exactly that purchase |
| GoogleSheets.Spreadsheet.EliminarCompraCorregida | src/lib/google-sheets.ts:1162-1218 | the corrected deletion of the compras finding: a purchase the list shows is always found. With an `idcompra` column the list loses exactly that purchase |
| GoogleSheets.Spreadsheet.ActualizarCompra | src/lib/google-sheets.ts:1094-1160 | as written: fails and writes nothing when no data row holds the id in the `idcompra` column, or column A when there is none, or when the list has no purchase with the id. Otherwise it writes the merged purchase over the row found. With an `idcompra` column it succeeds exactly when the list has the purchase. In the usual layout the list shows the merged purchase in its place |
| GoogleSheets.Spreadsheet.ActualizarCompraCorregida | src/lib/google-sheets.ts:1094-1160 | the corrected update of the compras finding: fails and writes nothing exactly when the list has no purchase with the id. Otherwise it writes the merged purchase over that purchase's row. In the usual layout the list shows the merged purchase in its place |
| GoogleSheets.Spreadsheet.SiguienteIdCompra | src/lib/google-sheets.ts:1058-1066 | the generated purchase id is taken by no listed purchase |
| GoogleSheets.Spreadsheet.InsertarCompra | src/lib/google-sheets.ts:1068-1092 | appends the purchase under the generated id. The writers then find it, and in the usual layout it is listed last |
| GoogleSheets.Spreadsheet.InsertarProveedor | src/lib/google-sheets.ts:856-878 | appends the supplier's cells. In the usual layout it is listed last and `proveedorExiste` holds for its id |
| GoogleSheets.Spreadsheet.ActualizarProveedor | src/lib/google-sheets.ts:880-935 | rewrites the row found under the old id or fails without writing. With an id column it succeeds exactly when `proveedorExiste`. In the usual layout exactly the matching supplier is replaced |
| GoogleSheets.Spreadsheet.EliminarProveedor | src/lib/google-sheets.ts:937-996 | deletes the row found under the id, so the list loses exactly that supplier; otherwise it fails without writing. With an id column it succeeds exactly when `proveedorExiste` |
| GoogleSheets.Spreadsheet.SiguienteIdCliente | src/lib/google-sheets.ts:1306-1314 | the generated client id is one no listed client has |
| GoogleSheets.Spreadsheet.InsertarCliente | src/lib/google-sheets.ts:1316-1338 | appends the client's cells. In the usual layout the client is listed last. Under the generated id the writers find it |
| GoogleSheets.Spreadsheet.ActualizarCliente | src/lib/google-sheets.ts:1340-1395 | rewrites the row found under the old id or fails without writing. With an id column it succeeds exactly when `clienteExiste`. In the usual layout exactly the matching client is replaced |
| GoogleSheets.Spreadsheet.EliminarCliente | src/lib/google-sheets.ts:1397-1456 | deletes the row found under the id, so the list loses exactly that client; otherwise it fails without writing. With an id column it succeeds exactly when `clienteExiste` |
| Respuestas.Recortado | src/app/api/ventas/route.ts:58 | `x != null ? String(x).trim() : ""` is empty exactly when the field is absent or blank, and is trimmed |
| Respuestas.RecortadoOpcional | src/app/api/proveedores/route.ts:51-54 | an optional field is present exactly when it was sent, and then trimmed |
| Respuestas.ClaveNuevaConservaUnicas | src/app/api/proveedores/route.ts:40-46 | appending a key that matches no existing non-blank key keeps the keys unique |
| ApiVentas.Descontar | src/app/api/ventas/route.ts:55-68 | the discount loop records only lines with a non-blank id and a positive quantity, at most one per line |
| ApiVentas.Reponer | src/app/api/ventas/route.ts:83-85 | giving back no discount leaves the articles as they were |
| ApiVentas.DescontarSoloStock | src/app/api/ventas/route.ts:55-68 | the loop changes only stocks. Each article loses exactly the units the recorded discounts took from it |
| ApiVentas.ReponerSoloStock | src/app/api/ventas/route.ts:83-85 | the compensation changes only stocks. Each article gains exactly the units the discounts took from it |
| ApiVentas.ReponerDeshaceDescontar | src/app/api/ventas/route.ts:55-87 | giving back every recorded discount restores the articles as they were before the sale |
| ApiVentas.DescontarTrasError | src/app/api/ventas/route.ts:65-68 | once a line fails, the lines after it are not processed |
| ApiVentas.TomadoAlMenos | src/app/api/ventas/route.ts:62 | every recorded discount takes at least its own quantity from its article, and none takes a negative amount |
| ApiVentas.DescuentoFallidoConservaAnteriores | src/app/api/ventas/route.ts:56-68 | when a line fails after earlier lines were discounted, the articles are left changed |
| ApiVentas.DescontarLineas | src/app/api/ventas/route.ts:55-68 | the loop against the spreadsheet leaves the articles that `Descontar` computes, with the same discounts and error |
| ApiVentas.ReponerTodos | src/app/api/ventas/route.ts:83-85 | the compensation leaves the articles that `Reponer` computes, ignoring each replenishment's error |
| ApiVentas.PostVenta | src/app/api/ventas/route.ts:33-96 | `POST /api/ventas` as written. A blank date or no lines is a 400 that changes nothing. A discount error is a 400 with its message that keeps the earlier discounts. A failed save gives every discount back and is a 500. Otherwise the stocks are discounted and one sale row is appended under the next id |
| ApiVentas.PostVentaCompensada | src/app/api/ventas/route.ts:33-96 | the corrected route. Every error, a discount's or the save's, leaves articles and sales as they were. Success is the same as in `PostVenta` |
| ApiCompras.CompraDelPedido | src/app/api/compras/route.ts:43-62 | a blank supplier or article name is the first 400. A blank id, a non-positive quantity or a negative price is the second. An accepted purchase carries the trimmed fields, `Number(x) \|\| 0` of the numbers, and today's date when none is given |
| ApiCompras.CompraAceptadaTrimmed | src/app/api/compras/route.ts:73-80 | an accepted purchase is stored with every text field trimmed |
| ApiCompras.RevertirTrasPrecioYStock | src/app/api/compras/route.ts:83-85 | taking a purchase back after recording it restores the stock but keeps the new price |
| ApiCompras.RevertirCompra | src/app/api/compras/route.ts:83-85 | the compensation against the spreadsheet restores the stock and keeps the new price; it changes nothing when the revert itself fails |
| ApiCompras.AsentarCompra | src/app/api/compras/route.ts:72-87 | a save appends the purchase under the next id and keeps the recorded stock. A failed save is a 500 that takes the quantity back and leaves the purchases unchanged |
| ApiCompras.GuardarCompra | src/app/api/compras/route.ts:64-87 | a failed price-and-stock update is a 400 that changes nothing. Otherwise it records price and stock and then saves or compensates, as `AsentarCompra` says |
| ApiCompras.PostCompra | src/app/api/compras/route.ts:31-95 | `POST /api/compras`: the request's 400s change nothing. An accepted purchase is recorded as `GuardarCompra` says, and in the usual layout it is listed last |
| ApiArticulos.ArticuloDelPedido | src/app/api/articulos/route.ts:36-63 | the request is refused exactly when `idarticulo ?? id` or the name is blank. Otherwise the article carries the trimmed fields and `Number(x) \|\| 0` of price and stock |
| ApiArticulos.AltaArticulo | src/app/api/articulos/route.ts:36-65 | as written: a non-blank barcode another article has is refused; nothing checks the id |
| ApiArticulos.Codbarras | src/app/api/articulos/route.ts:45-54 | the barcodes of the listed articles, in order |
| ApiArticulos.AltaConservaCodbarrasUnicas | src/app/api/articulos/route.ts:45-54 | an accepted article keeps the non-blank barcodes unique |
| ApiArticulos.AltaConIdRepetido | src/app/api/articulos/route.ts:36-65 | an article whose id is taken is accepted, and the id lookups keep finding the older article |
| ApiArticulos.FindArticuloAppended | src/lib/google-sheets.ts:365-367 | appending an article does not move the lookup of an id that already exists |
| ApiArticulos.PostArticulo | src/app/api/articulos/route.ts:32-74 | `POST /api/articulos` as written: a refusal is a 400 that changes nothing. An accepted article is appended, and in the usual layout listed last |
| ApiArticulos.AltaArticuloCorregida | src/app/api/articulos/route.ts:36-65 | the corrected decision also refuses an id some article already has |
| ApiArticulos.AltaCorregidaConservaIdsUnicos | src/app/api/articulos/route.ts:36-65 | under the corrected decision an accepted article keeps the article ids unique |
| ApiArticulos.PostArticuloCorregido | src/app/api/articulos/route.ts:32-74 | the corrected route appends only articles with a new id, and keeps unique ids unique |
| ApiArticulos.PrimeraCoincidencia | src/app/api/articulos/buscar/route.ts:19-27 | the article found is the first that matches the given barcode or the given id |
| ApiArticulos.Buscar | src/app/api/articulos/buscar/route.ts:4-50 | with neither barcode nor id it is a 400. Otherwise it answers the first matching article's fields, with `id` repeating `idarticulo`, or `null` when none matches |
| ApiArticulos.BuscarPorIdComoStock | src/app/api/articulos/buscar/route.ts:19-31 | a search by id alone finds the article the stock operations find, and answers `null` exactly when `articuloExiste` fails |
| ApiArticulos.CheckCodbarra | src/app/api/articulos/check-codbarra/route.ts:4-18 | a blank barcode or a failed read answers false. Otherwise the answer is true exactly when some article has the barcode, compared trimmed and case-insensitively, and is not the article `excluirId` names, when a non-blank one is given |
| ApiArticulos.CheckCodbarraComoAlta | src/app/api/articulos/check-codbarra/route.ts:4-18 | the form's check answers true exactly when the create route would refuse the barcode |
| ApiArticulos.CheckCodbarraExcluyePropio | src/app/api/articulos/check-codbarra/route.ts:4-18 | in edit mode the article's own barcode is not reported as taken |
| ApiDirectorio.AltaProveedor | src/app/api/proveedores/route.ts:27-58 | a blank `idproveedor ?? id` or name is refused. Otherwise it is refused exactly when `proveedorExiste`. An accepted supplier carries the trimmed fields and a new id |
| ApiDirectorio.AltaProveedorConservaIdsUnicos | src/app/api/proveedores/route.ts:40-57 | an accepted supplier keeps the supplier ids unique |
| ApiDirectorio.PostProveedor | src/app/api/proveedores/route.ts:27-66 | a refusal is a 400 that changes nothing. An accepted supplier is appended, and in the usual layout it is listed, exists, and keeps the ids unique |
| ApiDirectorio.ClienteDelPedido | src/app/api/clientes/route.ts:43-53 | the client gets the generated id, today's date and the trimmed, non-blank name |
| ApiDirectorio.AltaClienteConservaIdsUnicos | src/app/api/clientes/route.ts:43-55 | a client created under an id no client has keeps the client ids unique |
| ApiDirectorio.PostCliente | src/app/api/clientes/route.ts:31-64 | a blank name is a 400 that changes nothing. Otherwise a client is appended under the next id, which no client had; it is listed last, keeps the ids unique, and the writers find it |
| FormCompras.SumaConcat | src/components/compras/FormCompras.tsx:176 | the total of two carts put together is the sum of their totals |
| FormCompras.SumaReemplazo | src/components/compras/FormCompras.tsx:176 | replacing a line changes the cart total by the difference of the two line totals |
| FormCompras.SumaNoNegativa | src/components/compras/FormCompras.tsx:176 | a cart of valid lines has a non-negative total |
| FormCompras.ConLinea | src/components/compras/FormCompras.tsx:64-98 | adding to the cart keeps its length when the article has a line and grows it by one otherwise, and keeps every line's article |
| FormCompras.ConLineaExistente | src/components/compras/FormCompras.tsx:75-90 | adding an article already in the cart updates only its line: the quantities add up, the new price applies to the whole line, and the total changes accordingly |
| FormCompras.ConLineaNueva | src/components/compras/FormCompras.tsx:91 | adding a new article appends a line with its quantity, price and total |
| FormCompras.ConLineaConservaDistintos | src/components/compras/FormCompras.tsx:64-98 | adding keeps the cart's articles distinct |
| FormCompras.ConLineaConservaValidas | src/components/compras/FormCompras.tsx:64-98 | adding a valid quantity and price keeps every line valid |
| FormCompras.SinLinea | src/components/compras/FormCompras.tsx:100-102 | removing never lengthens the cart |
| FormCompras.SinLineaQuitaUna | src/components/compras/FormCompras.tsx:100-102 | removing an index in range drops exactly that line; any other index changes nothing |
| FormCompras.SinLineaSuma | src/components/compras/FormCompras.tsx:100-102 | removing a line lowers the total by that line's total |
| FormCompras.SinLineaConserva | src/components/compras/FormCompras.tsx:100-102 | removing keeps the lines valid and their articles distinct |
| FormCompras.LineaActualizada | src/components/compras/FormCompras.tsx:104-121 | an edit keeps the number of lines and every line's article |
| FormCompras.LineaActualizadaSoloEsa | src/components/compras/FormCompras.tsx:104-121 | a quantity below 1 or a negative price changes nothing. Otherwise only the edited line changes, to the new quantity and price and their product |
| FormCompras.ValoresParaAgregar | src/components/compras/FormCompras.tsx:137-151 | a missing or zero quantity means 1, and a missing or zero price means the article's price, or 0 when that is missing or zero too. A negative quantity, then a negative price, is refused with its message |
| FormCompras.Envio | src/components/compras/FormCompras.tsx:178-206 | an empty cart, then a blank supplier, is refused with its message. Otherwise the payload carries the trimmed supplier, every line without its unit price, and the cart total |
| FormCompras.SumaSinPrecio | src/components/compras/FormCompras.tsx:190-206 | dropping the unit prices keeps the sum of the totals |
| FormCompras.EnvioTotalCuadra | src/components/compras/FormCompras.tsx:190-206 | the payload's total is the sum of its lines' totals |
| FormCompras.Carrito.constructor | src/components/compras/FormCompras.tsx:50-62 | the cart starts empty with no error |
| FormCompras.Carrito.TotalCompra | src/components/compras/FormCompras.tsx:176 | the total of a cart of valid lines is not negative |
| FormCompras.Carrito.AgregarLinea | src/components/compras/FormCompras.tsx:64-98 | the cart becomes `ConLinea` of the old one and keeps its articles distinct |
| FormCompras.Carrito.QuitarLinea | src/components/compras/FormCompras.tsx:100-102 | the cart loses exactly the line at the index, or is unchanged for an index out of range |
| FormCompras.Carrito.ActualizarLinea | src/components/compras/FormCompras.tsx:104-121 | the cart becomes `LineaActualizada` of the old one and stays valid and distinct |
| FormCompras.Carrito.AgregarAlCarrito | src/components/compras/FormCompras.tsx:137-151 | without a found article nothing changes. A refused value sets the error and keeps the lines. Otherwise the line is added. Valid, distinct lines stay valid and distinct |
| FormCompras.Carrito.Enviar | src/components/compras/FormCompras.tsx:178-206 | the payload is sent exactly when `Envio` accepts the cart; a refusal sets the form's error |
| FormCompras.EnvioRechazadoPorLaRuta | src/components/compras/FormCompras.tsx:190-206 | every payload the form sends is refused by `POST /api/compras`: it has no article fields at the top level |
| FormCompras.PedidosDelCarrito | src/app/api/compras/route.ts:34-41 | the corrected submission sends one request per cart line |
| FormCompras.PedidosDelCarritoAceptados | src/app/api/compras/route.ts:43-62 | each corrected request is accepted by the route and records that line's trimmed id and name, its quantity and its unit price |
| Listados.Filtrar | src/components/ventas/ListVentas.tsx:21-32 | filtering never lengthens a list |
| Listados.FiltrarSelecciona | src/components/ventas/ListVentas.tsx:21-32 | the filtered list is the subsequence, in the original order, of exactly the rows that match |
| Listados.FiltrarPertenece | src/components/ventas/ListVentas.tsx:21-32 | a row is in the filtered list exactly when it is in the list and matches |
| Listados.Texto | src/components/ventas/ListVentas.tsx:23 | the trimmed, lower-cased filter is empty exactly when the filter is blank |
| Listados.IncluyeSuPropioTexto | src/components/ventas/ListVentas.tsx:23-27 | a field always contains its own trimmed, lower-cased text |
| Listados.VentasFiltradas | src/components/ventas/ListVentas.tsx:21-32 | a blank filter shows every sale. Otherwise it shows, in order, exactly the sales whose id, date, article id or name contains the filter, case-insensitively, or whose quantity or total, written in decimal, contains it |
| Listados.VentaBuscadaPorSuId | src/components/ventas/ListVentas.tsx:21-32 | searching a sale's own id shows that sale |
| Listados.VentasFiltroMasLargo | src/components/ventas/ListVentas.tsx:21-32 | a filter that extends another shows no sale the shorter one hides |
| Listados.ComprasFiltradas | src/components/compras/ListCompras.tsx:126-148 | a blank filter shows every purchase. Otherwise it shows, in order, exactly the purchases whose id, date, supplier or article contains the filter, or whose total, written in decimal, contains it, or one of whose lines' name or id contains it |
| Listados.CompraBuscadaPorArticulo | src/components/compras/ListCompras.tsx:126-148 | searching the name of any line of a purchase shows that purchase |
| Listados.TextoDeLinea | src/components/compras/ListCompras.tsx:282-290 | a line's description starts with the article name |
| Listados.DescripcionArticulos | src/components/compras/ListCompras.tsx:282-290 | a purchase without lines is described by its article, or "-" when that is empty |
| Listados.DescripcionNombraCadaLinea | src/components/compras/ListCompras.tsx:282-290 | the description of a purchase names every one of its lines |
| Listados.ProveedoresFiltrados | src/components/proveedores/ListaProveedores.tsx:26-37 | a blank filter shows every supplier. Otherwise it shows, in order, exactly the suppliers one of whose fields, present ones only, contains the filter |
| Listados.ProveedorBuscadoPorNombre | src/components/proveedores/ListaProveedores.tsx:26-37 | searching a supplier's name shows that supplier |
| Listados.ProveedorSinDatosOpcionales | src/components/proveedores/ListaProveedores.tsx:26-37 | a supplier without the optional fields is shown exactly when its id or name contains the filter |
| Listados.ClientesFiltrados | src/components/clientes/ListClientes.tsx:24-35 | a blank filter shows every client. Otherwise it shows, in order, exactly the clients one of whose fields, including the creation date, contains the filter |
| Listados.ClienteBuscadoPorSuId | src/components/clientes/ListClientes.tsx:24-35 | searching a client's id shows that client |
| Listados.ArticulosFiltrados | src/components/articulos/ListaArticulos.tsx:20-29 | a blank filter shows every article. Otherwise it shows, in order, exactly the articles whose barcode, id, name or description, when present, contains the filter, case-insensitively |
| Listados.ArticuloBuscadoPorCodbarra | src/components/articulos/ListaArticulos.tsx:20-29 | searching an article's barcode shows that article |
| Listados.ArticulosFiltradosIgnoranPrecioYStock | src/components/articulos/ListaArticulos.tsx:20-29 | whether an article is shown does not depend on its price or stock |

## Left out

- The Google API client, authentication, the spreadsheet id and `getArticulosSheetTitle` are outside the model. Every read and write acts on the tabs held by `Spreadsheet`, except the failures listed below.
- Failures of the network or the API are not modelled, except where a route compensates for them. There they are a boolean parameter: `falloAlGuardar` for the save of a sale or purchase, `lecturaFalla` for the barcode check.
- The reads and writes of the articulos, proveedores and clientes POST routes are taken not to fail; their 500 answers are not modelled.
- Concurrency between requests is not modelled: each route runs alone against the spreadsheet.
- Numbers are integers. Prices, quantities and stocks are JavaScript numbers in the source.
- Text.Lower: case folding covers only the letters A to Z and the Latin-1 capitals U+00C0 to U+00DE other than U+00D7. JavaScript's `toLowerCase` folds all of Unicode: 'Ā', Greek and Cyrillic capitals, and 'İ', which lowers to two code units. The model compares ids, barcodes and list filters in those alphabets case-sensitively.
  - `parseFloat` of a cell is read as `parseInt`, and a cell that is not a number reads as 0.
  - `Number(x) || 0` is modelled as the integer read or 0.
  - The unit price a sales row without a price column derives, and the unit price `ListCompras` shows (`total / cantidad`, formatted with `toLocaleString`), are integer quotients rounded toward zero (`Records.Cociente`), and `Listados.TextoDeLinea` writes that price in plain decimal, without locale digit grouping.
- Values written with `USER_ENTERED` are taken to read back as the same decimal text. Serial dates, currency formats and formulas are not modelled.
- Every tab is read as the range `A:Z`. Cells beyond `Z` are invisible to the readers, as in the source.
- Stock.SubtractSpec: the model says nothing about the stock-column error of `actualizarStockArticuloPorId` when called from the discount, because that error cannot arise. Without a stock column every stock reads 0, so a positive quantity always fails as insufficient first (`GoogleSheets.StockColumnOfPositive`).
- The `cliente` field of `POST /api/ventas` and the line details it builds are not stored. `insertarVenta` receives an object whose `articuloId`, `articuloNombre`, `cantidad` and `precioUnitario` are undefined, so those cells are written empty; the model does exactly that (`ApiVentas.VentaDeLaRuta`).
- ApiCompras.RevertirCompra: the revert after a failed purchase save takes the quantity back but keeps the new price. This is what the source does, and the model states it rather than a full restore.
- A request whose `fecha` is present but not a string makes `fecha?.trim()` throw a `TypeError`, answered with 500. Request fields are modelled as optional strings, so this case is not represented.
- `ListCompras` reads `total` and `articulos` from each purchase, fields `getCompras` does not return. The model filters the component's own record type `Listados.CompraMostrada`, which carries them.
- The purchase form's edit mode, which loads the lines of an existing purchase in `useEffect` (src/components/compras/FormCompras.tsx:153-174), is not modelled.
- The article search of the purchase form (a `fetch` to `/api/articulos/buscar`) is not modelled beyond the route itself. The form's `articuloEncontrado` is a parameter of `AgregarAlCarrito`.
- UI state is not modelled: the quantity field's reset, the `enviando` flag, `router` navigation and rendering.
- The `[id]` routes (GET, PUT, DELETE per record) and the GET list routes are not modelled as handlers. The library functions they call (`actualizar*`, `eliminar*`, `get*`) are.
- The forms of articles, suppliers, clients and sales are not modelled beyond the routes they call.

## Findings

| source | as written | input that shows it | evidently intended | confidence | as-written member | corrected member |
|---|---|---|---|---|---|---|
| src/lib/google-sheets.ts:1127-1134 | without an `idcompra` header, `actualizarCompra` and `eliminarCompra` search column A for the id, while `getCompras` lists each purchase under its row number | a compras tab with header `codigo` and rows `2`, `1`: the purchase listed as "1" is data row 1, but deleting "1" deletes data row 2 | fall back to the row number, as the sales writers do, so the row found is the one listed under the id | high; not executed | ComprasTab.AsWrittenLocatesOtherPurchase | ComprasTab.LocateCompraFindsListed |
| src/app/api/ventas/route.ts:56-68 | a discount error answers 400 at once and leaves the earlier lines' discounts in place | a sale of two lines where the first article has stock and the second does not: the first stock stays lowered and no sale is stored | undo the discounts already made, as the save failure does | high; not executed | ApiVentas.DescuentoFallidoConservaAnteriores | ApiVentas.PostVentaCompensada |
| src/app/api/articulos/route.ts:36-65 | the create route checks the barcode but never whether the id is taken | an article posted with the id of an existing article and a new barcode is appended, and every lookup by id keeps finding the older one | refuse an id some article already has, with `articuloExiste` | medium; not executed | ApiArticulos.AltaConIdRepetido | ApiArticulos.PostArticuloCorregido |
| src/components/compras/FormCompras.tsx:190-206 | the purchase form posts `{ fecha, proveedor, articulos, total }`, but `POST /api/compras` requires `articulo`, `idarticulo`, `cantidad` and `precio` at the top level | any non-empty cart with a supplier: the route answers 400 "Proveedor y artículo son obligatorios" | record each line of the cart as a purchase the route accepts | medium; not executed | FormCompras.EnvioRechazadoPorLaRuta | FormCompras.PedidosDelCarritoAceptados |
