/**
  One spreadsheet tab as the application sees it: a header row followed by data rows of
  text cells. Columns are resolved by header aliases, cells are read trimmed, a single
  cell is addressed in A1 notation (`toCol(column) + rowNumber`) and rows are located by
  a linear scan of one column.
 */
module SheetTable {
  import opened Wrappers
  import opened Text

  type Row = seq<string>
  type Table = seq<Row>

  /** Every read of a tab asks for the range `A:Z`: only the first 26 columns are seen. */
  const READ_WIDTH: nat := 26

  /** The errors the sheet layer raises, each with the text of its `Error` message. */
  datatype SheetError =
    | NotFound(text: string)
    | MissingColumns(text: string)
    | InsufficientStock(available: int, requested: int)
    | InsufficientToRevert(available: int)
  {
    function Message(): string {
      match this
      case NotFound(t) => t
      case MissingColumns(t) => t
      case InsufficientStock(a, q) =>
        "Stock insuficiente. Disponible: " + IntToString(a) + ", solicitado: " + IntToString(q)
      case InsufficientToRevert(a) =>
        "Stock insuficiente para revertir. Disponible: " + IntToString(a)
    }
  }

  // ---------------------------------------------------------------------------
  // Reading cells

  function Window(row: Row): (r: Row)
    ensures |r| <= READ_WIDTH && r <= row
  {
    if |row| <= READ_WIDTH then row else row[..READ_WIDTH]
  }

  /** `rows[0]` of a read: the header row within `A:Z`. */
  function Headers(tab: Table): Row {
    if |tab| == 0 then [] else Window(tab[0])
  }

  /** `i >= 0 && row[i] !== undefined ? String(row[i]).trim() : ''` over the cells a read returns. */
  function Cell(row: Row, i: int): string {
    if 0 <= i < |row| && i < READ_WIDTH then Trim(row[i]) else ""
  }

  /** `x ?? ''` written into a cell: a missing value leaves the cell empty. */
  function OptionalCell(x: Option<string>): string {
    if x.Some? then x.value else ""
  }

  /** A number that may be missing, written into a cell. */
  function OptionalNumberCell(x: Option<int>): string {
    if x.Some? then IntToString(x.value) else ""
  }

  /** The first `n` data rows, each read by `f` with its 0-based position among the data rows. */
  function MapDataRows<T>(f: (Row, nat) -> T, tab: Table, n: nat): (r: seq<T>)
    requires n < |tab|
    ensures |r| == n
  {
    if n == 0 then [] else MapDataRows(f, tab, n - 1) + [f(tab[n], n - 1)]
  }

  /** Record `j` is read from data row `j + 1`. */
  lemma {:induction false} DataRowAt<T>(f: (Row, nat) -> T, tab: Table, n: nat, j: nat)
    requires n < |tab| && j < n
    ensures MapDataRows(f, tab, n)[j] == f(tab[j + 1], j)
  {
    if j < n - 1 {
      DataRowAt(f, tab, n - 1, j);
    }
  }

  /** Record `j` of a read of the whole tab comes from data row `j + 1`. */
  lemma {:induction false} DataRowRead<T>(f: (Row, nat) -> T, tab: Table, j: nat)
    requires j + 1 < |tab|
    ensures MapDataRows(f, tab, |tab| - 1)[j] == f(tab[j + 1], j)
  {
    DataRowAt(f, tab, |tab| - 1, j);
  }

  /** A read looks only at the data rows it reads. */
  lemma {:induction false} MapDataRowsSameRows<T>(f: (Row, nat) -> T, tab: Table, tab': Table, n: nat)
    requires n < |tab| && n < |tab'|
    requires forall j :: 1 <= j <= n ==> tab'[j] == tab[j]
    ensures MapDataRows(f, tab', n) == MapDataRows(f, tab, n)
  {
    if n > 0 {
      MapDataRowsSameRows(f, tab, tab', n - 1);
    }
  }

  /** Appending a row appends its record and leaves the others. */
  lemma {:induction false} MapDataRowsAppended<T>(f: (Row, nat) -> T, tab: Table, row: Row)
    requires |tab| >= 1
    ensures MapDataRows(f, tab + [row], |tab + [row]| - 1) == MapDataRows(f, tab, |tab| - 1) + [f(row, |tab| - 1)]
  {
    MapDataRowsSameRows(f, tab, tab + [row], |tab| - 1);
  }

  /** Replacing data row `k + 1` replaces record `k` only. */
  lemma {:induction false} MapDataRowsUpdated<T>(f: (Row, nat) -> T, tab: Table, k: nat, row: Row, n: nat)
    requires k < n < |tab|
    ensures MapDataRows(f, tab[k + 1 := row], n) == MapDataRows(f, tab, n)[k := f(row, k)]
  {
    if n == k + 1 {
      MapDataRowsSameRows(f, tab, tab[k + 1 := row], k);
    } else {
      MapDataRowsUpdated(f, tab, k, row, n - 1);
      var init := MapDataRows(f, tab, n - 1);
      var last := f(tab[n], n - 1);
      assert (init + [last])[k := f(row, k)] == init[k := f(row, k)] + [last];
    }
  }

  /** Replacing data row `k + 1` of a tab replaces record `k` of its read only. */
  lemma {:induction false} MapDataRowsRewritten<T>(f: (Row, nat) -> T, tab: Table, k: nat, row: Row)
    requires k + 1 < |tab|
    ensures MapDataRows(f, tab[k + 1 := row], |tab[k + 1 := row]| - 1) == MapDataRows(f, tab, |tab| - 1)[k := f(row, k)]
  {
    MapDataRowsUpdated(f, tab, k, row, |tab| - 1);
  }

  /** A reader whose record does not depend on the position of its row. */
  ghost predicate PositionFree<T>(f: (Row, nat) -> T) {
    forall row: Row, i: nat, i': nat :: f(row, i) == f(row, i')
  }

  /**
    Deleting data row `r` removes record `r - 1` from a read, provided a record does not
    depend on the position of its row.
   */
  lemma {:induction false} MapDataRowsRemoved<T>(f: (Row, nat) -> T, tab: Table, r: nat)
    requires 1 <= r < |tab| && PositionFree(f)
    ensures MapDataRows(f, RemoveRow(tab, r), |RemoveRow(tab, r)| - 1)
            == MapDataRows(f, tab, |tab| - 1)[..r - 1] + MapDataRows(f, tab, |tab| - 1)[r..]
  {
    var tab' := RemoveRow(tab, r);
    MapDataRowsRemovedUpTo(f, tab, tab', r, |tab'| - 1, |tab| - 1);
  }

  lemma {:induction false} MapDataRowsRemovedUpTo<T>(f: (Row, nat) -> T, tab: Table, tab': Table, r: nat, m: nat, n: nat)
    requires 1 <= r <= n < |tab| && |tab'| == |tab| - 1 && m + 1 == n
    requires forall j {:trigger tab'[j]} :: 0 <= j < r ==> tab'[j] == tab[j]
    requires forall j :: r <= j < |tab'| ==> tab'[j] == tab[j + 1]
    requires forall row: Row, i: nat, i': nat :: f(row, i) == f(row, i')
    ensures MapDataRows(f, tab', m) == MapDataRows(f, tab, n)[..r - 1] + MapDataRows(f, tab, n)[r..]
  {
    var prev := MapDataRows(f, tab, m);
    var x := f(tab[n], m);
    assert MapDataRows(f, tab, n) == prev + [x];
    if n == r {
      MapDataRowsSameRows(f, tab, tab', m);
      assert (prev + [x])[..r - 1] == prev;
      assert (prev + [x])[r..] == [];
    } else {
      MapDataRowsRemovedUpTo(f, tab, tab', r, m - 1, m);
      assert tab'[m] == tab[n];
      assert f(tab[n], m - 1) == x;
      assert MapDataRows(f, tab', m) == MapDataRows(f, tab', m - 1) + [x];
      assert (prev + [x])[..r - 1] == prev[..r - 1];
      assert (prev + [x])[r..] == prev[r..] + [x];
    }
  }

  // ---------------------------------------------------------------------------
  // Header resolution

  /**
    `String(h ?? '').trim().toLowerCase() === key.toLowerCase()` for an alias `key` that is
    already in lower case, as every alias the application uses is (`LowerCase` below).
   */
  predicate HeaderMatches(h: string, key: string) {
    Lower(Trim(h)) == key
  }

  /** Every alias is already in lower case. */
  predicate LowerCase(xs: seq<string>) {
    forall i :: 0 <= i < |xs| ==> Lower(xs[i]) == xs[i]
  }

  /** For a lower-case alias the comparison above is the one with `key.toLowerCase()`. */
  lemma {:induction false} HeaderMatchesLowerKey(h: string, aliases: seq<string>, k: nat)
    requires LowerCase(aliases) && k < |aliases|
    ensures HeaderMatches(h, aliases[k]) <==> Lower(Trim(h)) == Lower(aliases[k])
  {
  }

  /** `headers.findIndex(h => …)` for one alias, scanning from column `from`. */
  function FindHeaderFrom(headers: Row, key: string, from: nat): (r: int)
    decreases |headers| - from
    ensures r == -1 || from <= r < |headers|
    ensures r >= 0 ==> HeaderMatches(headers[r], key)
  {
    if from >= |headers| then -1
    else if HeaderMatches(headers[from], key) then from
    else FindHeaderFrom(headers, key, from + 1)
  }

  /** The first column whose header matches the alias, or -1. */
  function FindHeader(headers: Row, key: string): (r: int)
    ensures -1 <= r < |headers|
    ensures r >= 0 ==> HeaderMatches(headers[r], key)
  {
    FindHeaderFrom(headers, key, 0)
  }

  lemma {:induction false} FindHeaderFromFirst(headers: Row, key: string, from: nat, j: nat)
    requires from <= j < |headers|
    requires FindHeaderFrom(headers, key, from) < 0 || j < FindHeaderFrom(headers, key, from)
    decreases j - from
    ensures !HeaderMatches(headers[j], key)
  {
    if from < j {
      assert !HeaderMatches(headers[from], key);
      FindHeaderFromFirst(headers, key, from + 1, j);
    }
  }

  /** No column before the one found matches; when none is found, no column matches at all. */
  lemma {:induction false} FindHeaderFirst(headers: Row, key: string, j: nat)
    requires j < |headers|
    requires FindHeader(headers, key) < 0 || j < FindHeader(headers, key)
    ensures !HeaderMatches(headers[j], key)
  {
    FindHeaderFromFirst(headers, key, 0, j);
  }

  /** `headerIndex(keys)` / `findCol(names)` over the aliases from position `from` on. */
  function HeaderIndexFrom(headers: Row, aliases: seq<string>, from: nat): (r: int)
    requires from <= |aliases|
    decreases |aliases| - from
    ensures -1 <= r < |headers|
  {
    if from == |aliases| then -1
    else
      var i := FindHeader(headers, aliases[from]);
      if i >= 0 then i else HeaderIndexFrom(headers, aliases, from + 1)
  }

  /**
    `headerIndex(keys)` / `findCol(names)`: the aliases are tried in list order and the
    first one that names some column decides; -1 when no alias names a column.
   */
  function HeaderIndex(headers: Row, aliases: seq<string>): (r: int)
    ensures -1 <= r < |headers|
  {
    HeaderIndexFrom(headers, aliases, 0)
  }

  lemma {:induction false} HeaderIndexFromDecided(headers: Row, aliases: seq<string>, from: nat) returns (k: nat)
    requires from <= |aliases|
    decreases |aliases| - from
    ensures from <= k <= |aliases|
    ensures forall k' :: from <= k' < k ==> FindHeader(headers, aliases[k']) < 0
    ensures k < |aliases| ==> HeaderIndexFrom(headers, aliases, from) == FindHeader(headers, aliases[k]) >= 0
    ensures k == |aliases| ==> HeaderIndexFrom(headers, aliases, from) == -1
  {
    if from == |aliases| || FindHeader(headers, aliases[from]) >= 0 {
      k := from;
    } else {
      k := HeaderIndexFromDecided(headers, aliases, from + 1);
    }
  }

  /**
    The alias that decides: every alias before position `k` names no column, and the
    result is the first column named by alias `k`; when no alias names a column the
    result is -1. So an earlier alias wins over an earlier column.
   */
  lemma {:induction false} HeaderIndexDecided(headers: Row, aliases: seq<string>) returns (k: nat)
    ensures k <= |aliases|
    ensures forall k' :: 0 <= k' < k ==> FindHeader(headers, aliases[k']) < 0
    ensures k < |aliases| ==> HeaderIndex(headers, aliases) == FindHeader(headers, aliases[k]) >= 0
    ensures k == |aliases| ==> HeaderIndex(headers, aliases) == -1
  {
    k := HeaderIndexFromDecided(headers, aliases, 0);
  }

  /** The column found names one of the aliases. */
  lemma {:induction false} HeaderIndexMatches(headers: Row, aliases: seq<string>) returns (k: nat)
    requires HeaderIndex(headers, aliases) >= 0
    ensures k < |aliases| && HeaderMatches(headers[HeaderIndex(headers, aliases)], aliases[k])
  {
    k := HeaderIndexDecided(headers, aliases);
  }

  lemma {:induction false} HeaderIndexFromPrefix(headers: Row, a: seq<string>, b: seq<string>, from: nat)
    requires from <= |a| && HeaderIndexFrom(headers, a, from) >= 0
    decreases |a| - from
    ensures HeaderIndexFrom(headers, a + b, from) == HeaderIndexFrom(headers, a, from)
  {
    assert (a + b)[from] == a[from];
    if FindHeader(headers, a[from]) < 0 {
      HeaderIndexFromPrefix(headers, a, b, from + 1);
    }
  }

  /**
    Extending an alias list at the end does not move a column the shorter list already
    finds: a longer alias list that starts with a shorter one agrees with it.
   */
  lemma {:induction false} HeaderIndexPrefix(headers: Row, a: seq<string>, b: seq<string>)
    requires HeaderIndex(headers, a) >= 0
    ensures HeaderIndex(headers, a + b) == HeaderIndex(headers, a)
  {
    HeaderIndexFromPrefix(headers, a, b, 0);
  }

  /** No alias of one list is an alias of the other. */
  predicate Disjoint(a: seq<string>, b: seq<string>) {
    forall i, j :: 0 <= i < |a| && 0 <= j < |b| ==> a[i] != b[j]
  }

  /** Two fields whose alias lists are disjoint never resolve to the same column. */
  lemma {:induction false} DistinctColumns(headers: Row, a: seq<string>, b: seq<string>)
    requires Disjoint(a, b)
    requires HeaderIndex(headers, a) >= 0
    ensures HeaderIndex(headers, a) != HeaderIndex(headers, b)
  {
    var i := HeaderIndexMatches(headers, a);
    var c := HeaderIndex(headers, a);
    if HeaderIndex(headers, b) == c {
      var j := HeaderIndexMatches(headers, b);
      assert false;
    }
  }

  /**
    `headers.findIndex(h => h.toLowerCase() === key.toLowerCase())` for a lower-case key:
    no trimming.
   */
  function ExactHeaderIndex(headers: Row, key: string): (r: int)
    ensures -1 <= r < |headers|
    ensures r >= 0 ==> Lower(headers[r]) == key
    ensures forall j :: 0 <= j < |headers| && (r < 0 || j < r) ==> Lower(headers[j]) != key
  {
    if |headers| == 0 then -1
    else if Lower(headers[0]) == key then 0
    else
      var r := ExactHeaderIndex(headers[1..], key);
      if r < 0 then -1 else r + 1
  }

  // ---------------------------------------------------------------------------
  // Column letters

  predicate IsLetter(c: char) {
    'A' <= c <= 'Z'
  }

  predicate AllLetters(s: string) {
    forall i :: 0 <= i < |s| ==> IsLetter(s[i])
  }

  /** `toCol(n)`: the 0-based column index in bijective base 26 (0 -> A, 25 -> Z, 26 -> AA). */
  function ToCol(n: nat): (r: string)
    ensures |r| > 0 && AllLetters(r)
  {
    if n < 26 then [(65 + n) as char] else ToCol(n / 26 - 1) + [(65 + n % 26) as char]
  }

  /** Column letters back to the 0-based index; the empty string gives -1. */
  function FromCol(s: string): (r: int)
    requires AllLetters(s)
    ensures |s| > 0 ==> r >= 0
    ensures |s| == 0 ==> r == -1
  {
    if |s| == 0 then -1 else (FromCol(s[..|s| - 1]) + 1) * 26 + (s[|s| - 1] as int - 65)
  }

  lemma {:induction false} FromColToCol(n: nat)
    ensures FromCol(ToCol(n)) == n
  {
    if n >= 26 {
      var s := ToCol(n);
      FromColToCol(n / 26 - 1);
      assert s[..|s| - 1] == ToCol(n / 26 - 1);
    }
  }

  /** Every non-empty string of letters A-Z is the column name of exactly one index. */
  lemma {:induction false} ToColFromCol(s: string)
    requires |s| > 0 && AllLetters(s)
    ensures ToCol(FromCol(s)) == s
  {
    if |s| > 1 {
      var p := s[..|s| - 1];
      var d := s[|s| - 1] as int - 65;
      ToColFromCol(p);
      var m := FromCol(p);
      var n := (m + 1) * 26 + d;
      assert n / 26 == m + 1 && n % 26 == d;
      assert s == p + [s[|s| - 1]];
    }
  }

  /** `toCol` is injective: two columns never share a letter name. */
  lemma {:induction false} ToColInjective(m: nat, n: nat)
    ensures ToCol(m) == ToCol(n) ==> m == n
  {
    FromColToCol(m);
    FromColToCol(n);
  }

  lemma {:induction false} ToColExamples()
    ensures ToCol(0) == "A" && ToCol(25) == "Z" && ToCol(26) == "AA"
    ensures ToCol(51) == "AZ" && ToCol(52) == "BA"
  {
    assert ToCol(0) == ['A'];
    assert ToCol(1) == ['B'];
    assert ToCol(25) == ['Z'];
    assert ToCol(26) == ToCol(0) + ['A'];
    assert ToCol(51) == ToCol(0) + ['Z'];
    assert ToCol(52) == ToCol(1) + ['A'];
  }

  // ---------------------------------------------------------------------------
  // A1 addresses and writes

  /** Length of the run of letters A-Z at the start of `s`. */
  function LetterRun(s: string): (k: nat)
    ensures k <= |s| && AllLetters(s[..k])
    ensures k < |s| ==> !IsLetter(s[k])
  {
    if |s| > 0 && IsLetter(s[0]) then
      var k := 1 + LetterRun(s[1..]);
      assert s[..k] == [s[0]] + s[1..][..k - 1];
      k
    else 0
  }

  /** The cell address `${toCol(col)}${row + 1}` of a 0-based row index. */
  function A1(col: nat, row: nat): string {
    ToCol(col) + IntToString(row + 1)
  }

  /** How the spreadsheet reads an A1 address: (0-based column, 0-based row). */
  function ParseA1(addr: string): Option<(nat, nat)> {
    var k := LetterRun(addr);
    var digits := addr[k..];
    if k == 0 || |digits| == 0 || DigitRun(digits) != |digits| then None
    else
      var number := DigitsValue(digits);
      if number == 0 then None else Some((FromCol(addr[..k]), number - 1))
  }

  lemma {:induction false} LetterRunOfLetters(s: string, t: string)
    requires AllLetters(s)
    requires t == [] || !IsLetter(t[0])
    ensures LetterRun(s + t) == |s|
  {
    if s != [] {
      assert (s + t)[1..] == s[1..] + t;
      LetterRunOfLetters(s[1..], t);
    }
  }

  /** The address the writer builds designates exactly the cell (col, row). */
  lemma {:induction false} A1RoundTrip(col: nat, row: nat)
    ensures ParseA1(A1(col, row)) == Some((col, row))
  {
    var letters := ToCol(col);
    var digits := IntToString(row + 1);
    var addr := letters + digits;
    assert digits == NatToString(row + 1);
    LetterRunOfLetters(letters, digits);
    assert addr[|letters|..] == digits;
    assert addr[..|letters|] == letters;
    DigitRunAll(digits);
    NatToStringValue(row + 1);
    FromColToCol(col);
  }

  /** The cell write of `values.update`: column `c` of `row`, padding a short row with empty cells. */
  function SetCell(row: Row, c: nat, v: string): (r: Row)
    ensures |r| == if c < |row| then |row| else c + 1
  {
    if c < |row| then row[c := v] else row + seq(c - |row|, _ => "") + [v]
  }

  /** `values.update` of the single cell `addr`. */
  function WriteCell(tab: Table, addr: string, v: string): Table
    requires ParseA1(addr).Some? && ParseA1(addr).value.1 < |tab|
  {
    var (c, r) := ParseA1(addr).value;
    tab[r := SetCell(tab[r], c, v)]
  }

  /** After a write, the written cell reads as the trimmed value and every other cell is unchanged. */
  lemma {:induction false} CellAfterSet(row: Row, c: nat, v: string, d: int)
    ensures Cell(SetCell(row, c, v), d) == if d == c && c < READ_WIDTH then Trim(v) else Cell(row, d)
  {
    if d != c && c >= |row| && |row| <= d < c {
      assert SetCell(row, c, v)[d] == "";
      assert Trim("") == "";
    }
  }

  /** `values.update` of the range `A{r}:…{r}`: the first `|values|` cells of the row are replaced. */
  function WriteRange(row: Row, values: seq<string>): (r: Row)
    ensures |values| <= |r| && r[..|values|] == values
    ensures |r| == if |row| > |values| then |row| else |values|
    ensures forall j :: |values| <= j < |row| ==> r[j] == row[j]
  {
    if |row| > |values| then values + row[|values|..] else values
  }

  /** Replacing a data row leaves the header row as it was. */
  lemma {:induction false} HeadersAfterRowUpdate(tab: Table, r: nat, row: Row)
    requires 1 <= r < |tab|
    ensures Headers(tab[r := row]) == Headers(tab)
  {
    assert tab[r := row][0] == tab[0];
  }

  lemma {:induction false} TailUpdate(tab: Table, r: nat, row: Row)
    requires 1 <= r < |tab|
    ensures tab[r := row][1..] == tab[1..][r - 1 := row]
  {
  }

  /** `deleteDimension` of one row: the later rows shift up by one. */
  function RemoveRow(tab: Table, i: nat): (r: Table)
    requires i < |tab|
    ensures |r| == |tab| - 1
    ensures forall j {:trigger r[j]} :: 0 <= j < i ==> r[j] == tab[j]
    ensures forall j :: i <= j < |r| ==> r[j] == tab[j + 1]
  {
    tab[..i] + tab[i + 1..]
  }

  /** A value no data row holds in column `col`, counted by data position, is in no row after the header. */
  lemma {:induction false} ColumnAvoids(tab: Table, col: int, x: string)
    requires |tab| >= 1 && forall j :: 0 <= j < |tab| - 1 ==> Cell(tab[1..][j], col) != x
    ensures forall i :: 1 <= i < |tab| ==> Cell(tab[i], col) != x
  {
    forall i | 1 <= i < |tab|
      ensures Cell(tab[i], col) != x
    {
      assert tab[1..][i - 1] == tab[i];
    }
  }

  /** Deleting data row `r` deletes entry `r - 1` of the data rows and keeps the header row. */
  lemma {:induction false} DataRowsRemoved(tab: Table, r: nat)
    requires 1 <= r < |tab|
    ensures RemoveRow(tab, r)[0] == tab[0]
    ensures RemoveRow(tab, r)[1..] == tab[1..][..r - 1] + tab[1..][r..]
  {
    assert RemoveRow(tab, r)[1..] == tab[1..r] + tab[r + 1..];
    assert tab[1..][..r - 1] == tab[1..r];
    assert tab[1..][r..] == tab[r + 1..];
  }

  // ---------------------------------------------------------------------------
  // Locating rows

  /** `rows.findIndex((row, i) => i > 0 && p(cell of row))`, scanning from row `from`. */
  function FindRowFrom(tab: Table, col: int, p: string -> bool, from: nat): (r: int)
    requires 1 <= from
    decreases |tab| - from
    ensures r == -1 || from <= r < |tab|
    ensures r >= 0 ==> p(Cell(tab[r], col))
    ensures forall i :: from <= i < |tab| && (r < 0 || i < r) ==> !p(Cell(tab[i], col))
  {
    if from >= |tab| then -1
    else if p(Cell(tab[from], col)) then from
    else FindRowFrom(tab, col, p, from + 1)
  }

  /** The first data row whose trimmed, lower-cased cell in `col` equals the trimmed, lower-cased key. */
  function FindRow(tab: Table, col: int, key: string): (r: int)
    ensures r == -1 || 1 <= r < |tab|
    ensures r >= 1 ==> Lower(Cell(tab[r], col)) == Lower(Trim(key))
    ensures forall i :: 1 <= i < |tab| && (r < 0 || i < r) ==> Lower(Cell(tab[i], col)) != Lower(Trim(key))
  {
    FindRowFrom(tab, col, c => Lower(c) == Lower(Trim(key)), 1)
  }

  /** A matching row with no match above it is the row found. */
  lemma {:induction false} FindRowIs(tab: Table, col: int, key: string, r: nat)
    requires 1 <= r < |tab| && Lower(Cell(tab[r], col)) == Lower(Trim(key))
    requires forall i :: 1 <= i < r ==> Lower(Cell(tab[i], col)) != Lower(Trim(key))
    ensures FindRow(tab, col, key) == r
  {
  }

  /** The first data row whose trimmed cell in `col` equals the trimmed key exactly (case kept). */
  function FindRowExact(tab: Table, col: int, key: string): (r: int)
    ensures r == -1 || 1 <= r < |tab|
    ensures r >= 1 ==> Cell(tab[r], col) == Trim(key)
    ensures forall i :: 1 <= i < |tab| && (r < 0 || i < r) ==> Cell(tab[i], col) != Trim(key)
  {
    FindRowFrom(tab, col, c => c == Trim(key), 1)
  }

  /**
    `parseInt(key, 10)` taken as a row number: the row it names when that is a data row,
    and -1 when it is not a number or names no data row.
   */
  function RowNumber(tab: Table, key: string): (r: int)
    ensures r == -1 || 1 <= r < |tab|
    ensures r >= 1 <==> ParseInt(key).Some? && 1 <= ParseInt(key).value < |tab|
    ensures r >= 1 ==> ParseInt(key) == Some(r)
  {
    var num := ParseInt(key);
    if num.None? || num.value < 1 || num.value >= |tab| then -1 else num.value
  }

  /** A row whose cell equals the trimmed key, with no such row above it, is the row found. */
  lemma {:induction false} FindRowExactIs(tab: Table, col: int, key: string, r: nat)
    requires 1 <= r < |tab| && Cell(tab[r], col) == Trim(key)
    requires forall i :: 1 <= i < r ==> Cell(tab[i], col) != Trim(key)
    ensures FindRowExact(tab, col, key) == r
  {
  }

  /** Every cell read is already trimmed. */
  lemma {:induction false} CellTrimmed(row: Row, i: int)
    ensures Trim(Cell(row, i)) == Cell(row, i)
  {
    assert Trim("") == "";
    if 0 <= i < |row| && i < READ_WIDTH {
      TrimIdempotent(row[i]);
    }
  }

  function ColumnaIdMessage(headers: Row): string {
    "Columna id no encontrada. Columnas disponibles: " + JsonStringArray(headers)
  }

  /**
    The lookup shared by the update and delete operations of a tab keyed case-insensitively:
    too few rows or no matching row is `notFound`; a missing id column is reported with
    the headers found.
   */
  function LocateById(tab: Table, idAliases: seq<string>, key: string, notFound: string): (r: Result<nat, SheetError>)
    ensures r.Success? ==> 1 <= r.value < |tab|
                           && Lower(Cell(tab[r.value], HeaderIndex(Headers(tab), idAliases))) == Lower(Trim(key))
                           && forall i :: 1 <= i < r.value ==>
                                Lower(Cell(tab[i], HeaderIndex(Headers(tab), idAliases))) != Lower(Trim(key))
    ensures r.Failure? <==> (|tab| < 2 || HeaderIndex(Headers(tab), idAliases) < 0
                             || forall i :: 1 <= i < |tab| ==>
                                  Lower(Cell(tab[i], HeaderIndex(Headers(tab), idAliases))) != Lower(Trim(key)))
    ensures r.Failure? && |tab| >= 2 && HeaderIndex(Headers(tab), idAliases) >= 0 ==> r.error == NotFound(notFound)
    ensures r.Failure? && |tab| < 2 ==> r.error == NotFound(notFound)
  {
    if |tab| < 2 then Failure(NotFound(notFound))
    else
      var idCol := HeaderIndex(Headers(tab), idAliases);
      if idCol < 0 then
        Failure(MissingColumns(ColumnaIdMessage(Headers(tab))))
      else
        var i := FindRow(tab, idCol, key);
        if i < 0 then Failure(NotFound(notFound)) else Success(i as nat)
  }
}
