/// The CSV importer's name and type inference: a grid of string tokens is
/// read line by line (or column by column), header directives name and type
/// the columns, and converted values are appended to per-name lists.
module ReadCSV {
  import opened Base
  import opened Numeric
  import opened CsvText

  /// The entries of coltypes and nametypes: '' (not typed yet), 'float',
  /// 'string' and 'date'.
  datatype ColType = Unset | FloatType | StringType | DateType

  /// A converted token: a number from float() or dateStringToDate(), or the
  /// token itself for a string column.
  datatype Cell = Number(x: Num) | Text(s: string)

  /// float() and utils.dateStringToDate; None where they raise ValueError.
  datatype Parsers = Parsers(float: string -> Option<Num>, date: string -> Option<Num>)

  /// The options of the reader that readData consults.
  datatype Config = Config(prefix: string, suffix: string, readrows: bool)

  /// The accumulated state: the per-name value lists, and the per-column
  /// names and types with the type of each name.
  datatype State = State(
    data: map<string, seq<Cell>>,
    colnames: map<nat, string>,
    coltypes: seq<ColType>,
    nametypes: map<string, ColType>)

  /// A column's type and dataset name, as a header directive gives them.
  datatype Directive = Directive(coltype: ColType, name: string)

  /// The result of _getNameAndColType: KeyError(c) when the backward scan
  /// reaches a column c that has no name yet.
  datatype Lookup = Found(d: Directive) | KeyError(col: nat)

  /// The state reached, and false when a KeyError ended the reading there.
  datatype Run = Run(st: State, ok: bool)

  /// What the document receives for a base name.
  datatype DocDataset =
    | Numeric(values: seq<Cell>, serr: Option<seq<Cell>>, perr: Option<seq<Cell>>, nerr: Option<seq<Cell>>)
    | TextDataset(values: seq<Cell>)

  /// Every named column has a type and a value list, every typed column a
  /// name, and no dataset name is empty.
  predicate WellFormed(st: State) {
    && (forall c :: c in st.colnames ==>
          c < |st.coltypes| && st.colnames[c] in st.data && st.colnames[c] in st.nametypes)
    && (forall c: nat :: c < |st.coltypes| ==> (st.coltypes[c] != Unset <==> c in st.colnames))
    && (forall n :: n in st.data ==> n != [])
  }

  /// Every name with values has a type: what setData needs.
  predicate Typed(st: State) {
    forall n :: n in st.data ==> n in st.nametypes
  }

  //////////////////////////////////////////////////////////////////////////
  // Names and directives

  /// _generateName: prefix, 'row' or 'col', the column counted from 1, suffix.
  function GenerateName(cfg: Config, column: nat): string {
    cfg.prefix + (if cfg.readrows then "row" else "col") + Decimal(column + 1) + cfg.suffix
  }

  /// A generated name starts with the prefix and 'col' or 'row', ends with
  /// the suffix, and the digits between read back as the column plus one.
  lemma GeneratedNameParts(cfg: Config, column: nat)
    ensures var n := GenerateName(cfg, column);
      var p, s := |cfg.prefix|, |cfg.suffix|;
      && |n| > p + 3 + s
      && n[..p] == cfg.prefix
      && n[p..p + 3] == (if cfg.readrows then "row" else "col")
      && n[|n| - s..] == cfg.suffix
      && (forall i :: p + 3 <= i < |n| - s ==> IsDigit(n[i]))
      && n[p + 3..|n| - s] == Decimal(column + 1)
      && DecimalValue(n[p + 3..|n| - s]) == column + 1
  {
    var n := GenerateName(cfg, column);
    var p, s := |cfg.prefix|, |cfg.suffix|;
    var d := Decimal(column + 1);
    var w := if cfg.readrows then "row" else "col";
    assert n == cfg.prefix + w + d + cfg.suffix;
    assert n[p + 3..|n| - s] == d;
    DecimalRoundTrip(column + 1);
  }

  /// Different columns get different generated names.
  lemma GenerateNameInjective(cfg: Config, a: nat, b: nat)
    requires GenerateName(cfg, a) == GenerateName(cfg, b)
    ensures a == b
  {
    GeneratedNameParts(cfg, a);
    GeneratedNameParts(cfg, b);
  }

  /// The type named by the last word of a directive.
  function TypeOfWord(w: string): (t: ColType)
    ensures t != Unset
    ensures t == StringType <==> w == "(string)" || w == "(text)"
    ensures t == DateType <==> w == "(date)" || w == "(time)"
  {
    if w == "(string)" || w == "(text)" then StringType
    else if w == "(date)" || w == "(time)" then DateType
    else FloatType
  }

  predicate IsErrorSuffix(name: string) {
    name == "+" || name == "-" || name == "+-"
  }

  /// A name an error directive can attach to: not empty, and not ending in
  /// '+' or '-'.
  predicate IsBaseName(n: string) {
    |n| > 0 && n[|n| - 1] != '+' && n[|n| - 1] != '-'
  }

  /// Where the backward scan over earlier columns stops.
  datatype Scan = BaseAt(col: nat) | UnnamedAt(col: nat) | NoBase

  /// The scan of _getNameAndColType from column p down to column 0.
  function ScanBase(colnames: map<nat, string>, p: int): (r: Scan)
    ensures r.BaseAt? ==> r.col <= p && r.col in colnames && IsBaseName(colnames[r.col])
    ensures r.UnnamedAt? ==> r.col <= p && r.col !in colnames
    decreases p + 1
  {
    if p < 0 then NoBase
    else if p !in colnames then UnnamedAt(p)
    else if IsBaseName(colnames[p]) then BaseAt(p)
    else ScanBase(colnames, p - 1)
  }

  /// The scan stops at the nearest earlier column that is a base or has no
  /// name, and finds nothing exactly when every earlier column is named and
  /// none is a base.
  lemma {:induction false} ScanBaseNearest(colnames: map<nat, string>, p: int)
    ensures var r := ScanBase(colnames, p);
      && (r.BaseAt? || r.UnnamedAt? ==>
            forall q: nat :: r.col < q <= p ==> q in colnames && !IsBaseName(colnames[q]))
      && (r.NoBase? <==> forall q: nat :: q <= p ==> q in colnames && !IsBaseName(colnames[q]))
    decreases p + 1
  {
    if p >= 0 && p in colnames && !IsBaseName(colnames[p]) {
      ScanBaseNearest(colnames, p - 1);
    } else if p >= 0 {
      var r := ScanBase(colnames, p);
      assert !(r.NoBase?);
      assert !(p in colnames && !IsBaseName(colnames[p]));
    }
  }

  /// What _getNameAndColType answers for a directive whose first word is
  /// `name` and whose last word is `typeword`.
  function Resolve(cfg: Config, st: State, colnum: nat, name: string, typeword: string): (r: Lookup)
    requires WellFormed(st) && name != []
    ensures r.Found? ==> r.d.coltype != Unset && r.d.name != []
  {
    if IsErrorSuffix(name) then
      match ScanBase(st.colnames, colnum - 1)
      case BaseAt(q) => Found(Directive(st.coltypes[q], st.colnames[q] + name))
      case UnnamedAt(q) => KeyError(q)
      case NoBase => Found(Directive(TypeOfWord(typeword), cfg.prefix + GenerateName(cfg, colnum) + cfg.suffix))
    else
      Found(Directive(TypeOfWord(typeword), cfg.prefix + name + cfg.suffix))
  }

  /// _getNameAndColType on a directive that is not blank once stripped:
  /// the first word names the column and the last word types it.
  function NameAndColType(cfg: Config, st: State, colnum: nat, colval: string): (r: Lookup)
    requires WellFormed(st) && Strip(colval) != []
  {
    StrippedHasWords(colval);
    var s := Words(Strip(colval));
    Resolve(cfg, st, colnum, s[0], s[|s| - 1])
  }

  /// NameAndColType reads only the first and the last word.
  lemma NameAndColTypeOfWords(cfg: Config, st: State, colnum: nat, colval: string, ws: seq<string>)
    requires WellFormed(st) && Strip(colval) != [] && Words(Strip(colval)) == ws && ws != [] && ws[0] != []
    ensures NameAndColType(cfg, st, colnum, colval) == Resolve(cfg, st, colnum, ws[0], ws[|ws| - 1])
  {
  }

  /// A directive `name type` names the column prefix + name + suffix, with
  /// the type its last word gives.
  lemma DirectiveNamesColumn(cfg: Config, st: State, colnum: nat, name: string, typeword: string)
    requires WellFormed(st) && name != [] && typeword != [] && NoSpace(name) && NoSpace(typeword)
    requires !IsErrorSuffix(name)
    ensures Strip(name + " " + typeword) != []
    ensures NameAndColType(cfg, st, colnum, name + " " + typeword)
      == Found(Directive(TypeOfWord(typeword), cfg.prefix + name + cfg.suffix))
  {
    TwoWords(name, typeword);
    NameAndColTypeOfWords(cfg, st, colnum, name + " " + typeword, [name, typeword]);
  }

  /// A directive of one word is typed by that same word, which is float
  /// unless the word is itself a type name.
  lemma SingleWordDirective(cfg: Config, st: State, colnum: nat, name: string)
    requires WellFormed(st) && name != [] && NoSpace(name) && !IsErrorSuffix(name)
    ensures Strip(name) != []
    ensures NameAndColType(cfg, st, colnum, name) == Found(Directive(TypeOfWord(name), cfg.prefix + name + cfg.suffix))
  {
    OneWord(name);
    NameAndColTypeOfWords(cfg, st, colnum, name, [name]);
  }

  /// An error directive `+`, `-` or `+-` takes the type of the nearest
  /// earlier base column and appends itself to that column's name; with no
  /// base column, the prefix and suffix go around a generated name that
  /// already carries them.
  lemma ErrorResolve(cfg: Config, st: State, colnum: nat, name: string, typeword: string)
    requires WellFormed(st) && IsErrorSuffix(name)
    ensures var r := Resolve(cfg, st, colnum, name, typeword);
      match ScanBase(st.colnames, colnum - 1)
      case BaseAt(q) => r == Found(Directive(st.coltypes[q], st.colnames[q] + name))
      case UnnamedAt(q) => r == KeyError(q)
      case NoBase =>
        r == Found(Directive(TypeOfWord(typeword),
          cfg.prefix + cfg.prefix + (if cfg.readrows then "row" else "col") + Decimal(colnum + 1) + cfg.suffix + cfg.suffix))
  {
    var w := if cfg.readrows then "row" else "col";
    assert cfg.prefix + GenerateName(cfg, colnum) + cfg.suffix
      == cfg.prefix + cfg.prefix + w + Decimal(colnum + 1) + cfg.suffix + cfg.suffix;
  }

  /// The directive `name type` with an error name is resolved on its first
  /// and last word, as ErrorResolve describes.
  lemma ErrorDirective(cfg: Config, st: State, colnum: nat, name: string, typeword: string)
    requires WellFormed(st) && IsErrorSuffix(name) && typeword != [] && NoSpace(typeword)
    ensures Strip(name + " " + typeword) != []
    ensures NameAndColType(cfg, st, colnum, name + " " + typeword) == Resolve(cfg, st, colnum, name, typeword)
  {
    assert NoSpace(name);
    TwoWords(name, typeword);
    NameAndColTypeOfWords(cfg, st, colnum, name + " " + typeword, [name, typeword]);
  }

  //////////////////////////////////////////////////////////////////////////
  // Registering a column name (_setNameAndType)

  /// coltypes extended with '' entries up to length n.
  function Pad(t: seq<ColType>, n: nat): (r: seq<ColType>)
    ensures |r| == if |t| >= n then |t| else n
    ensures r[..|t|] == t
    ensures forall i :: |t| <= i < |r| ==> r[i] == Unset
  {
    if |t| >= n then t else t + seq(n - |t|, _ => Unset)
  }

  /// The state after _setNameAndType(colnum, name, t).
  function Named(st: State, colnum: nat, name: string, t: ColType): State {
    State(
      if name in st.data then st.data else st.data[name := []],
      st.colnames[colnum := name],
      Pad(st.coltypes, colnum + 1)[colnum := t],
      st.nametypes[name := t])
  }

  /// Registering a name pads coltypes to cover the column, types and names
  /// it, and gives the name an empty list only when it has none: no list is
  /// ever cleared.
  lemma NamedEffect(st: State, colnum: nat, name: string, t: ColType)
    ensures var s := Named(st, colnum, name, t);
      && |s.coltypes| == (if colnum < |st.coltypes| then |st.coltypes| else colnum + 1)
      && s.coltypes[colnum] == t
      && (forall c :: 0 <= c < |st.coltypes| && c != colnum ==> s.coltypes[c] == st.coltypes[c])
      && (forall c :: |st.coltypes| <= c < |s.coltypes| && c != colnum ==> s.coltypes[c] == Unset)
      && s.colnames[colnum] == name && s.nametypes[name] == t
      && s.data.Keys == st.data.Keys + {name}
      && (forall n :: n in st.data ==> s.data[n] == st.data[n])
      && (name !in st.data ==> s.data[name] == [])
  {
    var p := Pad(st.coltypes, colnum + 1);
    forall c | 0 <= c < |st.coltypes|
      ensures p[c] == st.coltypes[c]
    {
      assert p[..|st.coltypes|][c] == p[c];
    }
  }

  /// Registering a non-empty name with a real type keeps the state well formed.
  lemma NamedWellFormed(st: State, colnum: nat, name: string, t: ColType)
    requires WellFormed(st) && name != [] && t != Unset
    ensures WellFormed(Named(st, colnum, name, t))
    ensures Typed(st) ==> Typed(Named(st, colnum, name, t))
  {
    NamedEffect(st, colnum, name, t);
  }

  //////////////////////////////////////////////////////////////////////////
  // One token of readData

  /// The type a token is converted with: an untyped column is read as float.
  function EffectiveType(st: State, colnum: nat): (t: ColType)
    ensures t != Unset
  {
    if colnum >= |st.coltypes| || st.coltypes[colnum] == Unset then FloatType else st.coltypes[colnum]
  }

  /// The conversion of a token; None where the source catches ValueError.
  function Convert(p: Parsers, t: ColType, col: string): Option<Cell> {
    match t
    case StringType => Some(Text(col))
    case DateType => (match p.date(col) case Some(v) => Some(Number(v)) case None => None)
    case _ => (match p.float(col) case Some(v) => Some(Number(v)) case None => None)
  }

  /// The except branch of readData's inner loop: a token that did not
  /// convert is skipped when blank and is otherwise a directive.
  function DirectiveToken(cfg: Config, st: State, colnum: nat, col: string): (r: Run)
    requires WellFormed(st)
    ensures WellFormed(r.st)
    ensures Typed(st) ==> Typed(r.st)
    ensures !r.ok ==> r.st == st
  {
    var t := Strip(col);
    if t == [] then Run(st, true)
    else
      StripIdempotent(col);
      match NameAndColType(cfg, st, colnum, t)
      case KeyError(_) => Run(st, false)
      case Found(d) =>
        NamedWellFormed(st, colnum, d.name, d.coltype);
        Run(Named(st, colnum, d.name, d.coltype), true)
  }

  /// The try branch: a converted value is appended to the list of the
  /// column's name, an unnamed column first being named and typed float.
  function Appended(cfg: Config, st: State, colnum: nat, v: Cell): (r: State)
    requires WellFormed(st)
    ensures WellFormed(r)
    ensures Typed(st) ==> Typed(r)
  {
    var st1 := if colnum in st.colnames then st else Named(st, colnum, GenerateName(cfg, colnum), FloatType);
    NamedWellFormed(st, colnum, GenerateName(cfg, colnum), FloatType);
    var name := st1.colnames[colnum];
    st1.(data := st1.data[name := st1.data[name] + [v]])
  }

  /// The body of readData's inner loop for token `col` in column `colnum`.
  function Token(cfg: Config, p: Parsers, st: State, colnum: nat, col: string): (r: Run)
    requires WellFormed(st)
    ensures WellFormed(r.st)
    ensures Typed(st) ==> Typed(r.st)
    ensures !r.ok ==> r.st == st
  {
    match Convert(p, EffectiveType(st, colnum), col)
    case None => DirectiveToken(cfg, st, colnum, col)
    case Some(v) => Run(Appended(cfg, st, colnum, v), true)
  }

  /// A token that does not convert and is blank once stripped is skipped.
  lemma BlankTokenSkipped(cfg: Config, p: Parsers, st: State, colnum: nat, col: string)
    requires WellFormed(st) && Convert(p, EffectiveType(st, colnum), col).None? && Strip(col) == []
    ensures Token(cfg, p, st, colnum, col) == Run(st, true)
  {
  }

  /// A column with no name yet is read as float.
  lemma UnnamedColumnReadsFloat(st: State, colnum: nat)
    requires WellFormed(st) && colnum !in st.colnames
    ensures EffectiveType(st, colnum) == FloatType
  {
  }

  /// A token that converts is appended to its column's list and to no other;
  /// an unnamed column is first given its generated name and the type float.
  lemma ValueAppended(cfg: Config, p: Parsers, st: State, colnum: nat, col: string)
    requires WellFormed(st) && Convert(p, EffectiveType(st, colnum), col).Some?
    ensures var r := Token(cfg, p, st, colnum, col);
      var v := Convert(p, EffectiveType(st, colnum), col).value;
      && r.ok && colnum in r.st.colnames
      && (colnum in st.colnames ==>
            r.st.colnames == st.colnames && r.st.coltypes == st.coltypes && r.st.nametypes == st.nametypes)
      && (colnum !in st.colnames ==>
            r.st.colnames[colnum] == GenerateName(cfg, colnum) && r.st.coltypes[colnum] == FloatType
            && r.st.nametypes[GenerateName(cfg, colnum)] == FloatType)
      && var name := r.st.colnames[colnum];
      && r.st.data.Keys == st.data.Keys + {name}
      && r.st.data[name] == (if name in st.data then st.data[name] else []) + [v]
      && (forall n :: n in st.data && n != name ==> r.st.data[n] == st.data[n])
  {
    NamedEffect(st, colnum, GenerateName(cfg, colnum), FloatType);
  }

  /// Any failed conversion of a non-blank token, not only in a header row,
  /// makes it a directive that renames and retypes the column.
  lemma FailedConversionIsDirective(cfg: Config, p: Parsers, st: State, colnum: nat, col: string)
    requires WellFormed(st) && Convert(p, EffectiveType(st, colnum), col).None? && Strip(col) != []
    ensures Strip(Strip(col)) == Strip(col)
    ensures var r := Token(cfg, p, st, colnum, col);
      match NameAndColType(cfg, st, colnum, Strip(col))
      case KeyError(_) => r == Run(st, false)
      case Found(d) => r == Run(Named(st, colnum, d.name, d.coltype), true)
  {
    StripIdempotent(col);
  }

  /// The tokens of one line from column k on; a KeyError stops the line.
  function Tokens(cfg: Config, p: Parsers, st: State, line: seq<string>, k: nat): (r: Run)
    requires WellFormed(st)
    ensures WellFormed(r.st)
    ensures Typed(st) ==> Typed(r.st)
    decreases |line| - k
  {
    if k >= |line| then Run(st, true)
    else
      var r := Token(cfg, p, st, k, line[k]);
      if !r.ok then r else Tokens(cfg, p, r.st, line, k + 1)
  }

  /// The lines from line i on; a KeyError stops the reading.
  function ReadLines(cfg: Config, p: Parsers, st: State, lines: seq<seq<string>>, i: nat): (r: Run)
    requires WellFormed(st)
    ensures WellFormed(r.st)
    ensures Typed(st) ==> Typed(r.st)
    decreases |lines| - i
  {
    if i >= |lines| then Run(st, true)
    else
      var r := Tokens(cfg, p, st, lines[i], 0);
      if !r.ok then r else ReadLines(cfg, p, r.st, lines, i + 1)
  }

  /// One token further into a line.
  lemma TokensStep(cfg: Config, p: Parsers, st: State, line: seq<string>, k: nat)
    requires WellFormed(st) && k < |line|
    ensures var r := Token(cfg, p, st, k, line[k]);
      Tokens(cfg, p, st, line, k) == if r.ok then Tokens(cfg, p, r.st, line, k + 1) else r
  {
  }

  /// One line further into the file.
  lemma ReadLinesStep(cfg: Config, p: Parsers, st: State, lines: seq<seq<string>>, i: nat)
    requires WellFormed(st) && i < |lines|
    ensures var r := Tokens(cfg, p, st, lines[i], 0);
      ReadLines(cfg, p, st, lines, i) == if r.ok then ReadLines(cfg, p, r.st, lines, i + 1) else r
  {
  }

  /// The state at the start of readData: the value lists of earlier reads
  /// are kept, the column tables start empty.
  function Fresh(data: map<string, seq<Cell>>): State {
    State(data, map[], [], map[])
  }

  /// A first read into a new reader leaves every name with values typed,
  /// so its setData finds the type of every base name.
  lemma FirstReadTyped(cfg: Config, p: Parsers, lines: seq<seq<string>>)
    ensures WellFormed(Fresh(map[])) && Typed(ReadLines(cfg, p, Fresh(map[]), lines, 0).st)
  {
  }

  //////////////////////////////////////////////////////////////////////////
  // Reading in columns (_FileReaderRows)

  /// The length of the longest row.
  function MaxLength(rows: seq<seq<string>>): (m: nat)
    ensures forall i :: 0 <= i < |rows| ==> |rows[i]| <= m
    ensures rows != [] ==> exists i :: 0 <= i < |rows| && |rows[i]| == m
    ensures rows == [] ==> m == 0
  {
    if rows == [] then 0
    else
      var m := MaxLength(rows[..|rows| - 1]);
      var last := |rows[|rows| - 1]|;
      if m >= last then m else last
  }

  /// Column k of the rows, with '' for rows too short to have one.
  function Column(rows: seq<seq<string>>, k: nat): seq<string> {
    seq(|rows|, i requires 0 <= i < |rows| => if k < |rows[i]| then rows[i][k] else "")
  }

  /// The columns in order, as many as the longest row is long.
  function Columns(rows: seq<seq<string>>): seq<seq<string>> {
    seq(MaxLength(rows), k requires 0 <= k => Column(rows, k))
  }

  /// The lines readData iterates over.
  function LinesOf(csvlines: seq<seq<string>>, readrows: bool): seq<seq<string>> {
    if readrows then Columns(csvlines) else csvlines
  }

  /// Reading a grid whose rows all have one length w > 0 in columns, and
  /// the result in columns again, gives back the grid.
  lemma TransposeTwice(rows: seq<seq<string>>, w: nat)
    requires w > 0 && forall i :: 0 <= i < |rows| ==> |rows[i]| == w
    ensures Columns(Columns(rows)) == rows
  {
    if rows != [] {
      var cols := Columns(rows);
      assert |cols| == w;
      assert |cols[0]| == |rows|;
      var back := Columns(cols);
      assert |back| == |rows|;
      forall i | 0 <= i < |rows|
        ensures back[i] == rows[i]
      {
        assert |back[i]| == w;
        forall k | 0 <= k < w
          ensures back[i][k] == rows[i][k]
        {
          assert back[i][k] == cols[k][i];
        }
      }
    }
  }

  /// _FileReaderRows: all lines are read in first, then handed out column by column.
  class RowsReader {
    var data: seq<seq<string>>
    var maxlength: nat
    var counter: nat

    constructor (csvlines: seq<seq<string>>)
      ensures data == csvlines && maxlength == MaxLength(csvlines) && counter == 0
    {
      var lines: seq<seq<string>> := [];
      var longest := 0;
      for i := 0 to |csvlines|
        invariant lines == csvlines[..i] && longest == MaxLength(lines)
      {
        assert csvlines[..i + 1][..i] == csvlines[..i];
        longest := if longest >= |csvlines[i]| then longest else |csvlines[i]|;
        lines := lines + [csvlines[i]];
      }
      assert csvlines[..|csvlines|] == csvlines;
      data, maxlength, counter := lines, longest, 0;
    }

    /// The next column, or None (StopIteration) once maxlength columns are out.
    method Next() returns (col: Option<seq<string>>)
      requires counter <= maxlength
      modifies this
      ensures data == old(data) && maxlength == old(maxlength) && counter <= maxlength
      ensures old(counter) == maxlength ==> col == None && counter == old(counter)
      ensures old(counter) < maxlength ==> col == Some(Column(data, old(counter))) && counter == old(counter) + 1
    {
      if counter == maxlength {
        return None;
      }
      var retn: seq<string> := [];
      for i := 0 to |data|
        invariant |retn| == i
        invariant forall j :: 0 <= j < i ==> retn[j] == if counter < |data[j]| then data[j][counter] else ""
      {
        if counter >= |data[i]| {
          retn := retn + [""];
        } else {
          retn := retn + [data[i][counter]];
        }
      }
      assert retn == Column(data, counter);
      counter := counter + 1;
      return Some(retn);
    }
  }

  /// _FileReaderCols: the lines of the tokeniser, in order.
  class ColsReader {
    var rows: seq<seq<string>>
    var counter: nat

    constructor (csvlines: seq<seq<string>>)
      ensures rows == csvlines && counter == 0
    {
      rows, counter := csvlines, 0;
    }

    method Next() returns (line: Option<seq<string>>)
      modifies this
      ensures rows == old(rows)
      ensures old(counter) >= |rows| ==> line == None && counter == old(counter)
      ensures old(counter) < |rows| ==> line == Some(rows[old(counter)]) && counter == old(counter) + 1
    {
      if counter >= |rows| {
        return None;
      }
      line := Some(rows[counter]);
      counter := counter + 1;
    }
  }

  //////////////////////////////////////////////////////////////////////////
  // The reader

  function OptionalList(data: map<string, seq<Cell>>, name: string): Option<seq<Cell>> {
    if name in data then Some(data[name]) else None
  }

  /// The dataset setData hands to the document for a base name.
  function DocumentEntry(st: State, name: string): DocDataset
    requires name in st.data && name in st.nametypes
  {
    if st.nametypes[name] == StringType then TextDataset(st.data[name])
    else Numeric(st.data[name], OptionalList(st.data, name + "+-"),
                 OptionalList(st.data, name + "+"), OptionalList(st.data, name + "-"))
  }

  function BaseNames(st: State): set<string> {
    set n | n in st.data && IsBaseName(n)
  }

  predicate Distinct(s: seq<string>) {
    forall i, j :: 0 <= i < j < |s| ==> s[i] != s[j]
  }

  /// Each element of a sequence without repetitions occurs in it once.
  lemma {:induction false} DistinctCount(s: seq<string>)
    requires Distinct(s)
    ensures forall x :: multiset(s)[x] == if x in s then 1 else 0
  {
    if s != [] {
      var t := s[..|s| - 1];
      DistinctCount(t);
      assert s == t + [s[|s| - 1]];
      assert s[|s| - 1] !in t;
    }
  }

  /// The document after the names of `done` have been handed to it.
  ghost predicate Delivered(st: State, document: map<string, DocDataset>, updated: map<string, DocDataset>, done: set<string>) {
    && (forall n :: n in done ==> n in st.data && n in st.nametypes)
    && updated.Keys == document.Keys + done
    && forall n :: n in updated ==> updated[n] == if n in done then DocumentEntry(st, n) else document[n]
  }

  /// The invariant of setData's loop: the names of data outside `keys`
  /// that are base names are listed once each in `names` and have been
  /// handed to the document.
  ghost predicate SetDataProgress(st: State, document: map<string, DocDataset>, keys: set<string>,
                                  names: seq<string>, updated: map<string, DocDataset>)
  {
    && keys <= st.data.Keys
    && Distinct(names) && (forall n :: n in names <==> n in BaseNames(st) && n !in keys)
    && Delivered(st, document, updated, BaseNames(st) - keys)
  }

  lemma SetDataStart(st: State, document: map<string, DocDataset>)
    requires forall n :: n in st.data ==> n != [] && (IsBaseName(n) ==> n in st.nametypes)
    ensures SetDataProgress(st, document, st.data.Keys, [], document)
  {
  }

  lemma SetDataSkip(st: State, document: map<string, DocDataset>, keys: set<string>,
                    names: seq<string>, updated: map<string, DocDataset>, name: string)
    requires SetDataProgress(st, document, keys, names, updated)
    requires name in keys && (name == [] || !IsBaseName(name))
    ensures SetDataProgress(st, document, keys - {name}, names, updated)
  {
    assert BaseNames(st) - (keys - {name}) == BaseNames(st) - keys;
  }

  lemma SetDataAdd(st: State, document: map<string, DocDataset>, keys: set<string>,
                   names: seq<string>, updated: map<string, DocDataset>, name: string)
    requires forall n :: n in st.data ==> n != [] && (IsBaseName(n) ==> n in st.nametypes)
    requires SetDataProgress(st, document, keys, names, updated)
    requires name in keys && IsBaseName(name)
    ensures name in st.data && name in st.nametypes
    ensures SetDataProgress(st, document, keys - {name}, names + [name], updated[name := DocumentEntry(st, name)])
  {
    assert name !in names;
    assert BaseNames(st) - (keys - {name}) == (BaseNames(st) - keys) + {name};
  }

  lemma SetDataEnd(st: State, document: map<string, DocDataset>, names: seq<string>, updated: map<string, DocDataset>)
    requires SetDataProgress(st, document, {}, names, updated)
    ensures forall n :: multiset(names)[n] == if n in BaseNames(st) then 1 else 0
    ensures updated.Keys == document.Keys + BaseNames(st)
    ensures forall n :: n in updated ==>
      updated[n] == if n in BaseNames(st) then DocumentEntry(st, n) else document[n]
  {
    DistinctCount(names);
    assert BaseNames(st) - {} == BaseNames(st);
  }

  class ReadCSV {
    const config: Config
    var data: map<string, seq<Cell>>
    var colnames: map<nat, string>
    var coltypes: seq<ColType>
    var nametypes: map<string, ColType>

    constructor (readrows: bool, prefix: string, suffix: string)
      ensures config == Config(prefix, suffix, readrows) && St() == Fresh(map[])
      ensures Valid() && Typed(St())
    {
      config := Config(prefix, suffix, readrows);
      data, colnames, coltypes, nametypes := map[], map[], [], map[];
    }

    function St(): State
      reads this
    {
      State(data, colnames, coltypes, nametypes)
    }

    predicate Valid()
      reads this
    {
      WellFormed(St())
    }

    /// _getNameAndColType: the backward while loop of lines 120-127.
    method GetNameAndColType(colnum: nat, colval: string) returns (r: Lookup)
      requires Valid() && Strip(colval) != []
      ensures r == NameAndColType(config, St(), colnum, colval)
    {
      StrippedHasWords(colval);
      var s := Words(Strip(colval));
      var name := s[0];
      var coltype := s[|s| - 1];
      ghost var expected := Resolve(config, St(), colnum, name, coltype);
      assert NameAndColType(config, St(), colnum, colval) == expected;
      if name == "+" || name == "-" || name == "+-" {
        var prevcol := colnum - 1;
        while prevcol >= 0
          invariant -1 <= prevcol < colnum
          invariant ScanBase(colnames, prevcol) == ScanBase(colnames, colnum - 1)
          decreases prevcol + 1
        {
          if prevcol !in colnames {
            return KeyError(prevcol);
          }
          var n := colnames[prevcol];
          if |n| > 0 && n[|n| - 1] != '+' && n[|n| - 1] != '-' {
            return Found(Directive(coltypes[prevcol], n + name));
          }
          prevcol := prevcol - 1;
        }
        name := GenerateName(config, colnum);
      }
      r := Found(Directive(TypeOfWord(coltype), config.prefix + name + config.suffix));
    }

    /// _setNameAndType.
    method SetNameAndType(colnum: nat, colname: string, coltype: ColType)
      modifies this
      ensures St() == Named(old(St()), colnum, colname, coltype)
    {
      while colnum >= |coltypes|
        invariant |old(coltypes)| <= |coltypes| <= (if |old(coltypes)| >= colnum + 1 then |old(coltypes)| else colnum + 1)
        invariant coltypes[..|old(coltypes)|] == old(coltypes)
        invariant forall i :: |old(coltypes)| <= i < |coltypes| ==> coltypes[i] == Unset
        invariant data == old(data) && colnames == old(colnames) && nametypes == old(nametypes)
        decreases colnum + 1 - |coltypes|
      {
        coltypes := coltypes + [Unset];
      }
      ghost var padded := Pad(old(coltypes), colnum + 1);
      assert |coltypes| == |padded|;
      forall i | 0 <= i < |coltypes|
        ensures coltypes[i] == padded[i]
      {
        if i < |old(coltypes)| {
          assert coltypes[..|old(coltypes)|][i] == coltypes[i];
          assert padded[..|old(coltypes)|][i] == padded[i];
        }
      }
      assert coltypes == padded;
      coltypes := coltypes[colnum := coltype];
      nametypes := nametypes[colname := coltype];
      colnames := colnames[colnum := colname];
      if colname !in data {
        data := data[colname := []];
      }
    }

    /// One iteration of the inner loop of readData.
    method ProcessToken(colnum: nat, col: string, p: Parsers) returns (ok: bool)
      requires Valid()
      modifies this
      ensures Run(St(), ok) == Token(config, p, old(St()), colnum, col)
      ensures Valid()
    {
      ghost var st0 := St();
      var ctype := if colnum >= |coltypes| || coltypes[colnum] == Unset then FloatType else coltypes[colnum];
      var v := Convert(p, ctype, col);
      if v.None? {
        assert Token(config, p, st0, colnum, col) == DirectiveToken(config, st0, colnum, col);
        var stripped := Strip(col);
        if stripped == [] {
          return true;
        }
        StripIdempotent(col);
        var r := GetNameAndColType(colnum, stripped);
        if r.KeyError? {
          return false;
        }
        NamedWellFormed(st0, colnum, r.d.name, r.d.coltype);
        SetNameAndType(colnum, r.d.name, r.d.coltype);
      } else {
        assert Token(config, p, st0, colnum, col) == Run(Appended(config, st0, colnum, v.value), true);
        if colnum !in colnames {
          NamedWellFormed(st0, colnum, GenerateName(config, colnum), FloatType);
          SetNameAndType(colnum, GenerateName(config, colnum), FloatType);
        }
        var name := colnames[colnum];
        data := data[name := data[name] + [v.value]];
      }
      ok := true;
    }

    /// The inner loop of readData over the tokens of one line.
    method ReadLine(line: seq<string>, p: Parsers) returns (ok: bool)
      requires Valid()
      modifies this
      ensures Valid()
      ensures Run(St(), ok) == Tokens(config, p, old(St()), line, 0)
    {
      var colnum := 0;
      while colnum < |line|
        invariant colnum <= |line| && Valid()
        invariant Tokens(config, p, St(), line, colnum) == Tokens(config, p, old(St()), line, 0)
      {
        ghost var before := St();
        TokensStep(config, p, before, line, colnum);
        ok := ProcessToken(colnum, line[colnum], p);
        assert Run(St(), ok) == Token(config, p, before, colnum, line[colnum]);
        if !ok {
          return;
        }
        colnum := colnum + 1;
      }
      ok := true;
    }

    /// readData on the tokenised file: each line (each column when reading
    /// in rows) is processed token by token; a KeyError ends the reading
    /// with the state reached so far.
    method ReadData(csvlines: seq<seq<string>>, p: Parsers) returns (ok: bool)
      requires Valid()
      modifies this
      ensures Valid()
      ensures Run(St(), ok) == ReadLines(config, p, Fresh(old(data)), LinesOf(csvlines, config.readrows), 0)
    {
      var rows: RowsReader? := null;
      var cols: ColsReader? := null;
      if config.readrows {
        rows := new RowsReader(csvlines);
      } else {
        cols := new ColsReader(csvlines);
      }
      colnames, coltypes, nametypes := map[], [], map[];
      ghost var lines := LinesOf(csvlines, config.readrows);
      ghost var i: nat := 0;
      while true
        invariant i <= |lines| && Valid()
        invariant config.readrows ==>
          rows != null && fresh(rows) && rows.data == csvlines && rows.maxlength == |lines| && rows.counter == i
        invariant !config.readrows ==> cols != null && fresh(cols) && cols.rows == csvlines && cols.counter == i
        invariant ReadLines(config, p, St(), lines, i) == ReadLines(config, p, Fresh(old(data)), lines, 0)
        decreases |lines| - i
      {
        var line: Option<seq<string>>;
        if config.readrows {
          line := rows.Next();
        } else {
          line := cols.Next();
        }
        if line.None? {
          return true;
        }
        assert line.value == lines[i];
        ghost var before := St();
        ReadLinesStep(config, p, before, lines, i);
        ok := ReadLine(line.value, p);
        if !ok {
          return;
        }
        i := i + 1;
      }
    }

    /// setData: every base name goes to the document, with its error lists
    /// when it has them; the base names come back sorted.
    method SetData(document: map<string, DocDataset>) returns (updated: map<string, DocDataset>, dsnames: seq<string>)
      requires forall n :: n in data ==> n != [] && (IsBaseName(n) ==> n in nametypes)
      ensures Sorted(dsnames)
      ensures forall n :: multiset(dsnames)[n] == if n in BaseNames(St()) then 1 else 0
      ensures updated.Keys == document.Keys + BaseNames(St())
      ensures forall n :: n in updated ==>
        updated[n] == if n in BaseNames(St()) then DocumentEntry(St(), n) else document[n]
    {
      ghost var st := St();
      var keys := data.Keys;
      var names: seq<string> := [];
      updated := document;
      SetDataStart(st, document);
      while keys != {}
        invariant SetDataProgress(st, document, keys, names, updated)
        decreases keys
      {
        var name :| name in keys;
        if name[|name| - 1] == '+' || name[|name| - 1] == '-' {
          SetDataSkip(st, document, keys, names, updated, name);
          keys := keys - {name};
          continue;
        }
        SetDataAdd(st, document, keys, names, updated, name);
        keys := keys - {name};
        names := names + [name];
        updated := updated[name := DocumentEntry(St(), name)];
      }
      SetDataEnd(st, document, names, updated);
      dsnames := Sort(names);
      SortSorted(names);
    }
  }
}
