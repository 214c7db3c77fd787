/**
 * The instrument-file readers of plot.py (read_XRD, read_OpticsLab,
 * read_UVVis, read_QCM_average, read_FTIR, read_CLSEM).
 *
 * A file is given as the sequence of its lines, as `readline`/`readlines`
 * hand them out; opening the file is not modelled. Python's `float()` is
 * the parameter `parse`: `Some(v)` for text it converts, `None` where it
 * raises ValueError. Every reader skips a fixed header, splits each data
 * line into words, and appends `float(words[k])` for the first few `k` to
 * one list per column; the common loop is `ReadTable`.
 */
module Readers {
  import opened Results
  import opened PyStrings

  type Parser = string -> Option<real>

  /** The exception a reader stops with. */
  datatype ReadError =
    | UnboundSeparator                    // read_XRD, neither .txt nor .xy: `separator` was never assigned
    | NoDataLines                         // `lines[0]` on an empty list (read_UVVis, read_FTIR)
    | MissingField(row: nat, field: nat)  // `words[field]` past the end of the split data line `row`
    | BadNumber(row: nat, field: nat)     // `float(words[field])` rejects the text on data line `row`

  /** How a line is cut into words: `line.split(sep)` or `line.split()`. */
  datatype Splitter = OnChar(sep: char) | OnWhitespace

  /**
   * How one data line becomes numbers: whether every ',' is first rewritten
   * to '.', how it is split, how many leading words are converted, and
   * whether lines that do not split into exactly that many words are skipped.
   */
  datatype RowFormat = RowFormat(commaDecimal: bool, splitter: Splitter, width: nat, exactOnly: bool)

  /** The lines left after `count` calls of `readline`: on a shorter file, none. */
  function HeaderSkipped(file: seq<string>, count: nat): (data: seq<string>)
    ensures |data| == if count <= |file| then |file| - count else 0
    ensures forall i :: 0 <= i < |data| ==> data[i] == file[count + i]
  {
    if count <= |file| then file[count..] else []
  }

  /** The words of one data line under a format. */
  function Words(line: string, fmt: RowFormat): seq<string>
  {
    var text := if fmt.commaDecimal then ReplaceChar(line, ',', '.') else line;
    match fmt.splitter
    case OnChar(sep) => Split(text, sep)
    case OnWhitespace => SplitWhitespace(text)
  }

  /** `float(words[k])`, or None where either the index or the conversion fails. */
  function FieldValue(words: seq<string>, k: nat, parse: Parser): Option<real>
  {
    if k < |words| then parse(words[k]) else None
  }

  /** Every one of the first `width` words exists and converts. */
  predicate RowOk(words: seq<string>, width: nat, parse: Parser)
  {
    forall k :: 0 <= k < width ==> FieldValue(words, k, parse).Some?
  }

  /** The line is processed at all (read_UVVis skips lines without exactly two words). */
  predicate Counted(line: string, fmt: RowFormat)
  {
    !fmt.exactOnly || |Words(line, fmt)| == fmt.width
  }

  /**
   * `e` is the exception that converting fields 0, 1, ... of `words` in
   * order raises first: IndexError past the end, else ValueError.
   */
  predicate FailsFirst(e: ReadError, words: seq<string>, width: nat, parse: Parser, row: nat)
  {
    && (e.MissingField? || e.BadNumber?)
    && e.row == row && e.field < width
    && FieldValue(words, e.field, parse).None?
    && (e.MissingField? <==> e.field >= |words|)
    && forall k :: 0 <= k < e.field ==> FieldValue(words, k, parse).Some?
  }

  /** `float(words[0]), ..., float(words[width - 1])` of data line `row`, left to right. */
  function ParseFields(words: seq<string>, width: nat, parse: Parser, row: nat): (r: Result<seq<real>, ReadError>)
    ensures r.Ok? <==> RowOk(words, width, parse)
    ensures r.Ok? ==> |r.value| == width && forall k :: 0 <= k < width ==> FieldValue(words, k, parse) == Some(r.value[k])
    ensures r.Err? ==> FailsFirst(r.error, words, width, parse, row)
    decreases width
  {
    if width == 0 then Ok([])
    else
      match ParseFields(words, width - 1, parse, row)
      case Err(e) => Err(e)
      case Ok(front) =>
        var k := width - 1;
        if k >= |words| then
          assert FieldValue(words, k, parse).None?;
          Err(MissingField(row, k))
        else
          match parse(words[k])
          case None =>
            assert FieldValue(words, k, parse).None?;
            Err(BadNumber(row, k))
          case Some(v) => Ok(front + [v])
  }

  /** The lines that give a row of output, in file order. */
  function Kept(lines: seq<string>, fmt: RowFormat): (kept: seq<string>)
    ensures |kept| <= |lines|
    ensures forall i :: 0 <= i < |kept| ==> Counted(kept[i], fmt)
  {
    if lines == [] then []
    else
      var last := lines[|lines| - 1];
      Kept(lines[..|lines| - 1], fmt) + (if Counted(last, fmt) then [last] else [])
  }

  /** Without the exactly-`width` filter every line is kept. */
  lemma {:induction false} KeptAll(lines: seq<string>, fmt: RowFormat)
    requires !fmt.exactOnly
    ensures Kept(lines, fmt) == lines
  {
    if lines != [] {
      KeptAll(lines[..|lines| - 1], fmt);
      assert lines[..|lines| - 1] + [lines[|lines| - 1]] == lines;
    }
  }

  /**
   * Every line that passes the filter is kept, in file order: line `j` comes
   * right after the lines kept from before it.
   */
  lemma {:induction false} KeptIncludes(lines: seq<string>, fmt: RowFormat, j: nat)
    requires j < |lines| && Counted(lines[j], fmt)
    ensures |Kept(lines[..j], fmt)| < |Kept(lines, fmt)|
    ensures Kept(lines, fmt)[|Kept(lines[..j], fmt)|] == lines[j]
  {
    var front := lines[..|lines| - 1];
    if j < |lines| - 1 {
      assert front[..j] == lines[..j];
      KeptIncludes(front, fmt, j);
    } else {
      assert lines[..j] == front;
    }
  }

  /** A single line is kept exactly when it passes the filter. */
  lemma KeptOne(line: string, fmt: RowFormat)
    ensures Kept([line], fmt) == if Counted(line, fmt) then [line] else []
  {
    assert [line][..0] == [];
  }

  /**
   * Reading two stretches of lines keeps what each keeps, in order, and
   * nothing else: with KeptOne, one entry per line that passes the filter.
   */
  lemma {:induction false} KeptConcat(a: seq<string>, b: seq<string>, fmt: RowFormat)
    ensures Kept(a + b, fmt) == Kept(a, fmt) + Kept(b, fmt)
    decreases |b|
  {
    if b == [] {
      assert a + b == a;
    } else {
      var front := b[..|b| - 1];
      assert (a + b)[..|a + b| - 1] == a + front;
      assert (a + b)[|a + b| - 1] == b[|b| - 1];
      KeptConcat(a, front, fmt);
    }
  }

  /** One `append` to each column list. */
  function AppendRow(cols: seq<seq<real>>, vals: seq<real>): (r: seq<seq<real>>)
    requires |cols| == |vals|
    ensures |r| == |cols|
    ensures forall c :: 0 <= c < |r| ==> r[c] == cols[c] + [vals[c]]
  {
    seq(|cols|, c requires 0 <= c < |cols| => cols[c] + [vals[c]])
  }

  /**
   * The column lists after the loop over `lines`, or the exception it stops
   * with: one list per converted field, one entry per kept line.
   */
  function Table(lines: seq<string>, fmt: RowFormat, parse: Parser): (r: Result<seq<seq<real>>, ReadError>)
    ensures r.Ok? ==> |r.value| == fmt.width
    ensures r.Ok? ==> forall c :: 0 <= c < fmt.width ==> |r.value[c]| == |Kept(lines, fmt)|
    decreases |lines|
  {
    if lines == [] then Ok(seq(fmt.width, _ => []))
    else
      var row := |lines| - 1;
      match Table(lines[..row], fmt, parse)
      case Err(e) => Err(e)
      case Ok(cols) =>
        if !Counted(lines[row], fmt) then Ok(cols)
        else
          match ParseFields(Words(lines[row], fmt), fmt.width, parse, row)
          case Err(e) => Err(e)
          case Ok(vals) => Ok(AppendRow(cols, vals))
  }

  /**
   * The `for line in lines` loop every reader runs: split, convert, append;
   * the first exception ends the read.
   */
  method ReadTable(lines: seq<string>, fmt: RowFormat, parse: Parser) returns (r: Result<seq<seq<real>>, ReadError>)
    ensures r == Table(lines, fmt, parse)
  {
    var cols: seq<seq<real>> := seq(fmt.width, _ => []);
    var i := 0;
    while i < |lines|
      invariant 0 <= i <= |lines|
      invariant Table(lines[..i], fmt, parse) == Ok(cols)
    {
      assert lines[..i + 1][..i] == lines[..i];
      var words := Words(lines[i], fmt);
      if Counted(lines[i], fmt) {
        var vals := ParseFields(words, fmt.width, parse, i);
        if vals.Err? {
          TableErrorStays(lines, fmt, parse, i + 1);
          assert lines[..|lines|] == lines;
          return Err(vals.error);
        }
        cols := AppendRow(cols, vals.value);
      }
      i := i + 1;
    }
    assert lines[..i] == lines;
    r := Ok(cols);
  }

  /** Once a prefix of the lines raises, the whole read raises the same. */
  lemma {:induction false} TableErrorStays(lines: seq<string>, fmt: RowFormat, parse: Parser, n: nat)
    requires n <= |lines|
    requires Table(lines[..n], fmt, parse).Err?
    ensures Table(lines, fmt, parse) == Table(lines[..n], fmt, parse)
    decreases |lines| - n
  {
    if n < |lines| {
      var m := |lines| - 1;
      assert lines[..m][..n] == lines[..n];
      TableErrorStays(lines[..m], fmt, parse, n);
    } else {
      assert lines[..n] == lines;
    }
  }

  /** The line is skipped, or converts completely. */
  predicate LineOk(line: string, fmt: RowFormat, parse: Parser)
  {
    Counted(line, fmt) ==> RowOk(Words(line, fmt), fmt.width, parse)
  }

  /** Every line among `lines` is skipped or converts completely. */
  predicate AllRowsOk(lines: seq<string>, fmt: RowFormat, parse: Parser)
  {
    forall j :: 0 <= j < |lines| ==> LineOk(lines[j], fmt, parse)
  }

  /**
   * `e` is raised by the first counted line that does not convert, at the
   * first of its fields that fails.
   */
  predicate FirstFailingRow(e: ReadError, lines: seq<string>, fmt: RowFormat, parse: Parser)
  {
    && (e.MissingField? || e.BadNumber?)
    && e.row < |lines|
    && Counted(lines[e.row], fmt)
    && FailsFirst(e, Words(lines[e.row], fmt), fmt.width, parse, e.row)
    && AllRowsOk(lines[..e.row], fmt, parse)
  }

  /** The read succeeds exactly when every counted line converts; otherwise it stops at the first bad one. */
  lemma {:induction false} TableOutcome(lines: seq<string>, fmt: RowFormat, parse: Parser)
    ensures Table(lines, fmt, parse).Ok? <==> AllRowsOk(lines, fmt, parse)
    ensures Table(lines, fmt, parse).Err? ==> FirstFailingRow(Table(lines, fmt, parse).error, lines, fmt, parse)
    decreases |lines|
  {
    if lines != [] {
      var row := |lines| - 1;
      var front := lines[..row];
      TableOutcome(front, fmt, parse);
      if Table(front, fmt, parse).Err? {
        FrontFailure(lines, fmt, parse);
      } else {
        LastLine(lines, fmt, parse);
      }
    }
  }

  /** Step of TableOutcome: the failure of all but the last line is the failure of all of them. */
  lemma FrontFailure(lines: seq<string>, fmt: RowFormat, parse: Parser)
    requires lines != []
    requires Table(lines[..|lines| - 1], fmt, parse).Err?
    requires FirstFailingRow(Table(lines[..|lines| - 1], fmt, parse).error, lines[..|lines| - 1], fmt, parse)
    ensures Table(lines, fmt, parse).Err? && !AllRowsOk(lines, fmt, parse)
    ensures FirstFailingRow(Table(lines, fmt, parse).error, lines, fmt, parse)
  {
    var front := lines[..|lines| - 1];
    var e := Table(front, fmt, parse).error;
    assert Table(lines, fmt, parse) == Err(e);
    assert lines[e.row] == front[e.row];
    assert lines[..e.row] == front[..e.row];
    assert !LineOk(lines[e.row], fmt, parse) by {
      assert FieldValue(Words(lines[e.row], fmt), e.field, parse).None?;
    }
  }

  /** Step of TableOutcome: when all but the last line convert, the last line decides. */
  lemma LastLine(lines: seq<string>, fmt: RowFormat, parse: Parser)
    requires lines != []
    requires Table(lines[..|lines| - 1], fmt, parse).Ok?
    requires AllRowsOk(lines[..|lines| - 1], fmt, parse)
    ensures Table(lines, fmt, parse).Ok? <==> AllRowsOk(lines, fmt, parse)
    ensures Table(lines, fmt, parse).Err? ==> FirstFailingRow(Table(lines, fmt, parse).error, lines, fmt, parse)
  {
    var row := |lines| - 1;
    var words := Words(lines[row], fmt);
    if LineOk(lines[row], fmt, parse) {
      LastLineConverts(lines, fmt, parse);
    } else {
      LastLineFails(lines, fmt, parse);
    }
  }

  lemma LastLineConverts(lines: seq<string>, fmt: RowFormat, parse: Parser)
    requires lines != []
    requires Table(lines[..|lines| - 1], fmt, parse).Ok?
    requires AllRowsOk(lines[..|lines| - 1], fmt, parse)
    requires LineOk(lines[|lines| - 1], fmt, parse)
    ensures Table(lines, fmt, parse).Ok? && AllRowsOk(lines, fmt, parse)
  {
    var row := |lines| - 1;
    var cols := Table(lines[..row], fmt, parse).value;
    if Counted(lines[row], fmt) {
      var p := ParseFields(Words(lines[row], fmt), fmt.width, parse, row);
      assert Table(lines, fmt, parse) == Ok(AppendRow(cols, p.value));
    } else {
      assert Table(lines, fmt, parse) == Ok(cols);
    }
    AllRowsOkSnoc(lines, fmt, parse);
  }

  lemma AllRowsOkSnoc(lines: seq<string>, fmt: RowFormat, parse: Parser)
    requires lines != []
    requires AllRowsOk(lines[..|lines| - 1], fmt, parse)
    requires LineOk(lines[|lines| - 1], fmt, parse)
    ensures AllRowsOk(lines, fmt, parse)
  {
    var front := lines[..|lines| - 1];
    forall j | 0 <= j < |lines|
      ensures LineOk(lines[j], fmt, parse)
    {
      if j < |front| {
        assert lines[j] == front[j];
      }
    }
  }

  lemma LastLineFails(lines: seq<string>, fmt: RowFormat, parse: Parser)
    requires lines != []
    requires Table(lines[..|lines| - 1], fmt, parse).Ok?
    requires AllRowsOk(lines[..|lines| - 1], fmt, parse)
    requires !LineOk(lines[|lines| - 1], fmt, parse)
    ensures Table(lines, fmt, parse).Err? && !AllRowsOk(lines, fmt, parse)
    ensures FirstFailingRow(Table(lines, fmt, parse).error, lines, fmt, parse)
  {
    var row := |lines| - 1;
    var p := ParseFields(Words(lines[row], fmt), fmt.width, parse, row);
    assert Table(lines, fmt, parse) == Err(p.error);
    assert lines[..row] == lines[..|lines| - 1];
  }

  /**
   * Entry `i` of column `c` is field `c` of the `i`-th kept line: the
   * columns are parallel and in file order.
   */
  lemma {:induction false} TableEntries(lines: seq<string>, fmt: RowFormat, parse: Parser, i: nat, c: nat)
    requires Table(lines, fmt, parse).Ok?
    requires i < |Kept(lines, fmt)| && c < fmt.width
    ensures FieldValue(Words(Kept(lines, fmt)[i], fmt), c, parse) == Some(Table(lines, fmt, parse).value[c][i])
    decreases |lines|
  {
    var row := |lines| - 1;
    var front := lines[..row];
    var cols := Table(front, fmt, parse).value;
    if i < |Kept(front, fmt)| {
      TableEntries(front, fmt, parse, i, c);
    }
  }

  /** The comma-decimal lines, rewritten to periods. */
  function RewriteCommas(lines: seq<string>): (r: seq<string>)
    ensures |r| == |lines|
    ensures forall i :: 0 <= i < |lines| ==> r[i] == ReplaceChar(lines[i], ',', '.')
  {
    seq(|lines|, i requires 0 <= i < |lines| => ReplaceChar(lines[i], ',', '.'))
  }

  /** Rewriting ',' to '.' inside the loop reads the same as reading lines already rewritten. */
  lemma {:induction false} CommaRewriteTable(lines: seq<string>, fmt: RowFormat, parse: Parser)
    requires fmt.commaDecimal
    ensures Table(RewriteCommas(lines), fmt.(commaDecimal := false), parse) == Table(lines, fmt, parse)
    decreases |lines|
  {
    if lines != [] {
      var row := |lines| - 1;
      var plain := fmt.(commaDecimal := false);
      var rewritten := RewriteCommas(lines);
      assert rewritten[..row] == RewriteCommas(lines[..row]);
      CommaRewriteTable(lines[..row], fmt, parse);
      assert Words(rewritten[row], plain) == Words(lines[row], fmt);
    }
  }
}
