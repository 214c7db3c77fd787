/**
 * The six readers of plot.py, each a fixed header skip and line layout
 * over the common loop `Readers.ReadTable`.
 */
module Instruments {
  import opened Results
  import opened PyStrings
  import opened Readers

  /** Two parallel columns, as the two-list readers return them. */
  datatype Series = Series(x: seq<real>, y: seq<real>)

  /** The seven lists read_QCM_average returns: time, then mean and two deviations for channels A and B. */
  datatype QcmAverage = QcmAverage(
    time: seq<real>, averageA: seq<real>, stdevA1: seq<real>, stdevA2: seq<real>,
    averageB: seq<real>, stdevB1: seq<real>, stdevB2: seq<real>)
  {
    /** The list filled from field `k` of each line. */
    function Column(k: nat): seq<real>
      requires k < 7
    {
      match k
      case 0 => time
      case 1 => averageA
      case 2 => stdevA1
      case 3 => stdevA2
      case 4 => averageB
      case 5 => stdevB1
      case _ => stdevB2
    }
  }

  /** Fields 0 and 1 of `line.split(",")`: read_XRD on .txt files, read_CLSEM. */
  const CommaPair := RowFormat(false, OnChar(','), 2, false)
  /** Fields 0 and 1 of `line.split(" ")`: read_XRD on .xy files. */
  const SpacePair := RowFormat(false, OnChar(' '), 2, false)

  /** The first `width` fields of `line.split("\t")`: read_OpticsLab, read_QCM_average. */
  function TabColumns(width: nat): RowFormat
  {
    RowFormat(false, OnChar('\t'), width, false)
  }

  /** Fields 0 and 1 of `line.split()`, after ',' -> '.' when `commaDecimal`: read_UVVis, read_FTIR. */
  function WhitespacePair(commaDecimal: bool, exactOnly: bool): RowFormat
  {
    RowFormat(commaDecimal, OnWhitespace, 2, exactOnly)
  }

  function TwoColumns(t: Result<seq<seq<real>>, ReadError>): Result<Series, ReadError>
    requires t.Ok? ==> |t.value| == 2
  {
    match t
    case Err(e) => Err(e)
    case Ok(cols) => Ok(Series(cols[0], cols[1]))
  }

  /**
   * What a two-list reader promises about `lines`: it succeeds exactly when
   * every processed line converts, the lists are as long as the processed
   * lines and hold their fields 0 and 1 in file order, and a failure is
   * raised by the first line that does not convert.
   */
  predicate ReadsPairs(r: Result<Series, ReadError>, lines: seq<string>, fmt: RowFormat, parse: Parser)
  {
    var kept := Kept(lines, fmt);
    && (r.Ok? <==> AllRowsOk(lines, fmt, parse))
    && (r.Ok? ==> |r.value.x| == |kept| && |r.value.y| == |kept|)
    && (r.Ok? ==> forall i :: 0 <= i < |r.value.x| && i < |kept| ==>
                    && FieldValue(Words(kept[i], fmt), 0, parse) == Some(r.value.x[i])
                    && FieldValue(Words(kept[i], fmt), 1, parse) == Some(r.value.y[i]))
    && (r.Err? ==> FirstFailingRow(r.error, lines, fmt, parse))
  }

  /** Any two-column layout read by the common loop keeps the promise of ReadsPairs. */
  lemma PairsFromTable(lines: seq<string>, fmt: RowFormat, parse: Parser)
    requires fmt.width == 2
    ensures ReadsPairs(TwoColumns(Table(lines, fmt, parse)), lines, fmt, parse)
  {
    TableOutcome(lines, fmt, parse);
    var t := Table(lines, fmt, parse);
    if t.Ok? {
      forall i | 0 <= i < |Kept(lines, fmt)|
        ensures FieldValue(Words(Kept(lines, fmt)[i], fmt), 0, parse) == Some(t.value[0][i])
        ensures FieldValue(Words(Kept(lines, fmt)[i], fmt), 1, parse) == Some(t.value[1][i])
      {
        TableEntries(lines, fmt, parse, i, 0);
        TableEntries(lines, fmt, parse, i, 1);
      }
    }
  }

  // ---------------------------------------------------------------- read_XRD

  /** read_XRD: the layout follows the text after the last '.' of the file name. */
  function XrdColumns(filename: string, file: seq<string>, parse: Parser): Result<Series, ReadError>
  {
    var ext := Extension(filename);
    if ext == "txt" then TwoColumns(Table(HeaderSkipped(file, 2), CommaPair, parse))
    else if ext == "xy" then TwoColumns(Table(HeaderSkipped(file, 1), SpacePair, parse))
    else if HeaderSkipped(file, 1) == [] then Ok(Series([], []))
    else Err(UnboundSeparator)
  }

  method ReadXrd(filename: string, file: seq<string>, parse: Parser) returns (r: Result<Series, ReadError>)
    ensures r == XrdColumns(filename, file, parse)
  {
    var ext := Extension(filename);
    var skip: nat, fmt: RowFormat;
    if ext == "txt" {
      skip, fmt := 2, CommaPair;
    } else if ext == "xy" {
      skip, fmt := 1, SpacePair;
    } else {
      // `separator` is never assigned: the first data line, if any, raises
      if HeaderSkipped(file, 1) == [] {
        return Ok(Series([], []));
      }
      return Err(UnboundSeparator);
    }
    var t := ReadTable(HeaderSkipped(file, skip), fmt, parse);
    r := TwoColumns(t);
  }

  /**
   * A .txt file loses two header lines and splits on ','; a .xy file loses
   * one and splits on ' '; any other name fails on its first data line,
   * so only a file of at most one line reads as empty.
   */
  lemma XrdRead(filename: string, file: seq<string>, parse: Parser)
    ensures Extension(filename) == "txt" ==>
      var data := HeaderSkipped(file, 2);
      ReadsPairs(XrdColumns(filename, file, parse), data, CommaPair, parse) && Kept(data, CommaPair) == data
    ensures Extension(filename) == "xy" ==>
      var data := HeaderSkipped(file, 1);
      ReadsPairs(XrdColumns(filename, file, parse), data, SpacePair, parse) && Kept(data, SpacePair) == data
    ensures Extension(filename) != "txt" && Extension(filename) != "xy" ==>
      && (XrdColumns(filename, file, parse).Err? <==> |file| > 1)
      && (XrdColumns(filename, file, parse).Err? ==> XrdColumns(filename, file, parse).error == UnboundSeparator)
      && (|file| <= 1 ==> XrdColumns(filename, file, parse) == Ok(Series([], [])))
  {
    if Extension(filename) == "txt" {
      PairsFromTable(HeaderSkipped(file, 2), CommaPair, parse);
      KeptAll(HeaderSkipped(file, 2), CommaPair);
    } else if Extension(filename) == "xy" {
      PairsFromTable(HeaderSkipped(file, 1), SpacePair, parse);
      KeptAll(HeaderSkipped(file, 1), SpacePair);
    }
  }

  // ----------------------------------------------------------- read_OpticsLab

  /** read_OpticsLab: 14 header lines, tab-separated. */
  function OpticsLabColumns(file: seq<string>, parse: Parser): Result<Series, ReadError>
  {
    TwoColumns(Table(HeaderSkipped(file, 14), TabColumns(2), parse))
  }

  method ReadOpticsLab(file: seq<string>, parse: Parser) returns (r: Result<Series, ReadError>)
    ensures r == OpticsLabColumns(file, parse)
  {
    var t := ReadTable(HeaderSkipped(file, 14), TabColumns(2), parse);
    r := TwoColumns(t);
  }

  /** Every line after the 14-line header gives one entry of each list, from its tab-separated fields 0 and 1. */
  lemma OpticsLabRead(file: seq<string>, parse: Parser)
    ensures var data := HeaderSkipped(file, 14);
      ReadsPairs(OpticsLabColumns(file, parse), data, TabColumns(2), parse) && Kept(data, TabColumns(2)) == data
  {
    PairsFromTable(HeaderSkipped(file, 14), TabColumns(2), parse);
    KeptAll(HeaderSkipped(file, 14), TabColumns(2));
  }

  // -------------------------------------------------------------- read_UVVis

  /**
   * read_UVVis: two header lines; a ',' in the first data line makes every
   * ',' a '.'; only lines of exactly two words are read.
   */
  function UVVisColumns(file: seq<string>, parse: Parser): Result<Series, ReadError>
  {
    var data := HeaderSkipped(file, 2);
    if data == [] then Err(NoDataLines)
    else TwoColumns(Table(data, WhitespacePair(',' in data[0], true), parse))
  }

  /** `warned` is the printed notice that neither ',' nor '.' was found and '.' is assumed. */
  method ReadUVVis(file: seq<string>, parse: Parser) returns (r: Result<Series, ReadError>, warned: bool)
    ensures r == UVVisColumns(file, parse)
    ensures warned <==> |file| > 2 && ',' !in file[2] && '.' !in file[2]
  {
    var data := HeaderSkipped(file, 2);
    if data == [] {
      return Err(NoDataLines), false;
    }
    var commaDecimal: bool;
    if ',' in data[0] {
      commaDecimal, warned := true, false;
    } else if '.' in data[0] {
      commaDecimal, warned := false, false;
    } else {
      commaDecimal, warned := false, true;
    }
    var t := ReadTable(data, WhitespacePair(commaDecimal, true), parse);
    r := TwoColumns(t);
  }

  /**
   * Without data lines the read fails; otherwise it reads the lines of
   * exactly two words, so neither list is longer than the data.
   */
  lemma UVVisRead(file: seq<string>, parse: Parser)
    ensures var data := HeaderSkipped(file, 2);
      && (data == [] ==> UVVisColumns(file, parse) == Err(NoDataLines))
      && (data != [] ==> ReadsPairs(UVVisColumns(file, parse), data, WhitespacePair(',' in data[0], true), parse))
    ensures UVVisColumns(file, parse).Ok? ==>
      |UVVisColumns(file, parse).value.x| == |UVVisColumns(file, parse).value.y| <= |HeaderSkipped(file, 2)|
  {
    var data := HeaderSkipped(file, 2);
    if data != [] {
      PairsFromTable(data, WhitespacePair(',' in data[0], true), parse);
    }
  }

  /** A comma-decimal file reads exactly as the same file with every ',' already written as '.'. */
  lemma UVVisCommaFile(file: seq<string>, parse: Parser)
    requires |file| > 2 && ',' in file[2]
    ensures UVVisColumns(RewriteCommas(file), parse) == UVVisColumns(file, parse)
  {
    var data := HeaderSkipped(file, 2);
    var rewritten := RewriteCommas(file);
    assert HeaderSkipped(rewritten, 2) == RewriteCommas(data);
    ReplaceCharRemoves(data[0], ',', '.');
    CommaRewriteTable(data, WhitespacePair(true, true), parse);
  }

  // ------------------------------------------------------- read_QCM_average

  function SevenColumns(t: Result<seq<seq<real>>, ReadError>): (r: Result<QcmAverage, ReadError>)
    requires t.Ok? ==> |t.value| == 7
    ensures r.Ok? <==> t.Ok?
    ensures r.Ok? ==> forall k :: 0 <= k < 7 ==> r.value.Column(k) == t.value[k]
    ensures r.Err? ==> r.error == t.error
  {
    match t
    case Err(e) => Err(e)
    case Ok(c) => Ok(QcmAverage(c[0], c[1], c[2], c[3], c[4], c[5], c[6]))
  }

  /** read_QCM_average: one header line, seven tab-separated fields. */
  function QcmAverageColumns(file: seq<string>, parse: Parser): Result<QcmAverage, ReadError>
  {
    SevenColumns(Table(HeaderSkipped(file, 1), TabColumns(7), parse))
  }

  method ReadQcmAverage(file: seq<string>, parse: Parser) returns (r: Result<QcmAverage, ReadError>)
    ensures r == QcmAverageColumns(file, parse)
  {
    var t := ReadTable(HeaderSkipped(file, 1), TabColumns(7), parse);
    r := SevenColumns(t);
  }

  /** The seven lists are as long as the data and list `k` holds tab-separated field `k` of each line. */
  lemma QcmAverageRead(file: seq<string>, parse: Parser)
    ensures var data := HeaderSkipped(file, 1); var r := QcmAverageColumns(file, parse);
      && (r.Ok? <==> AllRowsOk(data, TabColumns(7), parse))
      && (r.Ok? ==> forall k :: 0 <= k < 7 ==> |r.value.Column(k)| == |data|)
      && (r.Ok? ==> forall i, k :: 0 <= i < |data| && 0 <= k < 7 && i < |r.value.Column(k)| ==>
                      FieldValue(Split(data[i], '\t'), k, parse) == Some(r.value.Column(k)[i]))
      && (r.Err? ==> FirstFailingRow(r.error, data, TabColumns(7), parse))
  {
    var data := HeaderSkipped(file, 1);
    var fmt := TabColumns(7);
    TableOutcome(data, fmt, parse);
    KeptAll(data, fmt);
    var t := Table(data, fmt, parse);
    if t.Ok? {
      forall i, k | 0 <= i < |data| && 0 <= k < 7
        ensures FieldValue(Split(data[i], '\t'), k, parse) == Some(t.value[k][i])
      {
        TableEntries(data, fmt, parse, i, k);
      }
    }
  }

  // --------------------------------------------------------------- read_FTIR

  /** read_FTIR: no header; decimal mark chosen from the first line as in read_UVVis; every line read. */
  function FtirColumns(file: seq<string>, parse: Parser): Result<Series, ReadError>
  {
    if file == [] then Err(NoDataLines)
    else TwoColumns(Table(file, WhitespacePair(',' in file[0], false), parse))
  }

  method ReadFtir(file: seq<string>, parse: Parser) returns (r: Result<Series, ReadError>, warned: bool)
    ensures r == FtirColumns(file, parse)
    ensures warned <==> |file| > 0 && ',' !in file[0] && '.' !in file[0]
  {
    if file == [] {
      return Err(NoDataLines), false;
    }
    var commaDecimal: bool;
    if ',' in file[0] {
      commaDecimal, warned := true, false;
    } else if '.' in file[0] {
      commaDecimal, warned := false, false;
    } else {
      commaDecimal, warned := false, true;
    }
    var t := ReadTable(file, WhitespacePair(commaDecimal, false), parse);
    r := TwoColumns(t);
  }

  /** Every line gives one entry of each list, from fields 0 and 1 of `split()`. */
  lemma FtirRead(file: seq<string>, parse: Parser)
    ensures file == [] ==> FtirColumns(file, parse) == Err(NoDataLines)
    ensures file != [] ==>
      var fmt := WhitespacePair(',' in file[0], false);
      ReadsPairs(FtirColumns(file, parse), file, fmt, parse) && Kept(file, fmt) == file
  {
    if file != [] {
      PairsFromTable(file, WhitespacePair(',' in file[0], false), parse);
      KeptAll(file, WhitespacePair(',' in file[0], false));
    }
  }

  /** A comma-decimal FTIR file reads exactly as the same file written with periods. */
  lemma FtirCommaFile(file: seq<string>, parse: Parser)
    requires |file| > 0 && ',' in file[0]
    ensures FtirColumns(RewriteCommas(file), parse) == FtirColumns(file, parse)
  {
    ReplaceCharRemoves(file[0], ',', '.');
    CommaRewriteTable(file, WhitespacePair(true, false), parse);
  }

  // -------------------------------------------------------------- read_CLSEM

  /** read_CLSEM: one header line, comma-separated. */
  function ClsemColumns(file: seq<string>, parse: Parser): Result<Series, ReadError>
  {
    TwoColumns(Table(HeaderSkipped(file, 1), CommaPair, parse))
  }

  method ReadClsem(file: seq<string>, parse: Parser) returns (r: Result<Series, ReadError>)
    ensures r == ClsemColumns(file, parse)
  {
    var t := ReadTable(HeaderSkipped(file, 1), CommaPair, parse);
    r := TwoColumns(t);
  }

  /** Every line after the header gives one entry of each list, from its comma-separated fields 0 and 1. */
  lemma ClsemRead(file: seq<string>, parse: Parser)
    ensures var data := HeaderSkipped(file, 1);
      ReadsPairs(ClsemColumns(file, parse), data, CommaPair, parse) && Kept(data, CommaPair) == data
  {
    PairsFromTable(HeaderSkipped(file, 1), CommaPair, parse);
    KeptAll(HeaderSkipped(file, 1), CommaPair);
  }
}
