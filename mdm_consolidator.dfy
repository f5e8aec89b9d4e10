/** The incremental-merge consolidator `create_consolidated_master`. It lists
    the daily snapshots of an entity, keeps those whose name carries a date
    in the configured pattern, and folds them oldest first into one master:
    at each step the master keeps its rows whose key the new snapshot does
    not mention and then takes every row of the new snapshot (the latest
    file wins, key by key). The result is sorted by key and uploaded once.

    A snapshot is seen as a `Frame`: its column names and one record per
    row, a record mapping each column to its cell, with an absent column
    standing for pandas' NaN (an empty cell of the CSV). */
module MdmConsolidator {
  import opened Wrappers
  import Text
  import Decimal
  import Order
  import Csv
  import BlobStore
  import SharedUtils

  /** A file pattern `<prefix>(\d{4}-\d{2}-\d{2})\.csv`, tried from the
      start of a name with `re.match`, so not anchored at its end. */
  datatype Pattern = Pattern(prefix: string)

  const CustomersPattern: Pattern := Pattern("customers/customers_")
  const ProductsPattern: Pattern := Pattern("products/products_")
  const CustomersMaster: string := "master/customers_master.csv"
  const ProductsMaster: string := "master/products_master.csv"
  const CustomersKey: string := "customer_id"
  const ProductsKey: string := "product_id"
  const FileDateColumn: string := "file_date"

  /** The regular expression after the prefix. */
  const PatternTail: string := "(\\d{4}-\\d{2}-\\d{2})\\.csv"

  /** The pattern's text, `<prefix>(\d{4}-\d{2}-\d{2})\.csv`. */
  function PatternText(p: Pattern): string
  {
    p.prefix + PatternTail
  }

  /** The listing prefix, `file_pattern.split('/')[0]`: the pattern's text
      up to its first `/`, or all of it when it has none. */
  function ListingPrefix(p: Pattern): string
  {
    Text.Split(PatternText(p), '/')[0]
  }

  /** A prefix `<folder>/<name>` lists under `<folder>`; both configured
      patterns have this form (`customers/customers_`, `products/products_`). */
  lemma FolderListingPrefix(folder: string, name: string)
    requires '/' !in folder
    ensures ListingPrefix(Pattern(folder + "/" + name)) == folder
  {
    var p := Pattern(folder + "/" + name);
    assert p.prefix[|folder|] == '/';
    ListingPrefixWithSlash(p);
    Text.SplitAfterPiece(folder, '/', name);
  }

  /** With a `/` in the prefix, listing is by the prefix's first piece. */
  lemma ListingPrefixWithSlash(p: Pattern)
    requires '/' in p.prefix
    ensures ListingPrefix(p) == Text.Split(p.prefix, '/')[0]
  {
    Text.SplitFirstExtends(p.prefix, PatternTail, '/');
  }

  /** The shape `\d{4}-\d{2}-\d{2}`. */
  predicate DateShaped(d: string)
  {
    && |d| == 10
    && Decimal.AllDigits(d[..4]) && d[4] == '-'
    && Decimal.AllDigits(d[5..7]) && d[7] == '-'
    && Decimal.AllDigits(d[8..])
  }

  /** `re.match(pattern, name)` and its group 1. */
  function Match(p: Pattern, name: string): (date: Option<string>)
    ensures date.Some? ==> DateShaped(date.value)
  {
    var n := |p.prefix|;
    if n + 14 <= |name| && name[..n] == p.prefix && DateShaped(name[n..n + 10])
       && name[n + 10..n + 14] == ".csv"
    then Some(name[n..n + 10])
    else None
  }

  /** A name matches exactly when it is the prefix, a date, `.csv` and any
      trailing text; the date is the captured group. */
  lemma MatchSpec(p: Pattern, name: string, date: string)
    ensures Match(p, name) == Some(date) <==>
      DateShaped(date) && exists rest :: name == p.prefix + date + ".csv" + rest
  {
    var n := |p.prefix|;
    if Match(p, name) == Some(date) {
      var rest := name[n + 14..];
      assert name == p.prefix + date + ".csv" + rest;
    }
    if DateShaped(date) && exists rest :: name == p.prefix + date + ".csv" + rest {
      var rest :| name == p.prefix + date + ".csv" + rest;
      assert name[..n] == p.prefix;
      assert name[n..n + 10] == date;
      assert name[n + 10..n + 14] == ".csv";
    }
  }

  /** Text after `.csv` does not stop a match. */
  lemma MatchIgnoresTrailingText(p: Pattern, date: string, rest: string)
    requires DateShaped(date)
    ensures Match(p, p.prefix + date + ".csv" + rest) == Some(date)
  {
    MatchSpec(p, p.prefix + date + ".csv" + rest, date);
  }

  /** With a `/` in the prefix, as in both configured patterns, every name
      the pattern matches is under the listing prefix, so the listing misses
      no candidate. */
  lemma ListingFindsMatches(p: Pattern, name: string)
    requires '/' in p.prefix && Match(p, name).Some?
    ensures Text.StartsWith(name, ListingPrefix(p))
  {
    var lp := ListingPrefix(p);
    ListingPrefixWithSlash(p);
    Text.SplitFirstIsPrefix(p.prefix, '/');
    assert name[..|p.prefix|] == p.prefix;
    assert name[..|lp|] == p.prefix[..|lp|];
  }

  /** Without a `/` in the prefix the listing prefix is the whole pattern
      text, and no name under it matches: the `(` after the prefix is not a
      digit. */
  lemma ListingMissesWithoutSlash(p: Pattern, name: string)
    requires '/' !in p.prefix && Text.StartsWith(name, ListingPrefix(p))
    ensures ListingPrefix(p) == PatternText(p)
    ensures Match(p, name).None?
  {
    assert '/' !in PatternText(p);
    Text.SplitNoSep(PatternText(p), '/');
    var n := |p.prefix|;
    assert name[n] == PatternText(p)[n] == '(';
    if n + 14 <= |name| {
      assert name[n..n + 10][..4][0] == '(';
    }
  }

  function Year(d: string): nat
    requires DateShaped(d)
  {
    Decimal.Value(d[..4])
  }

  function Month(d: string): nat
    requires DateShaped(d)
  {
    Decimal.Value(d[5..7])
  }

  function Day(d: string): nat
    requires DateShaped(d)
  {
    Decimal.Value(d[8..])
  }

  predicate IsLeapYear(y: nat)
  {
    y % 4 == 0 && (y % 100 != 0 || y % 400 == 0)
  }

  function DaysInMonth(y: nat, m: nat): nat
  {
    if m == 2 then (if IsLeapYear(y) then 29 else 28)
    else if m == 4 || m == 6 || m == 9 || m == 11 then 30
    else 31
  }

  /** `datetime.strptime(d, "%Y-%m-%d")` accepts the date: a year from 1,
      a month from 1 to 12 and a day within that month. */
  predicate ValidDate(d: string)
    requires DateShaped(d)
  {
    1 <= Year(d) && 1 <= Month(d) <= 12 && 1 <= Day(d) <= DaysInMonth(Year(d), Month(d))
  }

  /** A matched file and its date, the pair `(file, datetime)`. */
  datatype Dated = Dated(file: string, date: string)

  function Ymd(d: string): (int, int, int)
  {
    if DateShaped(d) then (Year(d), Month(d), Day(d)) else (0, 0, 0)
  }

  /** The order of the `datetime` values: year, then month, then day. */
  predicate ChronoLe(a: Dated, b: Dated)
  {
    var (y1, m1, d1) := Ymd(a.date);
    var (y2, m2, d2) := Ymd(b.date);
    y1 < y2 || (y1 == y2 && (m1 < m2 || (m1 == m2 && d1 <= d2)))
  }

  lemma ChronoLeIsTotalPreorder()
    ensures Order.TotalPreorder(ChronoLe)
  {
  }

  /** The exceptions that escape `create_consolidated_master`. */
  datatype MdmError =
    | BadDate(file: string)     // `strptime` raises on a matched name
    | Unreadable(file: string)  // the download or `read_csv` raises
    | MissingKey                // `KeyError` on the primary key column

  /** The filtering loop over the listed names, in listing order; it stops
      at the first matched name whose date `strptime` rejects. */
  function MatchedFiles(names: seq<string>, p: Pattern): Result<seq<Dated>, MdmError>
  {
    if names == [] then Ok([])
    else match Match(p, names[0])
      case None => MatchedFiles(names[1..], p)
      case Some(d) =>
        if !ValidDate(d) then Err(BadDate(names[0]))
        else match MatchedFiles(names[1..], p)
          case Err(e) => Err(e)
          case Ok(rest) => Ok([Dated(names[0], d)] + rest)
  }

  /** The filter fails exactly when a matched name is not a real date. */
  lemma {:induction false} MatchedFilesFails(names: seq<string>, p: Pattern)
    ensures MatchedFiles(names, p).Err? <==>
      exists i :: 0 <= i < |names| && Match(p, names[i]).Some? && !ValidDate(Match(p, names[i]).value)
  {
    if names != [] {
      MatchedFilesFails(names[1..], p);
      if MatchedFiles(names, p).Err? {
        if Match(p, names[0]).Some? && !ValidDate(Match(p, names[0]).value) {
          assert Match(p, names[0]).Some? && !ValidDate(Match(p, names[0]).value);
        } else {
          var i :| 0 <= i < |names[1..]| && Match(p, names[1..][i]).Some?
                   && !ValidDate(Match(p, names[1..][i]).value);
          assert names[i + 1] == names[1..][i];
        }
      } else {
        forall i | 0 <= i < |names| && Match(p, names[i]).Some?
          ensures ValidDate(Match(p, names[i]).value)
        {
          if i > 0 {
            assert names[i] == names[1..][i - 1];
          }
        }
      }
    }
  }

  /** Every file a successful filter keeps is a listed name that matches,
      with its captured date, which is a real date. */
  lemma {:induction false} MatchedFilesSound(names: seq<string>, p: Pattern)
    requires MatchedFiles(names, p).Ok?
    ensures var files := MatchedFiles(names, p).value;
      forall k :: 0 <= k < |files| ==>
        files[k].file in names && Match(p, files[k].file) == Some(files[k].date) && ValidDate(files[k].date)
  {
    if names != [] {
      MatchedFilesSound(names[1..], p);
      var files := MatchedFiles(names, p).value;
      var rest := MatchedFiles(names[1..], p).value;
      forall k | 0 <= k < |files|
        ensures files[k].file in names && Match(p, files[k].file) == Some(files[k].date) && ValidDate(files[k].date)
      {
        if Match(p, names[0]).Some? {
          if k > 0 {
            assert files[k] == rest[k - 1];
          }
        } else {
          assert files[k] == rest[k];
        }
      }
    }
  }

  /** Every listed name that matches is kept by a successful filter. */
  lemma {:induction false} MatchedFilesComplete(names: seq<string>, p: Pattern)
    requires MatchedFiles(names, p).Ok?
    ensures var files := MatchedFiles(names, p).value;
      forall n :: n in names && Match(p, n).Some? ==> exists k :: 0 <= k < |files| && files[k].file == n
  {
    if names != [] {
      MatchedFilesComplete(names[1..], p);
      var files := MatchedFiles(names, p).value;
      var rest := MatchedFiles(names[1..], p).value;
      forall n | n in names && Match(p, n).Some?
        ensures exists k :: 0 <= k < |files| && files[k].file == n
      {
        if n == names[0] {
          assert files[0].file == n;
        } else {
          assert n in names[1..];
          var k :| 0 <= k < |rest| && rest[k].file == n;
          if Match(p, names[0]).Some? {
            assert files[k + 1] == rest[k];
          } else {
            assert files[k] == rest[k];
          }
        }
      }
    }
  }

  /** The filter keeps exactly the matched names, each with its captured
      date, and fails exactly when one of them is not a real date. */
  lemma MatchedFilesSpec(names: seq<string>, p: Pattern)
    ensures MatchedFiles(names, p).Err? <==>
      exists i :: 0 <= i < |names| && Match(p, names[i]).Some? && !ValidDate(Match(p, names[i]).value)
    ensures MatchedFiles(names, p).Ok? ==>
      var files := MatchedFiles(names, p).value;
      && (forall k :: 0 <= k < |files| ==>
            files[k].file in names && Match(p, files[k].file) == Some(files[k].date)
            && ValidDate(files[k].date))
      && (forall n :: n in names && Match(p, n).Some? ==> exists k :: 0 <= k < |files| && files[k].file == n)
  {
    MatchedFilesFails(names, p);
    if MatchedFiles(names, p).Ok? {
      MatchedFilesSound(names, p);
      MatchedFilesComplete(names, p);
    }
  }

  /** The filter loop of `create_consolidated_master` (the matched names and
      their `strptime` dates, in listing order). */
  method FilterMatching(names: seq<string>, p: Pattern) returns (r: Result<seq<Dated>, MdmError>)
    ensures r == MatchedFiles(names, p)
  {
    var fileDates: seq<Dated> := [];
    var i := 0;
    assert names[i..] == names;
    assert Prepend(fileDates, MatchedFiles(names, p)) == MatchedFiles(names, p) by {
      if MatchedFiles(names, p).Ok? {
        assert fileDates + MatchedFiles(names, p).value == MatchedFiles(names, p).value;
      }
    }
    while i < |names|
      invariant 0 <= i <= |names|
      invariant MatchedFiles(names, p) == Prepend(fileDates, MatchedFiles(names[i..], p))
    {
      assert names[i..][1..] == names[i + 1..];
      var m := Match(p, names[i]);
      if m.Some? {
        if !ValidDate(m.value) {
          return Err(BadDate(names[i]));
        }
        ghost var rest := MatchedFiles(names[i + 1..], p);
        assert MatchedFiles(names[i..], p) == Prepend([Dated(names[i], m.value)], rest);
        if rest.Ok? {
          assert fileDates + ([Dated(names[i], m.value)] + rest.value)
              == (fileDates + [Dated(names[i], m.value)]) + rest.value;
        }
        fileDates := fileDates + [Dated(names[i], m.value)];
      }
      i := i + 1;
    }
    assert names[i..] == [];
    assert fileDates + [] == fileDates;
    return Ok(fileDates);
  }

  function Prepend(done: seq<Dated>, r: Result<seq<Dated>, MdmError>): Result<seq<Dated>, MdmError>
  {
    match r
      case Err(e) => Err(e)
      case Ok(rest) => Ok(done + rest)
  }

  /** `file_dates.sort(key=lambda x: x[1])`: oldest first, files of the same
      date in their listing order. */
  function SortFiles(files: seq<Dated>): (sorted: seq<Dated>)
    ensures Order.SortedBy(sorted, ChronoLe)
    ensures multiset(sorted) == multiset(files)
  {
    ChronoLeIsTotalPreorder();
    Order.SortBy(files, ChronoLe)
  }

  /** Files of one date keep the order in which they were listed. */
  lemma SortFilesStable(files: seq<Dated>, d: Dated)
    ensures Order.ClassOf(SortFiles(files), d, ChronoLe) == Order.ClassOf(files, d, ChronoLe)
  {
    ChronoLeIsTotalPreorder();
    Order.SortByStable(files, d, ChronoLe);
  }

  // ---------------------------------------------------------------------
  // Frames and records

  type Record = map<string, string>

  datatype Frame = Frame(columns: seq<string>, records: seq<Record>)

  /** The empty `pd.DataFrame()` the fold starts from. */
  const EmptyFrame: Frame := Frame([], [])

  /** One CSV row as a record: empty cells are NaN, so absent. */
  function RecordOf(columns: seq<string>, row: seq<string>): (r: Record)
    requires |columns| == |row|
    ensures forall c :: c in r ==> c in columns && r[c] != ""
  {
    if columns == [] then map[]
    else
      var rest := RecordOf(columns[1..], row[1..]);
      if row[0] == "" then rest - {columns[0]} else rest[columns[0] := row[0]]
  }

  /** `to_csv` writes NaN as an empty cell. */
  function Cell(r: Record, column: string): string
  {
    if column in r then r[column] else ""
  }

  function RowOf(columns: seq<string>, r: Record): (row: seq<string>)
    ensures |row| == |columns|
    ensures forall j :: 0 <= j < |columns| ==> row[j] == Cell(r, columns[j])
  {
    seq(|columns|, j requires 0 <= j < |columns| => Cell(r, columns[j]))
  }

  /** The frame `read_csv` builds from a parsed table. */
  function FrameOf(t: Csv.Table): (f: Frame)
    requires Csv.WellFormed(t)
    ensures f.columns == t.columns && |f.records| == |t.rows|
  {
    Frame(t.columns, seq(|t.rows|, i requires 0 <= i < |t.rows| => RecordOf(t.columns, t.rows[i])))
  }

  /** The table `to_csv(index=False)` writes for a frame. */
  function ToTable(f: Frame): (t: Csv.Table)
    ensures t.columns == f.columns && |t.rows| == |f.records|
  {
    Csv.Table(f.columns, seq(|f.records|, i requires 0 <= i < |f.records| => RowOf(f.columns, f.records[i])))
  }

  lemma {:induction false} RecordOfCell(columns: seq<string>, row: seq<string>, i: int)
    requires |columns| == |row| && Csv.Distinct(columns) && 0 <= i < |columns|
    ensures Cell(RecordOf(columns, row), columns[i]) == row[i]
  {
    if i > 0 {
      assert columns[0] != columns[i];
      assert Csv.Distinct(columns[1..]) by {
        forall a, b | 0 <= a < b < |columns[1..]| ensures columns[1..][a] != columns[1..][b] {
          assert columns[1..][a] == columns[a + 1] && columns[1..][b] == columns[b + 1];
        }
      }
      RecordOfCell(columns[1..], row[1..], i - 1);
      assert columns[1..][i - 1] == columns[i];
    }
  }

  /** Reading a table into a frame loses nothing: writing the frame back
      gives the same table. */
  lemma FrameRoundTrip(t: Csv.Table)
    requires Csv.WellFormed(t)
    ensures ToTable(FrameOf(t)) == t
  {
    var back := ToTable(FrameOf(t));
    forall i | 0 <= i < |t.rows| ensures back.rows[i] == t.rows[i] {
      forall j | 0 <= j < |t.columns| ensures back.rows[i][j] == t.rows[i][j] {
        RecordOfCell(t.columns, t.rows[i], j);
      }
    }
  }

  /** `df['file_date'] = date`: the column is added (or overwritten) and every
      record gets the date; nothing else changes. */
  function WithFileDate(f: Frame, date: string): (g: Frame)
    ensures FileDateColumn in g.columns
    ensures |g.records| == |f.records|
    ensures forall i :: 0 <= i < |g.records| ==>
      FileDateColumn in g.records[i] && g.records[i][FileDateColumn] == date
      && g.records[i] - {FileDateColumn} == f.records[i] - {FileDateColumn}
  {
    Frame(if FileDateColumn in f.columns then f.columns else f.columns + [FileDateColumn],
          seq(|f.records|, i requires 0 <= i < |f.records| => f.records[i][FileDateColumn := date]))
  }

  /** The record's primary key; `None` is NaN. */
  function Key(key: string, r: Record): Option<string>
  {
    if key in r then Some(r[key]) else None
  }

  function KeysOf(key: string, records: seq<Record>): set<Option<string>>
  {
    set r | r in records :: Key(key, r)
  }

  /** `records[~records[key].isin(keys)]`; `isin` matches NaN with NaN. */
  function Keep(key: string, records: seq<Record>, keys: set<Option<string>>): seq<Record>
  {
    if records == [] then []
    else (if Key(key, records[0]) in keys then [] else [records[0]]) + Keep(key, records[1..], keys)
  }

  /** The kept records are the records whose key is not in `keys`, each as
      often as before. */
  lemma {:induction false} KeepSpec(key: string, records: seq<Record>, keys: set<Option<string>>)
    ensures forall r :: r in Keep(key, records, keys) <==> r in records && Key(key, r) !in keys
    ensures multiset(Keep(key, records, keys)) <= multiset(records)
  {
    if records != [] {
      KeepSpec(key, records[1..], keys);
      assert records == [records[0]] + records[1..];
    }
  }

  /** The columns of `cols` not already in `existing`, in order. */
  function NewColumns(existing: seq<string>, cols: seq<string>): (r: seq<string>)
    ensures forall c :: c in r <==> c in cols && c !in existing
  {
    if cols == [] then []
    else (if cols[0] in existing then [] else [cols[0]]) + NewColumns(existing, cols[1..])
  }

  /** `pd.concat([master_unique, df], ignore_index=True)`. */
  function Merge(master: Frame, df: Frame, key: string): Frame
  {
    Frame(master.columns + NewColumns(master.columns, df.columns),
          Keep(key, master.records, KeysOf(key, df.records)) + df.records)
  }

  /** One pass of the fold: an empty master is replaced by the snapshot;
      otherwise both frames must have the key column and are merged. */
  function Step(master: Frame, df: Frame, key: string): Result<Frame, MdmError>
  {
    if |master.records| == 0 then Ok(df)
    else if key !in master.columns || key !in df.columns then Err(MissingKey)
    else Ok(Merge(master, df, key))
  }

  /** `download_csv_from_gcs(bucket, file)` and the `file_date` column. */
  function Load(blobs: map<string, string>, d: Dated): (r: Result<Frame, MdmError>)
    ensures r.Err? <==> SharedUtils.DownloadCsv(blobs, d.file).None?
  {
    match SharedUtils.DownloadCsv(blobs, d.file)
      case None => Err(Unreadable(d.file))
      case Some(t) => Ok(WithFileDate(FrameOf(t), d.date))
  }

  /** The download of every file, in order. */
  function Loads(blobs: map<string, string>, files: seq<Dated>): (loads: seq<Result<Frame, MdmError>>)
    ensures |loads| == |files|
    ensures forall i :: 0 <= i < |files| ==> loads[i] == Load(blobs, files[i])
  {
    seq(|files|, i requires 0 <= i < |files| => Load(blobs, files[i]))
  }

  /** The fold over the downloads of the sorted files, from the master
      built so far; it stops at the first download or step that fails. */
  function Fold(master: Frame, loads: seq<Result<Frame, MdmError>>, key: string): Result<Frame, MdmError>
    decreases loads
  {
    if loads == [] then Ok(master)
    else match loads[0]
      case Err(e) => Err(e)
      case Ok(df) =>
        match Step(master, df, key)
          case Err(e) => Err(e)
          case Ok(next) => Fold(next, loads[1..], key)
  }

  /** The fold loop of `create_consolidated_master`. */
  method FoldFiles(b: BlobStore.Bucket, files: seq<Dated>, key: string) returns (r: Result<Frame, MdmError>)
    ensures r == Fold(EmptyFrame, Loads(b.blobs, files), key)
  {
    ghost var loads := Loads(b.blobs, files);
    var master := EmptyFrame;
    var i := 0;
    while i < |files|
      invariant 0 <= i <= |files|
      invariant Fold(EmptyFrame, loads, key) == Fold(master, loads[i..], key)
    {
      assert loads[i..][0] == Load(b.blobs, files[i]) && loads[i..][1..] == loads[i + 1..];
      var data := b.Get(files[i].file);
      var df: Frame;
      if data.None? {
        return Err(Unreadable(files[i].file));
      } else {
        var parsed := Csv.Parse(data.value);
        if parsed.None? {
          return Err(Unreadable(files[i].file));
        }
        df := WithFileDate(FrameOf(parsed.value), files[i].date);
      }
      if |master.records| == 0 {
        master := df;
      } else {
        if key !in master.columns || key !in df.columns {
          return Err(MissingKey);
        }
        var masterUnique := Keep(key, master.records, KeysOf(key, df.records));
        master := Frame(master.columns + NewColumns(master.columns, df.columns), masterUnique + df.records);
      }
      i := i + 1;
    }
    assert loads[i..] == [];
    return Ok(master);
  }

  // ---------------------------------------------------------------------
  // What the fold computes

  /** One merge step keeps the master's records whose key the snapshot
      lacks, in order, followed by all of the snapshot's records; so the
      row count is those kept plus the snapshot's. */
  lemma StepRecords(master: Frame, df: Frame, key: string)
    requires Step(master, df, key).Ok?
    ensures Step(master, df, key).value.records == Keep(key, master.records, KeysOf(key, df.records)) + df.records
    ensures |Step(master, df, key).value.records| == |Keep(key, master.records, KeysOf(key, df.records))| + |df.records|
  {
    if |master.records| == 0 {
      assert master.records == [];
      assert Keep(key, master.records, KeysOf(key, df.records)) + df.records == df.records;
    }
  }

  /** The keys of all frames together. */
  function AllKeys(key: string, frames: seq<Frame>): set<Option<string>>
    decreases frames
  {
    if frames == [] then {} else KeysOf(key, frames[0].records) + AllKeys(key, frames[1..])
  }

  /** The reference result of the fold: the records of each frame whose key
      no later frame has, frame by frame in order. */
  function Survivors(key: string, frames: seq<Frame>): seq<Record>
    decreases frames
  {
    if frames == [] then []
    else Keep(key, frames[0].records, AllKeys(key, frames[1..])) + Survivors(key, frames[1..])
  }

  /** The frames of all downloads, or the first failure. */
  function Collect(loads: seq<Result<Frame, MdmError>>): (r: Result<seq<Frame>, MdmError>)
    ensures r.Ok? ==> |r.value| == |loads|
    decreases loads
  {
    if loads == [] then Ok([])
    else match loads[0]
      case Err(e) => Err(e)
      case Ok(df) =>
        match Collect(loads[1..])
          case Err(e) => Err(e)
          case Ok(rest) => Ok([df] + rest)
  }

  lemma {:induction false} CollectSpec(loads: seq<Result<Frame, MdmError>>)
    requires Collect(loads).Ok?
    ensures forall j :: 0 <= j < |loads| ==> loads[j] == Ok(Collect(loads).value[j])
    decreases loads
  {
    if loads != [] {
      CollectSpec(loads[1..]);
      forall j | 0 < j < |loads| ensures loads[j] == Ok(Collect(loads).value[j]) {
        assert loads[j] == loads[1..][j - 1];
      }
    }
  }

  lemma {:induction false} KeepConcat(key: string, a: seq<Record>, b: seq<Record>, keys: set<Option<string>>)
    ensures Keep(key, a + b, keys) == Keep(key, a, keys) + Keep(key, b, keys)
  {
    if a == [] {
      assert a + b == b;
    } else {
      assert (a + b)[0] == a[0] && (a + b)[1..] == a[1..] + b;
      KeepConcat(key, a[1..], b, keys);
    }
  }

  lemma {:induction false} KeepKeep(key: string, a: seq<Record>, k1: set<Option<string>>, k2: set<Option<string>>)
    ensures Keep(key, Keep(key, a, k1), k2) == Keep(key, a, k1 + k2)
  {
    if a != [] {
      KeepKeep(key, a[1..], k1, k2);
      var head := if Key(key, a[0]) in k1 then [] else [a[0]];
      KeepConcat(key, head, Keep(key, a[1..], k1), k2);
      if head != [] {
        assert head[1..] == [];
      }
    }
  }

  /** The fold from a master `m0` ends with the records of `m0` that no
      file's key touches, followed by the survivors of the files. */
  lemma {:induction false} FoldRecords(master: Frame, loads: seq<Result<Frame, MdmError>>, key: string)
    requires Fold(master, loads, key).Ok?
    ensures Collect(loads).Ok?
    ensures Fold(master, loads, key).value.records
         == Keep(key, master.records, AllKeys(key, Collect(loads).value))
          + Survivors(key, Collect(loads).value)
    decreases loads
  {
    if loads == [] {
      KeepNothing(key, master.records);
    } else {
      var df := loads[0].value;
      var next := Step(master, df, key).value;
      assert Fold(master, loads, key) == Fold(next, loads[1..], key);
      FoldRecords(next, loads[1..], key);
      var rest := Collect(loads[1..]).value;
      var frames := [df] + rest;
      assert Collect(loads).value == frames;
      var later := AllKeys(key, rest);
      var mine := KeysOf(key, df.records);
      assert AllKeys(key, frames) == mine + later && Survivors(key, frames)
          == Keep(key, df.records, later) + Survivors(key, rest) by {
        assert frames[0] == df && frames[1..] == rest;
      }
      assert next.records == Keep(key, master.records, mine) + df.records by {
        StepRecords(master, df, key);
      }
      assert Keep(key, next.records, later)
          == Keep(key, master.records, mine + later) + Keep(key, df.records, later) by {
        KeepConcat(key, Keep(key, master.records, mine), df.records, later);
        KeepKeep(key, master.records, mine, later);
      }
      var kept := Keep(key, master.records, mine + later);
      var taken := Keep(key, df.records, later);
      calc {
        Fold(master, loads, key).value.records;
        Keep(key, next.records, later) + Survivors(key, rest);
        (kept + taken) + Survivors(key, rest);
        { Order.AppendAssoc(kept, taken, Survivors(key, rest)); }
        kept + (taken + Survivors(key, rest));
        Keep(key, master.records, AllKeys(key, frames)) + Survivors(key, frames);
      }
    }
  }

  lemma {:induction false} KeepNothing(key: string, a: seq<Record>)
    ensures Keep(key, a, {}) == a
  {
    if a != [] {
      KeepNothing(key, a[1..]);
      assert [a[0]] + a[1..] == a;
    }
  }

  /** The fold from the empty frame computes the reference result. */
  lemma FoldIsSurvivors(loads: seq<Result<Frame, MdmError>>, key: string)
    requires Fold(EmptyFrame, loads, key).Ok?
    ensures Collect(loads).Ok?
    ensures Fold(EmptyFrame, loads, key).value.records == Survivors(key, Collect(loads).value)
  {
    FoldRecords(EmptyFrame, loads, key);
  }

  lemma {:induction false} KeysOfConcat(key: string, a: seq<Record>, b: seq<Record>)
    ensures KeysOf(key, a + b) == KeysOf(key, a) + KeysOf(key, b)
  {
    var ab := a + b;
    forall k | k in KeysOf(key, ab) ensures k in KeysOf(key, a) + KeysOf(key, b) {
      var r :| r in ab && Key(key, r) == k;
      if r in a {
        assert k in KeysOf(key, a);
      } else {
        assert k in KeysOf(key, b);
      }
    }
    forall k | k in KeysOf(key, a) + KeysOf(key, b) ensures k in KeysOf(key, ab) {
      if k in KeysOf(key, a) {
        var r :| r in a && Key(key, r) == k;
        assert r in ab;
      } else {
        var r :| r in b && Key(key, r) == k;
        assert r in ab;
      }
    }
  }

  lemma KeysOfKeep(key: string, a: seq<Record>, keys: set<Option<string>>)
    ensures KeysOf(key, Keep(key, a, keys)) == KeysOf(key, a) - keys
  {
    var kept := Keep(key, a, keys);
    KeepSpec(key, a, keys);
    forall k | k in KeysOf(key, a) - keys ensures k in KeysOf(key, kept) {
      var r :| r in a && Key(key, r) == k;
      assert r in kept;
    }
  }

  /** The merged master holds exactly the keys appearing in some file. */
  lemma {:induction false} SurvivorKeys(key: string, frames: seq<Frame>)
    ensures KeysOf(key, Survivors(key, frames)) == AllKeys(key, frames)
    decreases frames
  {
    if frames == [] {
      assert KeysOf(key, []) == {};
    } else {
      SurvivorKeys(key, frames[1..]);
      var later := AllKeys(key, frames[1..]);
      KeysOfConcat(key, Keep(key, frames[0].records, later), Survivors(key, frames[1..]));
      KeysOfKeep(key, frames[0].records, later);
    }
  }

  /** The records with key `k`, in order. */
  function RowsWithKey(key: string, records: seq<Record>, k: Option<string>): seq<Record>
  {
    if records == [] then []
    else (if Key(key, records[0]) == k then [records[0]] else []) + RowsWithKey(key, records[1..], k)
  }

  lemma {:induction false} RowsWithKeyConcat(key: string, a: seq<Record>, b: seq<Record>, k: Option<string>)
    ensures RowsWithKey(key, a + b, k) == RowsWithKey(key, a, k) + RowsWithKey(key, b, k)
  {
    if a == [] {
      assert a + b == b;
    } else {
      assert (a + b)[0] == a[0] && (a + b)[1..] == a[1..] + b;
      RowsWithKeyConcat(key, a[1..], b, k);
    }
  }

  lemma {:induction false} RowsWithKeyAbsent(key: string, a: seq<Record>, k: Option<string>)
    requires k !in KeysOf(key, a)
    ensures RowsWithKey(key, a, k) == []
  {
    if a != [] {
      assert a[0] in a;
      assert KeysOf(key, a[1..]) <= KeysOf(key, a) by {
        forall j | j in KeysOf(key, a[1..]) ensures j in KeysOf(key, a) {
          var r :| r in a[1..] && Key(key, r) == j;
          assert r in a;
        }
      }
      RowsWithKeyAbsent(key, a[1..], k);
    }
  }

  lemma {:induction false} RowsWithKeyKeep(key: string, a: seq<Record>, keys: set<Option<string>>, k: Option<string>)
    ensures RowsWithKey(key, Keep(key, a, keys), k) == if k in keys then [] else RowsWithKey(key, a, k)
  {
    if a != [] {
      var head := if Key(key, a[0]) in keys then [] else [a[0]];
      RowsWithKeyConcat(key, head, Keep(key, a[1..], keys), k);
      RowsWithKeyKeep(key, a[1..], keys, k);
      if head != [] {
        assert head[1..] == [];
      }
    }
  }

  lemma {:induction false} AllKeysContains(key: string, frames: seq<Frame>, j: int)
    requires 0 <= j < |frames|
    ensures KeysOf(key, frames[j].records) <= AllKeys(key, frames)
    decreases frames
  {
    if j > 0 {
      AllKeysContains(key, frames[1..], j - 1);
      assert frames[1..][j - 1] == frames[j];
    }
  }

  /** Latest file wins: the records of key `k` in the merged master are
      exactly those of the last file that has `k`, in that file's order. */
  lemma {:induction false} LatestFileWins(key: string, frames: seq<Frame>, j: int, k: Option<string>)
    requires 0 <= j < |frames|
    requires k in KeysOf(key, frames[j].records)
    requires k !in AllKeys(key, frames[j + 1..])
    ensures RowsWithKey(key, Survivors(key, frames), k) == RowsWithKey(key, frames[j].records, k)
    decreases frames
  {
    var rest := frames[1..];
    var later := AllKeys(key, rest);
    RowsWithKeyConcat(key, Keep(key, frames[0].records, later), Survivors(key, rest), k);
    RowsWithKeyKeep(key, frames[0].records, later, k);
    if j == 0 {
      assert frames[j + 1..] == rest;
      SurvivorKeys(key, rest);
      RowsWithKeyAbsent(key, Survivors(key, rest), k);
    } else {
      assert rest[j - 1] == frames[j];
      AllKeysContains(key, rest, j - 1);
      assert rest[j..] == frames[j + 1..];
      LatestFileWins(key, rest, j - 1, k);
    }
  }

  /** Every record of `f` carries `date` in `file_date`. */
  predicate FrameDated(f: Frame, date: string)
  {
    forall r :: r in f.records ==> FileDateColumn in r && r[FileDateColumn] == date
  }

  /** Every loaded record carries the date of the file it came from. */
  lemma LoadedFileDates(blobs: map<string, string>, files: seq<Dated>)
    requires Collect(Loads(blobs, files)).Ok?
    ensures forall j :: 0 <= j < |files| ==> FrameDated(Collect(Loads(blobs, files)).value[j], files[j].date)
  {
    var loads := Loads(blobs, files);
    var frames := Collect(loads).value;
    CollectSpec(loads);
    forall j, r | 0 <= j < |files| && r in frames[j].records
      ensures FileDateColumn in r && r[FileDateColumn] == files[j].date
    {
      assert Load(blobs, files[j]) == Ok(frames[j]);
      var i :| 0 <= i < |frames[j].records| && frames[j].records[i] == r;
    }
  }

  // ---------------------------------------------------------------------
  // The final sort and the whole run

  /** `sort_values(by=key)` order: by key, NaN keys last. */
  predicate KeyLe(key: string, a: Record, b: Record)
  {
    match Key(key, b)
      case None => true
      case Some(y) => key in a && Order.StrLe(a[key], y)
  }

  lemma KeyLeIsTotalPreorder(key: string)
    ensures Order.TotalPreorder((a: Record, b: Record) => KeyLe(key, a, b))
  {
    forall x: Record, y: Record ensures KeyLe(key, x, y) || KeyLe(key, y, x) {
      if key in x && key in y {
        Order.StrLeTotal(x[key], y[key]);
      }
    }
    forall x: Record, y: Record, z: Record | KeyLe(key, x, y) && KeyLe(key, y, z)
      ensures KeyLe(key, x, z)
    {
      if key in z {
        Order.StrLeTransitive(x[key], y[key], z[key]);
      }
    }
  }

  /** The master sorted by key: the same records, keys ascending, and the
      records without a key after all the others. */
  function SortByKey(m: Frame, key: string): (s: Frame)
    ensures s.columns == m.columns
    ensures multiset(s.records) == multiset(m.records)
    ensures forall i, j :: 0 <= i < j < |s.records| ==> KeyLe(key, s.records[i], s.records[j])
    ensures forall i, j :: 0 <= i < j < |s.records| && key in s.records[j] ==> key in s.records[i]
  {
    KeyLeIsTotalPreorder(key);
    var sorted := Order.SortBy(m.records, (a: Record, b: Record) => KeyLe(key, a, b));
    assert forall i, j :: 0 <= i < j < |sorted| ==> KeyLe(key, sorted[i], sorted[j]);
    Frame(m.columns, sorted)
  }

  /** `create_consolidated_master` over `blobs`, given the names the
      listing returned; `None` when no name matches. */
  function ConsolidatedFrom(blobs: map<string, string>, names: seq<string>, p: Pattern, key: string):
    Result<Option<Frame>, MdmError>
  {
    match MatchedFiles(names, p)
      case Err(e) => Err(e)
      case Ok(dated) =>
        var files := SortFiles(dated);
        if files == [] then Ok(None)
        else match Fold(EmptyFrame, Loads(blobs, files), key)
          case Err(e) => Err(e)
          case Ok(m) => if key !in m.columns then Err(MissingKey) else Ok(Some(SortByKey(m, key)))
  }

  /** What `list_blobs(prefix=...)` returns for `blobs`. */
  ghost predicate Listed(blobs: map<string, string>, prefix: string, names: seq<string>)
  {
    && (forall n :: n in names <==> n in blobs && Text.StartsWith(n, prefix))
    && BlobStore.StrictlyAscending(names)
  }

  /** The new store: the sorted master written once, or nothing written. */
  function Uploaded(blobs: map<string, string>, r: Result<Option<Frame>, MdmError>, masterPath: string):
    map<string, string>
  {
    if r.Ok? && r.value.Some? then blobs[masterPath := Csv.Render(ToTable(r.value.value))] else blobs
  }

  method CreateConsolidatedMaster(b: BlobStore.Bucket, p: Pattern, key: string, masterPath: string)
    returns (r: Result<Option<Frame>, MdmError>)
    modifies b
    ensures exists names ::
              Listed(old(b.blobs), ListingPrefix(p), names) && r == ConsolidatedFrom(old(b.blobs), names, p, key)
    ensures b.blobs == Uploaded(old(b.blobs), r, masterPath)
  {
    var names := b.ListBlobs(ListingPrefix(p));
    assert Listed(b.blobs, ListingPrefix(p), names);
    var matched := FilterMatching(names, p);
    if matched.Err? {
      return Err(matched.error);
    }
    var files := SortFiles(matched.value);
    if |files| == 0 {
      return Ok(None);
    }
    var folded := FoldFiles(b, files, key);
    if folded.Err? {
      return Err(folded.error);
    }
    if key !in folded.value.columns {
      return Err(MissingKey);
    }
    var master := SortByKey(folded.value, key);
    SharedUtils.UploadCsvToGcs(b, ToTable(master), masterPath);
    return Ok(Some(master));
  }

  /** No matching name: the run returns `None` and uploads nothing. */
  lemma NoMatchIsNone(blobs: map<string, string>, names: seq<string>, p: Pattern, key: string, masterPath: string)
    requires forall n :: n in names ==> Match(p, n).None?
    ensures ConsolidatedFrom(blobs, names, p, key) == Ok(None)
    ensures Uploaded(blobs, ConsolidatedFrom(blobs, names, p, key), masterPath) == blobs
  {
    MatchedFilesNone(names, p);
    assert SortFiles([]) == [];
  }

  /** Names none of which match filter to nothing. */
  lemma {:induction false} MatchedFilesNone(names: seq<string>, p: Pattern)
    requires forall n :: n in names ==> Match(p, n).None?
    ensures MatchedFiles(names, p) == Ok([])
  {
    if names != [] {
      assert names[0] in names;
      MatchedFilesNone(names[1..], p);
    }
  }

  /** A prefix without `/` lists under the whole pattern text, where no
      name matches: the run returns `None` and uploads nothing. */
  lemma ListingWithoutSlashIsNone(blobs: map<string, string>, names: seq<string>, p: Pattern,
                                  key: string, masterPath: string)
    requires '/' !in p.prefix && Listed(blobs, ListingPrefix(p), names)
    ensures ConsolidatedFrom(blobs, names, p, key) == Ok(None)
    ensures Uploaded(blobs, ConsolidatedFrom(blobs, names, p, key), masterPath) == blobs
  {
    forall n | n in names
      ensures Match(p, n).None?
    {
      ListingMissesWithoutSlash(p, n);
    }
    NoMatchIsNone(blobs, names, p, key, masterPath);
  }

  /** A matching name with a real date never gives `None`. */
  lemma MatchIsNotNone(blobs: map<string, string>, names: seq<string>, p: Pattern, key: string, n: string)
    requires n in names && Match(p, n).Some?
    ensures ConsolidatedFrom(blobs, names, p, key) != Ok(None)
  {
    if MatchedFiles(names, p).Ok? {
      var dated := MatchedFiles(names, p).value;
      MatchedFilesComplete(names, p);
      var k :| 0 <= k < |dated| && dated[k].file == n;
      var files := SortFiles(dated);
      assert dated[k] in multiset(files);
      assert files != [];
    }
  }

  /** The consolidated master: a reordering of the reference result of the
      sorted files, holding exactly the keys of all files and the key
      column. `ConsolidatedLatestWins` and `ConsolidatedFileDates` state
      what it holds key by key and record by record. */
  lemma ConsolidatedSpec(blobs: map<string, string>, names: seq<string>, p: Pattern, key: string)
    requires ConsolidatedFrom(blobs, names, p, key).Ok?
    requires ConsolidatedFrom(blobs, names, p, key).value.Some?
    ensures MatchedFiles(names, p).Ok?
    ensures var files := SortFiles(MatchedFiles(names, p).value);
      var m := ConsolidatedFrom(blobs, names, p, key).value.value;
      var loads := Loads(blobs, files);
      && Collect(loads).Ok?
      && multiset(m.records) == multiset(Survivors(key, Collect(loads).value))
      && KeysOf(key, m.records) == AllKeys(key, Collect(loads).value)
      && key in m.columns
  {
    var files := SortFiles(MatchedFiles(names, p).value);
    var m := ConsolidatedFrom(blobs, names, p, key).value.value;
    var loads := Loads(blobs, files);
    FoldIsSurvivors(loads, key);
    var folded := Fold(EmptyFrame, loads, key).value;
    SurvivorKeys(key, Collect(loads).value);
    SameKeys(key, m.records, folded.records);
  }

  /** The frames of the date-sorted files behind a consolidated master. */
  function SortedFrames(blobs: map<string, string>, names: seq<string>, p: Pattern): seq<Frame>
    requires MatchedFiles(names, p).Ok?
    requires Collect(Loads(blobs, SortFiles(MatchedFiles(names, p).value))).Ok?
  {
    Collect(Loads(blobs, SortFiles(MatchedFiles(names, p).value))).value
  }

  /** Latest file wins in the uploaded master: a key's records there are,
      up to order, exactly its records in the last sorted file having it. */
  lemma ConsolidatedLatestWins(blobs: map<string, string>, names: seq<string>, p: Pattern, key: string,
                               j: int, k: Option<string>)
    requires ConsolidatedFrom(blobs, names, p, key).Ok?
    requires ConsolidatedFrom(blobs, names, p, key).value.Some?
    requires MatchedFiles(names, p).Ok?
    requires Collect(Loads(blobs, SortFiles(MatchedFiles(names, p).value))).Ok?
    requires 0 <= j < |SortedFrames(blobs, names, p)|
    requires k in KeysOf(key, SortedFrames(blobs, names, p)[j].records)
    requires k !in AllKeys(key, SortedFrames(blobs, names, p)[j + 1..])
    ensures multiset(RowsWithKey(key, ConsolidatedFrom(blobs, names, p, key).value.value.records, k))
         == multiset(RowsWithKey(key, SortedFrames(blobs, names, p)[j].records, k))
  {
    var frames := SortedFrames(blobs, names, p);
    var m := ConsolidatedFrom(blobs, names, p, key).value.value;
    ConsolidatedSpec(blobs, names, p, key);
    RowsWithKeyPermutation(key, m.records, Survivors(key, frames), k);
    LatestFileWins(key, frames, j, k);
  }

  /** Every record of the uploaded master carries in `file_date` the date
      of one of the sorted files. */
  lemma ConsolidatedFileDates(blobs: map<string, string>, names: seq<string>, p: Pattern, key: string)
    requires ConsolidatedFrom(blobs, names, p, key).Ok?
    requires ConsolidatedFrom(blobs, names, p, key).value.Some?
    ensures MatchedFiles(names, p).Ok?
    ensures var files := SortFiles(MatchedFiles(names, p).value);
      forall r :: r in ConsolidatedFrom(blobs, names, p, key).value.value.records ==>
        FileDateColumn in r && exists j :: 0 <= j < |files| && r[FileDateColumn] == files[j].date
  {
    ConsolidatedSpec(blobs, names, p, key);
    var files := SortFiles(MatchedFiles(names, p).value);
    var frames := Collect(Loads(blobs, files)).value;
    LoadedFileDates(blobs, files);
    SurvivorsCarryDates(key, frames, files, ConsolidatedFrom(blobs, names, p, key).value.value.records);
  }

  /** A permutation of the survivors carries in `file_date` the date of
      one of the files, when each frame carries its own file's date. */
  lemma SurvivorsCarryDates(key: string, frames: seq<Frame>, files: seq<Dated>, records: seq<Record>)
    requires |frames| == |files|
    requires forall j :: 0 <= j < |files| ==> FrameDated(frames[j], files[j].date)
    requires multiset(records) == multiset(Survivors(key, frames))
    ensures forall r :: r in records ==>
      FileDateColumn in r && exists j :: 0 <= j < |files| && r[FileDateColumn] == files[j].date
  {
    forall r | r in records
      ensures FileDateColumn in r && exists j :: 0 <= j < |files| && r[FileDateColumn] == files[j].date
    {
      assert r in multiset(records);
      assert r in multiset(Survivors(key, frames));
      SurvivorsFrom(key, frames, r);
      var j :| 0 <= j < |frames| && r in frames[j].records;
      assert FrameDated(frames[j], files[j].date);
    }
  }

  /** A surviving record is a record of one of the frames. */
  lemma {:induction false} SurvivorsFrom(key: string, frames: seq<Frame>, r: Record)
    requires r in Survivors(key, frames)
    ensures exists j :: 0 <= j < |frames| && r in frames[j].records
    decreases frames
  {
    var kept := Keep(key, frames[0].records, AllKeys(key, frames[1..]));
    KeepSpec(key, frames[0].records, AllKeys(key, frames[1..]));
    if r !in kept {
      SurvivorsFrom(key, frames[1..], r);
      var j :| 0 <= j < |frames[1..]| && r in frames[1..][j].records;
      assert frames[j + 1] == frames[1..][j];
    }
  }

  /** How often a record occurs among one key's rows. */
  lemma {:induction false} RowsWithKeyCount(key: string, a: seq<Record>, k: Option<string>, r: Record)
    ensures multiset(RowsWithKey(key, a, k))[r] == if Key(key, r) == k then multiset(a)[r] else 0
  {
    if a != [] {
      RowsWithKeyCount(key, a[1..], k, r);
      var head := if Key(key, a[0]) == k then [a[0]] else [];
      assert RowsWithKey(key, a, k) == head + RowsWithKey(key, a[1..], k);
      assert multiset(RowsWithKey(key, a, k)) == multiset(head) + multiset(RowsWithKey(key, a[1..], k));
      Order.HeadTail(a);
      assert multiset(a) == multiset{a[0]} + multiset(a[1..]);
    }
  }

  /** Selecting one key's rows respects permutation. */
  lemma RowsWithKeyPermutation(key: string, a: seq<Record>, b: seq<Record>, k: Option<string>)
    requires multiset(a) == multiset(b)
    ensures multiset(RowsWithKey(key, a, k)) == multiset(RowsWithKey(key, b, k))
  {
    forall r
      ensures multiset(RowsWithKey(key, a, k))[r] == multiset(RowsWithKey(key, b, k))[r]
    {
      RowsWithKeyCount(key, a, k, r);
      RowsWithKeyCount(key, b, k, r);
    }
  }

  lemma SameKeys(key: string, a: seq<Record>, b: seq<Record>)
    requires multiset(a) == multiset(b)
    ensures KeysOf(key, a) == KeysOf(key, b)
  {
    forall r ensures r in a <==> r in b {
      assert r in a <==> r in multiset(a);
      assert r in b <==> r in multiset(b);
    }
  }
}
