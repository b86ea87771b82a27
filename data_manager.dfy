/** The data descriptors of the ingestion side: what a source is (path, type,
    chunking parameters, extra selector), how its type is read off the path,
    when a list of sources is valid, and how the list is saved to and loaded
    from the data file (one CSV row per source) so that an unchanged list can
    reuse the existing vector store. The file system and the network are
    oracles: `fileExists(path)` is `os.path.exists`, `head(url)` the status code of
    `requests.head` or the exception it raises. */
module DataManager {
  import opened Wrappers
  import opened PyStr

  datatype DataType = TEXT | WEB | PDF | CSV

  /** `DataType(v)`: ValueError for a value that names no member. */
  function TypeOfValue(v: int): (r: Result<DataType>)
    ensures r.Success? <==> 1 <= v <= 4
    ensures r.Failure? ==> r.error == ValueError
  {
    if v == 1 then Success(TEXT)
    else if v == 2 then Success(WEB)
    else if v == 3 then Success(PDF)
    else if v == 4 then Success(CSV)
    else Failure(ValueError)
  }

  /** `t.value`. */
  function TypeValue(t: DataType): (v: int)
    ensures 1 <= v <= 4
    ensures TypeOfValue(v) == Success(t)
  {
    match t
    case TEXT => 1
    case WEB => 2
    case PDF => 3
    case CSV => 4
  }

  /** The default of `extra`, a string, compared as such by the checks. */
  const NoExtra := "None"

  /** A source. `dataType` is None when `get_data_type` recognised nothing. */
  datatype Data = Data(path: string, dataType: Option<DataType>, chunkSize: int, chunkOverlap: int, extra: string)

  /** The right operand of `==`: a `Data` or any other Python value. */
  datatype PyValue = DataValue(data: Data) | OtherValue

  /** `Data.__eq__`: unequal to anything that is not a `Data`, otherwise
      compared field by field. */
  function Eq(self: Data, value: PyValue): (r: bool)
    ensures r <==> value.DataValue? && value.data.path == self.path && value.data.dataType == self.dataType
                   && value.data.chunkSize == self.chunkSize && value.data.chunkOverlap == self.chunkOverlap
                   && value.data.extra == self.extra
    ensures r <==> value == DataValue(self)
  {
    if !value.DataValue? then false
    else if self.path != value.data.path then false
    else if self.dataType != value.data.dataType then false
    else if self.chunkSize != value.data.chunkSize then false
    else if self.chunkOverlap != value.data.chunkOverlap then false
    else if self.extra != value.data.extra then false
    else true
  }

  /** `Data.__ne__`. */
  function Ne(self: Data, value: PyValue): (r: bool)
    ensures r <==> !Eq(self, value)
    ensures r <==> value != DataValue(self)
  {
    !Eq(self, value)
  }

  /** Python's `==` on two lists of `Data`: same length, pairwise `__eq__`. */
  predicate ListEq(a: seq<Data>, b: seq<Data>) {
    |a| == |b| && forall i :: 0 <= i < |a| ==> Eq(a[i], DataValue(b[i]))
  }

  /** Comparing lists with `__eq__` is comparing them as values. */
  lemma ListEqIff(a: seq<Data>, b: seq<Data>)
    ensures ListEq(a, b) <==> a == b
  {
    if ListEq(a, b) {
      forall i | 0 <= i < |a| ensures a[i] == b[i] {
        assert Eq(a[i], DataValue(b[i]));
      }
    }
  }

  /** `get_data_type`: the suffixes `.txt`, `.pdf`, `.csv` are tested before the
      `http` prefix; anything else has no type. */
  function GetDataType(path: string): (r: Option<DataType>)
    ensures EndsWith(path, ".txt") ==> r == Some(TEXT)
    ensures !EndsWith(path, ".txt") && EndsWith(path, ".pdf") ==> r == Some(PDF)
    ensures !EndsWith(path, ".txt") && !EndsWith(path, ".pdf") && EndsWith(path, ".csv") ==> r == Some(CSV)
    ensures r == Some(WEB) <==>
            !EndsWith(path, ".txt") && !EndsWith(path, ".pdf") && !EndsWith(path, ".csv") && StartsWith(path, "http")
    ensures r == None <==>
            !EndsWith(path, ".txt") && !EndsWith(path, ".pdf") && !EndsWith(path, ".csv") && !StartsWith(path, "http")
  {
    if EndsWith(path, ".txt") then Some(TEXT)
    else if EndsWith(path, ".pdf") then Some(PDF)
    else if EndsWith(path, ".csv") then Some(CSV)
    else if StartsWith(path, "http") then Some(WEB)
    else None
  }

  /** A web address that names a PDF is a PDF source. */
  lemma SuffixBeforeScheme()
    ensures GetDataType("http://x.pdf") == Some(PDF)
    ensures GetDataType("http://x") == Some(WEB)
    ensures GetDataType("x.doc") == None
  {
    assert "http://x.pdf"[8..] == ".pdf";
    assert "http://x"[..4] == "http";
    assert "http://x"[4..] == "://x";
    assert "x.doc"[1..] == ".doc";
    assert "x.doc"[..4] == "x.do";
  }

  // ------------------------------------------------------------------ validation

  /** A local source: its file must exist under the data directory. */
  predicate IsLocal(d: Data) {
    d.dataType == Some(TEXT) || d.dataType == Some(PDF) || d.dataType == Some(CSV)
  }

  /** The checks of one source, in the order of `check_data`: a missing local
      file; for a web source, a status other than 200, a path not starting with
      `http` or no selector in `extra`; a CSV source without a column in `extra`.
      The web request raises for addresses it cannot handle. */
  function CheckItem(d: Data, dataDir: string, fileExists: string -> bool, head: string -> Result<int>): (r: Result<bool>)
    ensures r.Failure? <==> d.dataType == Some(WEB) && head(d.path).Failure?
    ensures r == Success(true) <==>
            && (IsLocal(d) ==> fileExists(dataDir + d.path))
            && (d.dataType == Some(WEB) ==> head(d.path) == Success(200) && StartsWith(d.path, "http") && d.extra != NoExtra)
            && (d.dataType == Some(CSV) ==> d.extra != NoExtra)
  {
    if IsLocal(d) && !fileExists(dataDir + d.path) then Success(false)
    else if d.dataType == Some(WEB) then
      match head(d.path)
      case Failure(e) => Failure(e)
      case Success(status) =>
        if status != 200 then Success(false)
        else if !StartsWith(d.path, "http") then Success(false)
        else if d.extra == NoExtra then Success(false)
        else Success(true)
    else if d.dataType == Some(CSV) && d.extra == NoExtra then Success(false)
    else Success(true)
  }

  /** The loop of `check_data`: the first source that fails decides. */
  function CheckAll(data: seq<Data>, dataDir: string, fileExists: string -> bool, head: string -> Result<int>): Result<bool>
  {
    if data == [] then Success(true)
    else
      match CheckItem(data[0], dataDir, fileExists, head)
      case Failure(e) => Failure(e)
      case Success(ok) => if !ok then Success(false) else CheckAll(data[1..], dataDir, fileExists, head)
  }

  /** A list is valid exactly when every source passes its checks; the empty list
      is valid. */
  lemma {:induction false} CheckAllSpec(data: seq<Data>, dataDir: string, fileExists: string -> bool, head: string -> Result<int>)
    ensures CheckAll(data, dataDir, fileExists, head) == Success(true) <==>
            forall i :: 0 <= i < |data| ==> CheckItem(data[i], dataDir, fileExists, head) == Success(true)
    decreases |data|
  {
    if data != [] {
      CheckAllSpec(data[1..], dataDir, fileExists, head);
      assert forall i :: 1 <= i < |data| ==> data[1..][i - 1] == data[i];
    }
  }

  /** `check_data`. */
  method CheckData(data: seq<Data>, dataDir: string, fileExists: string -> bool, head: string -> Result<int>) returns (r: Result<bool>)
    ensures r == CheckAll(data, dataDir, fileExists, head)
  {
    for i := 0 to |data|
      invariant CheckAll(data, dataDir, fileExists, head) == CheckAll(data[i..], dataDir, fileExists, head)
    {
      assert data[i..][1..] == data[i + 1..];
      var item := CheckItem(data[i], dataDir, fileExists, head);
      if item.Failure? {
        return Failure(item.error);
      }
      if !item.value {
        return Success(false);
      }
    }
    assert data[|data|..] == [];
    r := Success(true);
  }

  // ------------------------------------------------------------------ the data file

  /** A CSV row, as the CSV reader gives it back: its fields as strings. */
  type Row = seq<string>

  /** The row written for a source; `d.data_type.value` fails on a source
      without a type. */
  function ToRow(d: Data): (r: Result<Row>)
    ensures r.Success? <==> d.dataType.Some?
    ensures r.Failure? ==> r.error == AttributeError
    ensures r.Success? ==> |r.value| == 5 && r.value[0] == d.path && r.value[4] == d.extra
  {
    match d.dataType
    case None => Failure(AttributeError)
    case Some(t) =>
      Success([d.path, IntToString(TypeValue(t)), IntToString(d.chunkSize), IntToString(d.chunkOverlap), d.extra])
  }

  /** The source read back from a row: unpacking needs exactly five fields, and
      the type and the sizes must parse as integers. */
  function FromRow(row: Row): (r: Result<Data>)
    ensures |row| != 5 ==> r == Failure(ValueError)
    ensures r.Success? ==> r.value.path == row[0] && r.value.extra == row[4] && r.value.dataType.Some?
  {
    if |row| != 5 then Failure(ValueError)
    else
      match ParseInt(row[1])
      case Failure(e) => Failure(e)
      case Success(v) =>
        match TypeOfValue(v)
        case Failure(e) => Failure(e)
        case Success(t) =>
          match ParseInt(row[2])
          case Failure(e) => Failure(e)
          case Success(size) =>
            match ParseInt(row[3])
            case Failure(e) => Failure(e)
            case Success(overlap) => Success(Data(row[0], Some(t), size, overlap, row[4]))
  }

  /** Writing a typed source and reading it back gives the same source. */
  lemma RowRoundTrip(d: Data)
    requires d.dataType.Some?
    ensures FromRow(ToRow(d).value) == Success(d)
  {
    IntRoundTrip(TypeValue(d.dataType.value));
    IntRoundTrip(d.chunkSize);
    IntRoundTrip(d.chunkOverlap);
  }

  /** The rows on file after writing `data`: one per source, up to the first
      source without a type, where the writer raises. */
  function WrittenRows(data: seq<Data>): (r: seq<Row>)
    ensures |r| <= |data|
  {
    if data == [] || data[0].dataType.None? then []
    else [ToRow(data[0]).value] + WrittenRows(data[1..])
  }

  predicate AllTyped(data: seq<Data>) {
    forall i :: 0 <= i < |data| ==> data[i].dataType.Some?
  }

  /** The sources read back from rows, in order; the first bad row raises. */
  function FromRows(rows: seq<Row>): (r: Result<seq<Data>>)
    ensures r.Success? ==> |r.value| == |rows|
  {
    if rows == [] then Success([])
    else
      match FromRow(rows[0])
      case Failure(e) => Failure(e)
      case Success(d) => Prefixed([d], FromRows(rows[1..]))
  }

  /** Saving a list of typed sources and loading the file gives the list back. */
  lemma {:induction false} RowsRoundTrip(data: seq<Data>)
    requires AllTyped(data)
    ensures |WrittenRows(data)| == |data|
    ensures FromRows(WrittenRows(data)) == Success(data)
    decreases |data|
  {
    if data != [] {
      var rows := WrittenRows(data);
      assert rows == [ToRow(data[0]).value] + WrittenRows(data[1..]);
      assert rows[1..] == WrittenRows(data[1..]);
      RowRoundTrip(data[0]);
      assert AllTyped(data[1..]);
      RowsRoundTrip(data[1..]);
      assert FromRows(rows) == Prefixed([data[0]], Success(data[1..]));
      assert [data[0]] + data[1..] == data;
    }
  }

  lemma {:induction false} WrittenRowsAppend(data: seq<Data>, d: Data)
    requires AllTyped(data) && d.dataType.Some?
    ensures WrittenRows(data + [d]) == WrittenRows(data) + [ToRow(d).value]
    decreases |data|
  {
    if data == [] {
      assert (data + [d])[1..] == [];
    } else {
      assert (data + [d])[1..] == data[1..] + [d];
      WrittenRowsAppend(data[1..], d);
    }
  }

  lemma {:induction false} WrittenRowsStop(data: seq<Data>, d: Data)
    requires AllTyped(data) && d.dataType.None?
    ensures WrittenRows(data + [d]) == WrittenRows(data)
    decreases |data|
  {
    if data == [] {
    } else {
      assert (data + [d])[1..] == data[1..] + [d];
      WrittenRowsStop(data[1..], d);
    }
  }

  /** The sources on file; a missing file reads as the empty list. */
  function Loaded(dataFile: Option<seq<Row>>): (r: Result<seq<Data>>)
    ensures dataFile.None? ==> r == Success([])
    ensures dataFile.Some? && r.Success? ==> |r.value| == |dataFile.value|
  {
    if dataFile.None? then Success([]) else FromRows(dataFile.value)
  }

  /** `data` put in front of a successful parse. */
  function Prefixed(data: seq<Data>, r: Result<seq<Data>>): Result<seq<Data>>
  {
    match r
    case Failure(e) => Failure(e)
    case Success(ds) => Success(data + ds)
  }

  lemma PrefixedStep(data: seq<Data>, d: Data, r: Result<seq<Data>>)
    ensures Prefixed(data, Prefixed([d], r)) == Prefixed(data + [d], r)
  {
    if r.Success? {
      assert data + ([d] + r.value) == data + [d] + r.value;
    }
  }

  datatype TestResult = CREATE | GET | ERROR

  /** `DataTester`: the data file is its state; None while the file is missing. */
  class DataTester {
    const dataDir: string
    var dataFile: Option<seq<Row>>

    constructor (dataDir: string, dataFile: Option<seq<Row>>)
      ensures this.dataDir == dataDir && this.dataFile == dataFile
    {
      this.dataDir := dataDir;
      this.dataFile := dataFile;
    }

    /** `create_data_file`: one row per source; a source without a type raises
        after the rows before it were written. */
    method CreateDataFile(data: seq<Data>) returns (r: Result<()>)
      modifies this
      ensures dataFile == Some(WrittenRows(data))
      ensures r.Success? <==> AllTyped(data)
      ensures r.Failure? ==> r.error == AttributeError
    {
      var rows: seq<Row> := [];
      dataFile := Some(rows);
      for i := 0 to |data|
        invariant AllTyped(data[..i])
        invariant dataFile == Some(WrittenRows(data[..i]))
      {
        assert data[..i + 1] == data[..i] + [data[i]];
        var row := ToRow(data[i]);
        if row.Failure? {
          WrittenRowsStop(data[..i], data[i]);
          WrittenRowsPrefix(data, i);
          return Failure(row.error);
        }
        WrittenRowsAppend(data[..i], data[i]);
        dataFile := Some(dataFile.value + [row.value]);
      }
      assert data[..|data|] == data;
      r := Success(());
    }

    /** `load_data_file`. */
    method LoadDataFile() returns (r: Result<seq<Data>>)
      ensures r == Loaded(dataFile)
    {
      if dataFile.None? {
        return Success([]);
      }
      var rows := dataFile.value;
      var data: seq<Data> := [];
      assert rows[0..] == rows;
      assert Prefixed([], FromRows(rows)) == FromRows(rows) by {
        if FromRows(rows).Success? { assert [] + FromRows(rows).value == FromRows(rows).value; }
      }
      for i := 0 to |rows|
        invariant FromRows(rows) == Prefixed(data, FromRows(rows[i..]))
      {
        assert rows[i..][1..] == rows[i + 1..];
        var d := FromRow(rows[i]);
        if d.Failure? {
          return Failure(d.error);
        }
        PrefixedStep(data, d.value, FromRows(rows[i + 1..]));
        data := data + [d.value];
      }
      assert rows[|rows|..] == [];
      assert data + [] == data;
      r := Success(data);
    }

    /** `test`: ERROR for invalid sources; GET when the vector store exists and
        the data file holds the same list; otherwise the data file is rewritten
        and the store must be created. After CREATE the file holds the list. */
    method Test(data: seq<Data>, fileExists: string -> bool, head: string -> Result<int>, dbExists: bool)
      returns (r: Result<TestResult>)
      modifies this
      ensures var valid := CheckAll(data, dataDir, fileExists, head);
              && (valid.Failure? ==> r == Failure(valid.error))
              && (valid == Success(false) ==> r == Success(ERROR))
              && (r == Success(GET) <==>
                    valid == Success(true) && dbExists && Loaded(old(dataFile)) == Success(data))
      ensures r == Success(GET) || r == Success(ERROR) || CheckAll(data, dataDir, fileExists, head).Failure? ==> dataFile == old(dataFile)
      ensures r == Success(CREATE) || dataFile != old(dataFile) ==> dataFile == Some(WrittenRows(data))
      ensures r == Success(CREATE) ==> dataFile.Some? && FromRows(dataFile.value) == Success(data)
      ensures var loaded := Loaded(old(dataFile));
              CheckAll(data, dataDir, fileExists, head) == Success(true) && dbExists && loaded.Failure? ==>
                r == Failure(loaded.error)
      ensures var loaded := Loaded(old(dataFile));
              CheckAll(data, dataDir, fileExists, head) == Success(true) &&
              !(dbExists && (loaded.Failure? || loaded == Success(data))) ==>
                r == (if AllTyped(data) then Success(CREATE) else Failure(AttributeError))
    {
      var valid := CheckData(data, dataDir, fileExists, head);
      if valid.Failure? {
        return Failure(valid.error);
      }
      if !valid.value {
        return Success(ERROR);
      }
      if dbExists {
        var oldData := LoadDataFile();
        if oldData.Failure? {
          return Failure(oldData.error);
        }
        ListEqIff(data, oldData.value);
        if ListEq(data, oldData.value) {
          return Success(GET);
        }
      }
      var written := CreateDataFile(data);
      if written.Failure? {
        return Failure(written.error);
      }
      RowsRoundTrip(data);
      r := Success(CREATE);
    }
  }

  lemma {:induction false} WrittenRowsPrefix(data: seq<Data>, i: nat)
    requires i < |data| && AllTyped(data[..i]) && data[i].dataType.None?
    ensures WrittenRows(data) == WrittenRows(data[..i + 1])
    decreases i
  {
    if i > 0 {
      assert data[1..][..i - 1] == data[..i][1..];
      assert data[1..][..i] == data[..i + 1][1..];
      WrittenRowsPrefix(data[1..], i - 1);
    }
  }

  // ------------------------------------------------------------------ the list of sources

  /** `DataList`: the sources added so far. */
  class DataList {
    var data: seq<Data>

    constructor ()
      ensures data == []
    {
      data := [];
    }

    /** `add`: one source, typed by its path. */
    method Add(path: string, chunkSize: int := 0, chunkOverlap: int := 0, extra: string := NoExtra)
      modifies this
      ensures data == old(data) + [Data(path, GetDataType(path), chunkSize, chunkOverlap, extra)]
    {
      var d := Data(path, GetDataType(path), chunkSize, chunkOverlap, extra);
      data := data + [d];
    }

    /** `add_dir`: one source `path + file` per entry of the listing of
        `main_dir + path`, in listing order; `listDir` is `os.listdir`. */
    method AddDir(mainDir: string, path: string, listDir: string -> seq<string>,
                  chunkSize: int := 0, chunkOverlap: int := 0, extra: string := NoExtra)
      modifies this
      ensures var listing := listDir(mainDir + path);
              && |data| == |old(data)| + |listing| && data[..|old(data)|] == old(data)
              && forall i :: 0 <= i < |listing| ==>
                   data[|old(data)| + i] == Data(path + listing[i], GetDataType(path + listing[i]), chunkSize, chunkOverlap, extra)
    {
      var listing := listDir(mainDir + path);
      ghost var before := data;
      for i := 0 to |listing|
        invariant |data| == |before| + i && data[..|before|] == before
        invariant forall j :: 0 <= j < i ==>
                    data[|before| + j] == Data(path + listing[j], GetDataType(path + listing[j]), chunkSize, chunkOverlap, extra)
      {
        Add(path + listing[i], chunkSize, chunkOverlap, extra);
      }
    }
  }
}
