/** The retriever's list of sources: the same `Data` descriptors, type rule and
    checks as the ingestion side, with the data directory fixed by the
    configuration and a check that also refuses an empty list. */
module RetrieverDataManager {
  import opened Wrappers
  import opened DataManager

  class DataList {
    var data: seq<Data>
    /** `config['paths']['data']`. */
    const mainDir: string

    constructor (mainDir: string)
      ensures data == [] && this.mainDir == mainDir
    {
      data := [];
      this.mainDir := mainDir;
    }

    /** `add`: one source, typed by its path. */
    method Add(path: string, chunkSize: int := 0, chunkOverlap: int := 0, extra: string := NoExtra)
      modifies this
      ensures data == old(data) + [Data(path, GetDataType(path), chunkSize, chunkOverlap, extra)]
    {
      data := data + [Data(path, GetDataType(path), chunkSize, chunkOverlap, extra)];
    }

    /** `add_dir`: one source `path + file` per entry of the listing of
        `main_dir + path`, in listing order; `listDir` is `os.listdir`. */
    method AddDir(listDir: string -> seq<string>, path: string := "",
                  chunkSize: int := 0, chunkOverlap: int := 0, extra: string := NoExtra)
      modifies this
      ensures var listing := listDir(mainDir + path);
              && |data| == |old(data)| + |listing| && data[..|old(data)|] == old(data)
              && forall i :: 0 <= i < |listing| ==>
                   data[|old(data)| + i] == Data(path + listing[i], GetDataType(path + listing[i]), chunkSize, chunkOverlap, extra)
    {
      var listing := listDir(mainDir + path);
      ghost var before := data;
      for i := 0 to |listing|
        invariant |data| == |before| + i && data[..|before|] == before
        invariant forall j :: 0 <= j < i ==>
                    data[|before| + j] == Data(path + listing[j], GetDataType(path + listing[j]), chunkSize, chunkOverlap, extra)
      {
        Add(path + listing[i], chunkSize, chunkOverlap, extra);
      }
    }

    /** `test`: an empty list is refused; otherwise every source must pass the
        checks of the data tester, under `main_dir`. A failing web request
        raises. */
    method Test(fileExists: string -> bool, head: string -> Result<int>) returns (r: Result<bool>)
      ensures r == Success(true) <==>
              data != [] && forall i :: 0 <= i < |data| ==> CheckItem(data[i], mainDir, fileExists, head) == Success(true)
      ensures data == [] ==> r == Success(false)
      ensures data != [] ==> r == CheckAll(data, mainDir, fileExists, head)
    {
      if data == [] {
        return Success(false);
      }
      r := CheckData(data, mainDir, fileExists, head);
      CheckAllSpec(data, mainDir, fileExists, head);
    }
  }
}
