/** The identifier of data written to an HDF5-style data store for auditing:
    a trace id, a file, a group within the file and the names of the datasets
    in that group. Every reference field may be null. */
module DataStorage {
  import opened Wrappers

  datatype JavaError = NullPointer

  /** String concatenation renders a null reference as "null". */
  function Render(s: Option<string>): string
  {
    if s.None? then "null" else s.value
  }

  /** The "group/dataset" path of each dataset. */
  function Qualified(group: Option<string>, datasets: set<string>): (r: set<string>)
    ensures forall d :: d in datasets ==> Render(group) + "/" + d in r
    ensures forall q :: q in r ==> exists d :: d in datasets && q == Render(group) + "/" + d
  {
    set d | d in datasets :: Render(group) + "/" + d
  }

  lemma QualifiedInjective(group: Option<string>, a: string, b: string)
    requires Render(group) + "/" + a == Render(group) + "/" + b
    ensures a == b
  {
    var prefix := Render(group) + "/";
    assert a == (prefix + a)[|prefix|..];
    assert b == (prefix + b)[|prefix|..];
  }

  /** Exactly one qualified path per dataset: no two datasets share one. */
  lemma {:induction false} QualifiedCount(group: Option<string>, datasets: set<string>)
    ensures |Qualified(group, datasets)| == |datasets|
    decreases |datasets|
  {
    if datasets != {} {
      var d :| d in datasets;
      var rest := datasets - {d};
      QualifiedCount(group, rest);
      var q := Render(group) + "/" + d;
      assert Qualified(group, datasets) == Qualified(group, rest) + {q};
      forall x | x in Qualified(group, rest) ensures x != q {
        var e :| e in rest && x == Render(group) + "/" + e;
        if x == q {
          QualifiedInjective(group, e, d);
        }
      }
      assert q !in Qualified(group, rest);
    }
  }

  class DataId {
    var traceId: Option<string>
    var file: Option<string>
    var group: Option<string>
    var datasets: Option<set<string>>

    /** The no-argument constructor leaves every field null. */
    constructor Empty()
      ensures traceId == None && file == None && group == None && datasets == None
    {
      traceId := None;
      file := None;
      group := None;
      datasets := None;
    }

    /** Starts with an empty dataset set. */
    constructor InGroup(traceId: Option<string>, file: Option<string>, group: Option<string>)
      ensures this.traceId == traceId && this.file == file && this.group == group
      ensures datasets == Some({})
    {
      this.traceId := traceId;
      this.file := file;
      this.group := group;
      this.datasets := Some({});
    }

    constructor (traceId: Option<string>, file: Option<string>, group: Option<string>, datasets: Option<set<string>>)
      ensures this.traceId == traceId && this.file == file && this.group == group && this.datasets == datasets
    {
      this.traceId := traceId;
      this.file := file;
      this.group := group;
      this.datasets := datasets;
    }

    function GetTraceId(): (r: Option<string>)
      reads this
      ensures r == traceId
    {
      traceId
    }

    function GetFile(): (r: Option<string>)
      reads this
      ensures r == file
    {
      file
    }

    function GetGroup(): (r: Option<string>)
      reads this
      ensures r == group
    {
      group
    }

    function GetDatasets(): (r: Option<set<string>>)
      reads this
      ensures r == datasets
    {
      datasets
    }

    method SetTraceId(traceId: Option<string>)
      modifies this`traceId
      ensures GetTraceId() == traceId
      ensures GetFile() == old(GetFile()) && GetGroup() == old(GetGroup()) && GetDatasets() == old(GetDatasets())
    {
      this.traceId := traceId;
    }

    method SetFile(file: Option<string>)
      modifies this`file
      ensures GetFile() == file
      ensures GetTraceId() == old(GetTraceId()) && GetGroup() == old(GetGroup()) && GetDatasets() == old(GetDatasets())
    {
      this.file := file;
    }

    method SetGroup(group: Option<string>)
      modifies this`group
      ensures GetGroup() == group
      ensures GetTraceId() == old(GetTraceId()) && GetFile() == old(GetFile()) && GetDatasets() == old(GetDatasets())
    {
      this.group := group;
    }

    method SetDatasets(datasets: Option<set<string>>)
      modifies this`datasets
      ensures GetDatasets() == datasets
      ensures GetTraceId() == old(GetTraceId()) && GetFile() == old(GetFile()) && GetGroup() == old(GetGroup())
    {
      this.datasets := datasets;
    }

    /** Adds a dataset name; a null set throws. */
    method AddDataset(dataset: string) returns (r: Outcome<JavaError>)
      modifies this`datasets
      ensures old(datasets).None? ==> r == Fail(NullPointer) && datasets == old(datasets)
      ensures old(datasets).Some? ==> r == Pass && datasets == Some(old(datasets).value + {dataset})
    {
      if datasets.None? {
        return Fail(NullPointer);
      }
      datasets := Some(datasets.value + {dataset});
      return Pass;
    }

    /** The "group/dataset" paths of all datasets; a null set throws. */
    function GetFullyQualifiedDatasets(): (r: Result<set<string>, JavaError>)
      reads this
      ensures datasets.None? <==> r == Failure(NullPointer)
      ensures r.Success? ==> |r.value| == |datasets.value|
      ensures r.Success? ==> forall q :: q in r.value <==> exists d :: d in datasets.value && q == Render(group) + "/" + d
    {
      if datasets.None? then Failure(NullPointer)
      else
        QualifiedCount(group, datasets.value);
        Success(Qualified(group, datasets.value))
    }
  }
}
