/** The feature-vector store (analysis_store.rs): a map from path to the
    analysis vector, updated in place by `insert` and `remove`. */
module AnalysisStorage {
  import opened Wrappers
  import opened Paths

  /** An analysis vector; the f32 features are reals. */
  type Features = seq<real>

  class AnalysisStore {
    var data: map<Path, Features>

    /** `AnalysisStore::default()`: no entries. */
    constructor ()
      ensures data == map[]
    {
      data := map[];
    }

    /** `AnalysisStore::load`: no file gives the empty store; an unreadable
        or undecodable file is an error. */
    static method Load(file: Persisted<map<Path, Features>>) returns (r: Result<AnalysisStore>)
      ensures file.Absent? ==> r.Ok? && fresh(r.value) && r.value.data == map[]
      ensures file.ReadFailed? ==> r == Err("Failed to read analysis store file")
      ensures file.ParseFailed? ==> r == Err("Failed to deserialize analysis store")
      ensures file.Stored? ==> r.Ok? && fresh(r.value) && r.value.data == file.value
    {
      match file {
        case Absent =>
          var store := new AnalysisStore();
          r := Ok(store);
        case ReadFailed =>
          r := Err("Failed to read analysis store file");
        case ParseFailed =>
          r := Err("Failed to deserialize analysis store");
        case Stored(m) =>
          var store := new AnalysisStore();
          store.data := m;
          r := Ok(store);
      }
    }

    /** `get`: the vector stored for `p`, if any. */
    function Get(p: Path): (r: Option<Features>)
      reads this
      ensures r.Some? <==> p in data
      ensures r.Some? ==> r.value == data[p]
    {
      if p in data then Some(data[p]) else None
    }

    /** `insert`: adds or replaces the entry for `p`. */
    method Insert(p: Path, analysis: Features)
      modifies this
      ensures data == old(data)[p := analysis]
      ensures Get(p) == Some(analysis)
      ensures forall q :: q != p ==> Get(q) == old(Get(q))
    {
      data := data[p := analysis];
    }

    /** `remove`: drops the entry for `p`; nothing happens when there is none. */
    method Remove(p: Path)
      modifies this
      ensures data == old(data) - {p}
      ensures Get(p) == None
      ensures forall q :: q != p ==> Get(q) == old(Get(q))
      ensures old(p !in data) ==> data == old(data)
    {
      data := data - {p};
    }
  }
}
