/**
  Model discovery: the module-level scan of the working directory that
  collects the names of the model folders into MODELS, and the default
  model choice taken from it.
 */
module Registry {
  import opened Wrappers
  import opened Errors

  /** Every model folder's name starts with this prefix. */
  const FolderPrefix: string := "jina-embedding"

  /** One directory entry as the scan reports it. */
  datatype Entry = Entry(name: string, isDir: bool)

  /** Python's str.startswith. */
  predicate StartsWith(s: string, prefix: string) {
    |prefix| <= |s| && s[..|prefix|] == prefix
  }

  /** The entry is a directory whose name carries the model prefix. */
  predicate IsModelDir(e: Entry) {
    e.isDir && StartsWith(e.name, FolderPrefix)
  }

  /** The names of the model folders among the entries, in scan order. */
  function Discovered(entries: seq<Entry>): (models: seq<string>)
    ensures |models| <= |entries|
    ensures forall k :: 0 <= k < |models| ==> StartsWith(models[k], FolderPrefix)
  {
    if entries == [] then []
    else
      var last := entries[|entries| - 1];
      Discovered(entries[..|entries| - 1]) + (if IsModelDir(last) then [last.name] else [])
  }

  /**
    The scan loop: append every model folder's name as it is met. The
    result is the filter Discovered, whose properties the lemmas below state.
   */
  method DiscoverModels(entries: seq<Entry>) returns (models: seq<string>)
    ensures models == Discovered(entries)
  {
    models := [];
    for i := 0 to |entries|
      invariant models == Discovered(entries[..i])
    {
      assert entries[..i + 1][..i] == entries[..i];
      if IsModelDir(entries[i]) {
        models := models + [entries[i].name];
      }
    }
    assert entries[..|entries|] == entries;
  }

  /** A name is registered exactly when some entry of that name is a model folder. */
  lemma {:induction false} DiscoveredMembership(entries: seq<Entry>, n: string)
    ensures n in Discovered(entries) <==>
      exists i :: 0 <= i < |entries| && entries[i].name == n && IsModelDir(entries[i])
  {
    if entries != [] {
      var init := entries[..|entries| - 1];
      DiscoveredMembership(init, n);
      if exists i :: 0 <= i < |init| && init[i].name == n && IsModelDir(init[i]) {
        var i :| 0 <= i < |init| && init[i].name == n && IsModelDir(init[i]);
        assert entries[i] == init[i];
      }
      if exists i :: 0 <= i < |entries| && entries[i].name == n && IsModelDir(entries[i]) {
        var i :| 0 <= i < |entries| && entries[i].name == n && IsModelDir(entries[i]);
        if i < |init| {
          assert init[i] == entries[i];
        }
      }
    }
  }

  /**
    MODELS is the subsequence of the scanned names picked out by IsModelDir:
    idx lists, in increasing order, the positions of exactly the model folders.
   */
  lemma {:induction false} DiscoveredIndices(entries: seq<Entry>) returns (idx: seq<nat>)
    ensures |idx| == |Discovered(entries)|
    ensures forall k :: 0 <= k < |idx| ==>
      idx[k] < |entries| && IsModelDir(entries[idx[k]]) && entries[idx[k]].name == Discovered(entries)[k]
    ensures forall k, l :: 0 <= k < l < |idx| ==> idx[k] < idx[l]
    ensures forall i :: 0 <= i < |entries| && IsModelDir(entries[i]) ==> i in idx
  {
    if entries == [] {
      idx := [];
    } else {
      var n := |entries| - 1;
      var init := entries[..n];
      var prev := DiscoveredIndices(init);
      assert forall i :: 0 <= i < n ==> init[i] == entries[i];
      if IsModelDir(entries[n]) {
        idx := prev + [n];
      } else {
        idx := prev;
      }
    }
  }

  /** The default of the model parameter: MODELS[-1], an IndexError when MODELS is empty. */
  function DefaultModel(models: seq<string>): (r: Result<string, Error>)
    ensures r.Success? <==> models != []
    ensures r.Success? ==> r.value == models[|models| - 1]
    ensures r.Failure? ==> r.error == IndexError
  {
    if models == [] then Failure(IndexError) else Success(models[|models| - 1])
  }

  /**
    The default model is the name of the last model folder in scan order,
    found at position i; i is -1, and startup fails with IndexError,
    exactly when no entry is a model folder.
   */
  lemma {:induction false} DefaultModelIsLastMatch(entries: seq<Entry>) returns (i: int)
    ensures -1 <= i < |entries|
    ensures forall j :: i < j < |entries| ==> !IsModelDir(entries[j])
    ensures i == -1 ==> DefaultModel(Discovered(entries)) == Failure(IndexError)
    ensures 0 <= i ==> IsModelDir(entries[i]) && DefaultModel(Discovered(entries)) == Success(entries[i].name)
  {
    if entries == [] {
      i := -1;
    } else {
      var n := |entries| - 1;
      if IsModelDir(entries[n]) {
        i := n;
      } else {
        var init := entries[..n];
        assert Discovered(entries) == Discovered(init);
        i := DefaultModelIsLastMatch(init);
        assert forall j :: 0 <= j < n ==> init[j] == entries[j];
      }
    }
  }

  /** A scan of jina-embedding-s, jina-embedding-b and notes/ registers the first two, in order. */
  lemma ScanExample()
    ensures Discovered([Entry("jina-embedding-s", true), Entry("jina-embedding-b", true), Entry("notes", true)])
      == ["jina-embedding-s", "jina-embedding-b"]
  {
  }
}
