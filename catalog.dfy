/**
 * `get_directory_success_files`: the file names listed in a DIRAC file
 * catalog reply, read at `Value -> Successful -> <directory> -> Files`.
 *
 * A reply is a decoded JSON object; only the path the function walks is
 * modelled. Dictionaries keep insertion order, so the directories of
 * `Successful` and the names in each `Files` map are sequences. A key that
 * is missing makes the Python code raise `KeyError`, modelled as a result.
 */
module Catalog {
  import opened Wrappers

  /** Success, or the `KeyError` the lookup of `key` raises. */
  datatype Result<T> = Ok(value: T) | KeyError(key: string)

  /** One entry of `Successful`: the directory and the keys of its `Files` map, if it has one. */
  datatype Directory = Directory(path: string, files: Option<seq<string>>)

  /** The reply's `Value` object: its `Successful` map, if present. */
  datatype Value = Value(successful: Option<seq<Directory>>)

  /** A catalog reply: its `Value` object, if present. */
  datatype Reply = Reply(value: Option<Value>)

  /** Every directory entry has a `Files` map. */
  predicate HasFiles(dirs: seq<Directory>)
  {
    forall i :: 0 <= i < |dirs| ==> dirs[i].files.Some?
  }

  /** The file names of every directory, directory after directory, each in its own key order. */
  function AllFiles(dirs: seq<Directory>): (r: seq<string>)
    requires HasFiles(dirs)
    ensures |r| == FileCount(dirs)
  {
    if dirs == [] then [] else AllFiles(dirs[..|dirs| - 1]) + dirs[|dirs| - 1].files.value
  }

  /** The sum of the sizes of the directories' `Files` maps. */
  function FileCount(dirs: seq<Directory>): nat
    requires HasFiles(dirs)
  {
    if dirs == [] then 0 else FileCount(dirs[..|dirs| - 1]) + |dirs[|dirs| - 1].files.value|
  }

  /**
   * `get_directory_success_files(result)`: a reply without `Value` or
   * without `Successful` raises; an empty `Successful` gives no names;
   * otherwise every directory's `Files` keys are gathered in order, and the
   * first directory without `Files` raises.
   */
  method SuccessFiles(reply: Reply) returns (r: Result<seq<string>>)
    ensures reply.value.None? ==> r == KeyError("Value")
    ensures reply.value.Some? && reply.value.value.successful.None? ==> r == KeyError("Successful")
    ensures reply.value.Some? && reply.value.value.successful.Some? ==>
              var dirs := reply.value.value.successful.value;
              && (dirs == [] ==> r == Ok([]))
              && (HasFiles(dirs) ==> r == Ok(AllFiles(dirs)))
              && (!HasFiles(dirs) ==> r == KeyError("Files"))
  {
    if reply.value.None? {
      return KeyError("Value");
    }
    if reply.value.value.successful.None? {
      return KeyError("Successful");
    }
    var dirs := reply.value.value.successful.value;
    if |dirs| == 0 {
      return Ok([]);
    }
    var all: seq<string> := [];
    var i := 0;
    while i < |dirs|
      invariant 0 <= i <= |dirs|
      invariant HasFiles(dirs[..i])
      invariant all == AllFiles(dirs[..i])
    {
      match dirs[i].files {
        case None =>
          return KeyError("Files");
        case Some(names) =>
          assert dirs[..i + 1][..i] == dirs[..i];
          all := all + names;
      }
      i := i + 1;
    }
    assert dirs[..i] == dirs;
    return Ok(all);
  }

  /** A name is returned exactly when it is a `Files` key of some successful directory. */
  lemma {:induction false} AllFilesMembers(dirs: seq<Directory>, name: string)
    requires HasFiles(dirs)
    ensures name in AllFiles(dirs) <==> exists i :: 0 <= i < |dirs| && name in dirs[i].files.value
  {
    if dirs != [] {
      var init := dirs[..|dirs| - 1];
      AllFilesMembers(init, name);
      if name in AllFiles(dirs) && name !in dirs[|dirs| - 1].files.value {
        var i :| 0 <= i < |init| && name in init[i].files.value;
        assert dirs[i] == init[i];
      }
      if exists i :: 0 <= i < |dirs| && name in dirs[i].files.value {
        var i :| 0 <= i < |dirs| && name in dirs[i].files.value;
        if i < |init| {
          assert init[i] == dirs[i];
        }
      }
    }
  }

  /**
   * The order: the names of directory `k` sit together, right after those of
   * the directories before it.
   */
  lemma {:induction false} AllFilesBlock(dirs: seq<Directory>, k: nat)
    requires HasFiles(dirs) && k < |dirs|
    ensures FileCount(dirs[..k]) + |dirs[k].files.value| <= |AllFiles(dirs)|
    ensures AllFiles(dirs)[FileCount(dirs[..k])..FileCount(dirs[..k]) + |dirs[k].files.value|]
            == dirs[k].files.value
  {
    var init := dirs[..|dirs| - 1];
    if k == |dirs| - 1 {
      assert dirs[..k] == init;
    } else {
      AllFilesBlock(init, k);
      assert init[..k] == dirs[..k];
      assert init[k] == dirs[k];
    }
  }
}
