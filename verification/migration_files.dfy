/**
 * Selection of candidate migration files from a directory listing and the
 * construction of their paths. Both `IrreversibleMigrationsValidator` and
 * `FileFinder` carry identical copies of this logic; it is defined once here.
 */
module MigrationFiles {
  import opened Wrappers
  import opened PhpStrings

  /** The suffix a directory entry needs to be taken as a migration. */
  const PhpSuffix: string := ".php"

  /** An entry survives filtering: not a self/parent pseudo-entry, and ends with `.php`. */
  predicate IsMigrationFileName(name: string)
  {
    name != "." && name != ".." && IsStringEndsWith(name, PhpSuffix)
  }

  /**
   * The filtered listing: the surviving entries in listing order.
   * Defined from the back, as the PHP loop appends to its result.
   */
  function FilterPhpNames(names: seq<string>): (r: seq<string>)
    ensures |r| <= |names|
    ensures forall x :: x in r <==> x in names && IsMigrationFileName(x)
    ensures forall k :: 0 <= k < |r| ==> IsSuffix(PhpSuffix, r[k])
    decreases |names|
  {
    if |names| == 0 then []
    else
      var init := names[..|names| - 1];
      var last := names[|names| - 1];
      assert names == init + [last];
      FilterPhpNames(init) + (if IsMigrationFileName(last) then [last] else [])
  }

  /** The loop of `filterMigrationFiles` / `filterPhpFiles`, skipping `.`/`..` first, then non-`.php` names. */
  method FilterMigrationFiles(names: seq<string>) returns (result: seq<string>)
    ensures result == FilterPhpNames(names)
  {
    result := [];
    var i := 0;
    while i < |names|
      invariant 0 <= i <= |names|
      invariant result == FilterPhpNames(names[..i])
    {
      var fileName := names[i];
      assert names[..i + 1][..i] == names[..i];
      if fileName == "." || fileName == ".." {
        i := i + 1;
        continue;
      }
      if IsStringEndsWith(fileName, PhpSuffix) == false {
        i := i + 1;
        continue;
      }
      result := result + [fileName];
      i := i + 1;
    }
    assert names[..|names|] == names;
  }

  /** Positions in the listing whose entries survive filtering, in increasing order. */
  function KeptPositions(names: seq<string>): seq<int>
    decreases |names|
  {
    if |names| == 0 then []
    else
      KeptPositions(names[..|names| - 1])
      + (if IsMigrationFileName(names[|names| - 1]) then [|names| - 1] else [])
  }

  /**
   * `idx` embeds `r` into `names` in order, and hits exactly the positions
   * whose entries are migration file names.
   */
  ghost predicate SelectsExactly(names: seq<string>, r: seq<string>, idx: seq<int>)
  {
    && |idx| == |r|
    && (forall k :: 0 <= k < |idx| ==> 0 <= idx[k] < |names| && names[idx[k]] == r[k])
    && (forall k, l :: 0 <= k < l < |idx| ==> idx[k] < idx[l])
    && (forall i :: 0 <= i < |names| ==> (IsMigrationFileName(names[i]) <==> i in idx))
  }

  /**
   * The filter keeps exactly the entries that are neither `.` nor `..` and
   * end with `.php`, in their original relative order: its result is the
   * subsequence of the listing picked out by the surviving positions.
   */
  lemma {:induction false} FilterKeepsExactlyInOrder(names: seq<string>)
    ensures SelectsExactly(names, FilterPhpNames(names), KeptPositions(names))
    decreases |names|
  {
    if |names| > 0 {
      var init := names[..|names| - 1];
      var last := names[|names| - 1];
      FilterKeepsExactlyInOrder(init);
      assert names == init + [last];
      SelectsExactlyExtend(init, FilterPhpNames(init), KeptPositions(init), last);
    }
  }

  /** Appending one entry to the listing extends a selection by that entry exactly when it is kept. */
  lemma SelectsExactlyExtend(init: seq<string>, r: seq<string>, idx: seq<int>, last: string)
    requires SelectsExactly(init, r, idx)
    ensures var keep := IsMigrationFileName(last);
            SelectsExactly(init + [last],
                           r + (if keep then [last] else []),
                           idx + (if keep then [|init|] else []))
  {
    var names := init + [last];
    var keep := IsMigrationFileName(last);
    var r' := r + (if keep then [last] else []);
    var idx' := idx + (if keep then [|init|] else []);
    forall k | 0 <= k < |idx'|
      ensures 0 <= idx'[k] < |names| && names[idx'[k]] == r'[k]
    {
      if k < |idx| {
        assert idx'[k] == idx[k] && r'[k] == r[k];
        assert names[idx[k]] == init[idx[k]];
      }
    }
    forall k, l | 0 <= k < l < |idx'|
      ensures idx'[k] < idx'[l]
    {
      if l < |idx| {
        assert idx'[k] == idx[k] && idx'[l] == idx[l];
      }
    }
    forall i | 0 <= i < |names|
      ensures IsMigrationFileName(names[i]) <==> i in idx'
    {
      if i < |init| {
        assert names[i] == init[i];
        assert i in idx <==> i in idx';
      } else {
        assert i !in idx;
      }
    }
  }

  /** `prependDirectoryPathToFileNameList`: every name joined onto the directory, order kept. */
  function PrependDirectoryPath(names: seq<string>, dir: string): (paths: seq<string>)
    ensures |paths| == |names|
    ensures forall k :: 0 <= k < |names| ==> paths[k] == JoinPath(dir, names[k])
    decreases |names|
  {
    if |names| == 0 then []
    else PrependDirectoryPath(names[..|names| - 1], dir) + [JoinPath(dir, names[|names| - 1])]
  }

  /** Every built path splits back into the directory and the listed name. */
  lemma PrependedPathsSplitBack(names: seq<string>, dir: string)
    requires forall k :: 0 <= k < |names| ==> '/' !in names[k]
    ensures forall k :: 0 <= k < |names| ==>
              SplitPath(PrependDirectoryPath(names, dir)[k]) == Some((dir, names[k]))
  {
    forall k | 0 <= k < |names|
      ensures SplitPath(PrependDirectoryPath(names, dir)[k]) == Some((dir, names[k]))
    {
      SplitJoinPath(dir, names[k]);
    }
  }
}
