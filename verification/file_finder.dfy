/**
 * `FileFinder`: resolve one input path into the list of file paths to check.
 * The filesystem is not consulted; what it reports for the input path is
 * passed in as a `Stat`.
 */
module FileFinder {
  import opened Wrappers
  import opened PhpStrings
  import opened MigrationFiles

  /**
   * What the filesystem reports for a path: absent, a regular file, or a
   * directory with the entries `scandir` lists for it (in `scandir` order).
   * For a directory, the listing is the one of the path with its trailing
   * slashes trimmed, which names the same directory unless trimming leaves
   * nothing at all (a path made only of slashes).
   */
  datatype Stat = Missing | RegularFile | Directory(listing: seq<string>)

  /** Why no file list is produced. */
  datatype FinderError =
    | NotADirectoryOrFile(path: string)  // the `RuntimeException` for a path that does not exist
    | ListingFailed(path: string)        // `scandir` of the trimmed path fails: it is the empty string

  /**
   * `listFilePaths`: a file is taken as-is; a directory is trimmed, listed,
   * filtered and joined. Trimming a path made only of slashes leaves the
   * empty string, which `scandir` refuses, so no list comes back.
   */
  function ListFilePaths(inputPath: string, stat: Stat): (r: Result<seq<string>, FinderError>)
    requires !stat.Missing?
    ensures stat.RegularFile? ==> r == Success([inputPath])
    ensures stat.Directory? ==> (r.Failure? <==> forall i :: 0 <= i < |inputPath| ==> inputPath[i] == '/')
    ensures r.Failure? ==> r.error == ListingFailed("")
    ensures stat.Directory? && r.Success? ==>
              |r.value| == |FilterPhpNames(stat.listing)|
              && forall k :: 0 <= k < |r.value| ==>
                   r.value[k] == JoinPath(RTrimSlashes(inputPath), FilterPhpNames(stat.listing)[k])
    ensures stat.Directory? && r.Success? ==>
              forall k :: 0 <= k < |r.value| ==> IsSuffix(PhpSuffix, r.value[k])
  {
    match stat
    case RegularFile => Success([inputPath])
    case Directory(listing) =>
      var dir := RTrimSlashes(inputPath);
      if dir == "" then Failure(ListingFailed(dir))
      else
        var names := FilterPhpNames(listing);
        var paths := PrependDirectoryPath(names, dir);
        assert forall k :: 0 <= k < |paths| ==> IsSuffix(PhpSuffix, paths[k]) by {
          forall k | 0 <= k < |paths|
            ensures IsSuffix(PhpSuffix, paths[k])
          {
            SuffixSurvivesPrefixing(PhpSuffix, dir + "/", names[k]);
            assert paths[k] == (dir + "/") + names[k];
          }
        }
        assert dir[|dir| - 1] != '/';
        Success(paths)
  }

  /**
   * `findInPath`: a path that does not exist is an error naming it; an
   * existing path yields whatever `listFilePaths` yields, so every returned
   * path is either the input itself (a file) or a `.php` path under the
   * trimmed directory.
   */
  function FindInPath(inputPath: string, stat: Stat): (r: Result<seq<string>, FinderError>)
    ensures r == Failure(NotADirectoryOrFile(inputPath)) <==> stat.Missing?
    ensures !stat.Missing? ==> r == ListFilePaths(inputPath, stat)
    ensures r.Success? ==>
              forall k :: 0 <= k < |r.value| ==>
                r.value[k] == inputPath
                || (IsSuffix(PhpSuffix, r.value[k])
                    && r.value[k][..|RTrimSlashes(inputPath)| + 1] == RTrimSlashes(inputPath) + "/")
  {
    if stat.Missing? then Failure(NotADirectoryOrFile(inputPath))
    else
      var r := ListFilePaths(inputPath, stat);
      assert r.Success? && stat.Directory? ==> forall k :: 0 <= k < |r.value| ==>
        r.value[k][..|RTrimSlashes(inputPath)| + 1] == RTrimSlashes(inputPath) + "/";
      r
  }

  /** An existing regular file is returned unchanged: no suffix filter, no slash trimming. */
  lemma ExplicitFileBypassesFiltering(inputPath: string)
    ensures FindInPath(inputPath, RegularFile) == Success([inputPath])
  {
  }

  /** A directory path made only of slashes trims to nothing and yields no list. */
  lemma RootOnlySlashesYieldsNoList(listing: seq<string>)
    ensures FindInPath("/", Directory(listing)) == Failure(ListingFailed(""))
  {
    assert RTrimSlashes("/") == RTrimSlashes("");
  }

  /**
   * For a directory whose trimmed path is not empty, the call succeeds and
   * every returned path is the trimmed directory, a slash, and an entry the
   * filter kept, so the directory part carries no trailing slash and the
   * entry part is a listed `.php` name.
   */
  lemma DirectoryPathsShape(inputPath: string, listing: seq<string>)
    requires RTrimSlashes(inputPath) != ""
    ensures var r := FindInPath(inputPath, Directory(listing));
            var dir := RTrimSlashes(inputPath);
            && r.Success?
            && |r.value| == |FilterPhpNames(listing)|
            && dir[|dir| - 1] != '/'
            && forall k :: 0 <= k < |r.value| ==>
                 exists name :: name in listing && IsMigrationFileName(name)
                                && r.value[k] == dir + "/" + name
  {
    var r := FindInPath(inputPath, Directory(listing));
    var names := FilterPhpNames(listing);
    forall k | 0 <= k < |r.value|
      ensures exists name :: name in listing && IsMigrationFileName(name)
                             && r.value[k] == RTrimSlashes(inputPath) + "/" + name
    {
      assert names[k] in names;
    }
  }
}
