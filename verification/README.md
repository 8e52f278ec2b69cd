# Irreversible-migration validator, modelled in Dafny

This project models the structural validation engine of a PHP tool that checks
database migrations marked as irreversible. Every migration class must declare a
rollback method `down` whose body is exactly one top-level `throw` statement.
The tool picks the candidate `.php` files of a directory, parses each one, finds
the first `down` method in the syntax tree, classifies its body, and maps the
per-file verdicts to a process exit code.

Modules, following the program's structure:

- `Wrappers` (`wrappers.dfy`) has `Option` and `Result`. They stand in for PHP's `null`/`false` returns and thrown exceptions.
- `PhpStrings` (`php_strings.dfy`) has the `str_ends_with` polyfill. It is built on a model of PHP's `substr_compare`: a negative offset is clamped to the start of the haystack, and the compare length is `max(|needle|, |haystack| - offset)`. The polyfill is proved equal to an independent suffix predicate. This module also has `rtrim($path, '/')` and the `dir . '/' . name` join, with its inverse split.
- `MigrationFiles` (`migration_files.dfy`) has the listing filter (`filterMigrationFiles` / `filterPhpFiles`) and the path builder (`prependDirectoryPathToFileNameList`). Both PHP classes carry identical copies of this logic, and the model defines it once.
- `FileFinder` (`file_finder.dfy`) has `findInPath` / `listFilePaths`.
- `SyntaxTree` (`syntax_tree.dfy`) has the parser's output: nodes tagged with a kind (class, method, `throw`, other) plus child statements. It also has the pre-order visit behind `findClassMethods`.
- `RollbackRule` (`rollback_rule.dfy`) has `findRollbackMigrationMethod`, the ordered rule of `analyzeMigrationFileCode`, and the conversion of parse errors into per-file failures.
- `Validator` and `ValidatorExample` (`validator.dfy`) have `__invoke`, meaning the counting loop and the exit-code decision, plus one worked run.

The filesystem and the parser are inputs, not behaviour:
- A `Stat` value says what the filesystem reports for a path: missing, a regular file, or a directory with its `scandir` listing.
- A function `parse: string -> ParseResult` gives, for each file path, either the parsed statements or the parser's error message.

## Model

| member | source | states |
|---|---|---|
| PhpStrings.Memcmp | src/IrreversibleMigrationsValidator.php:230 | The runtime's `memcmp` step inside `substr_compare` returns 0 exactly when the first `n` characters of both strings agree. |
| PhpStrings.BinaryStrncmp | src/IrreversibleMigrationsValidator.php:230 | The runtime's `zend_binary_strncmp`, which `substr_compare` calls, returns 0 exactly when the first `length` characters of both strings (or all of a shorter one) coincide. |
| PhpStrings.SubstrCompare | src/IrreversibleMigrationsValidator.php:230 | `substr_compare` fails (PHP `false`) exactly when the offset lies past the end of the haystack. For a negative offset within the haystack, it returns 0 exactly when the haystack's tail from that offset equals the needle. It is built on `Memcmp` and `BinaryStrncmp`, the model of the runtime's `zend_binary_strncmp`. |
| PhpStrings.IsStringEndsWith | src/IrreversibleMigrationsValidator.php:225-231 | The polyfill is true exactly when the needle is a suffix of the haystack. That covers an empty needle (always true) and a needle longer than the haystack (always false). It is an exact, case-sensitive comparison of the last `|needle|` characters. The FileFinder copy (src/FileFinder.php:97-103) is the same function. |
| PhpStrings.RTrimSlashes | src/IrreversibleMigrationsValidator.php:27 | The result is a prefix of the input and does not end with `/`. Every character removed from the end was a `/`. |
| PhpStrings.JoinPath | src/IrreversibleMigrationsValidator.php:107-112 | A built path is the directory, then one `/`, then the name, with nothing else: `r[..|dir|] == dir`, `r[|dir|] == '/'` and `r[|dir| + 1..] == name`. The same join is `prependDirectoryPath` in src/FileFinder.php:87-92. |
| PhpStrings.SplitJoinPath | src/IrreversibleMigrationsValidator.php:107-112 | `dir + "/" + name` splits back at its last slash into exactly `dir` and `name`, for any entry name without a slash. So a built path identifies its directory and file name. |
| PhpStrings.SuffixSurvivesPrefixing | src/FileFinder.php:87-92 | Putting a directory prefix in front of a name keeps the name's `.php` suffix a suffix of the whole path. |
| MigrationFiles.FilterPhpNames | src/FileFinder.php:49-67 | The filtered list is no longer than the listing. A name is in it exactly when it is in the listing, is neither `.` nor `..`, and ends with `.php`. Every kept name ends with `.php`. |
| MigrationFiles.FilterMigrationFiles | src/IrreversibleMigrationsValidator.php:87-105 | The PHP loop, which skips `.`/`..` first and then names without the `.php` suffix, returns exactly the reference filter. |
| MigrationFiles.FilterKeepsExactlyInOrder | src/IrreversibleMigrationsValidator.php:92-104 | The filter's result is the subsequence of the listing at the surviving positions. Those positions increase, every listed name at a surviving position is kept, and no other name is kept. So the filter keeps the original relative order. |
| MigrationFiles.PrependDirectoryPath | src/FileFinder.php:74-92 | The path list has the same length and order as the name list. Entry `k` is the directory, `/`, and name `k`. |
| MigrationFiles.PrependedPathsSplitBack | src/FileFinder.php:80-84 | Every built path splits back into the directory and the name it was built from, when names carry no slash. |
| FileFinder.ListFilePaths | src/FileFinder.php:27-43 | An existing regular file gives the one-element list holding the input path unchanged. For a directory, the call fails exactly when the path is made only of slashes: trimming leaves the empty path, which `scandir` refuses. Otherwise it gives one path per filtered entry, in order: the directory with all trailing `/` removed, then `/`, then the name. Every such path ends with `.php`. |
| FileFinder.FindInPath | src/FileFinder.php:11-21 | The result is the "not a directory or file" error, naming the input path, exactly when the path does not exist. Otherwise it is what `listFilePaths` yields. Every returned path is either the input path itself or a `.php` path that starts with the trimmed directory and `/`. |
| FileFinder.RootOnlySlashesYieldsNoList | src/FileFinder.php:36-38 | For the input path `/`, trimming leaves the empty path, so the listing fails and no file list comes back, whatever the directory holds. |
| FileFinder.ExplicitFileBypassesFiltering | src/FileFinder.php:30-34 | A path naming a regular file comes back as the singleton list of itself, with no suffix filter and no trimming. |
| FileFinder.DirectoryPathsShape | src/FileFinder.php:36-42 | For a directory whose trimmed path is not empty, the call succeeds and yields as many paths as filtered names. The trimmed directory does not end with `/`. Every path is that directory, `/`, and a listed name that passes the filter. |
| SyntaxTree.PreOrder | src/IrreversibleMigrationsValidator.php:178-184 | The traversal visits every top-level statement. |
| SyntaxTree.PreOrderAppend | src/IrreversibleMigrationsValidator.php:178-184 | Traversing two statement lists in a row equals traversing their concatenation, so visiting order is source order. |
| SyntaxTree.PreOrderReachesChildren | src/IrreversibleMigrationsValidator.php:178-184 | The traversal includes nested scopes: the children of every visited node are visited too. |
| SyntaxTree.MethodsAmong | src/IrreversibleMigrationsValidator.php:183 | Selecting method declarations from visited nodes keeps exactly the method nodes, as name and body pairs. |
| SyntaxTree.FindClassMethods | src/IrreversibleMigrationsValidator.php:178-184 | A declaration is collected exactly when a method node with that name and body occurs anywhere in the tree. |
| SyntaxTree.FindClassMethodsAppend | src/IrreversibleMigrationsValidator.php:178-184 | Methods of earlier top-level statements are collected before those of later ones. |
| RollbackRule.FindRollbackMigrationMethod | src/IrreversibleMigrationsValidator.php:190-200 | The result is null exactly when no method is named exactly `down`. Otherwise it is the first method named `down` in list order. |
| RollbackRule.LaterRollbackMethodsIgnored | src/IrreversibleMigrationsValidator.php:193-197 | Once a `down` method has been found, appending further methods (another `down` included) does not change the result. |
| RollbackRule.FirstRollbackIndex | src/IrreversibleMigrationsValidator.php:193-197 | When some method is named `down`, there is a first one: a position holding `down` with no `down` before it. |
| RollbackRule.CheckRollbackMethod | src/IrreversibleMigrationsValidator.php:129-151 | Each verdict is given as an if-and-only-if. It passes exactly when the method exists and its body is one `throw`. It is "missing" exactly when there is no method, and "no statements" exactly when the body is empty. It is "nothing more" exactly when the body is non-empty but not a sole `throw`. It never reports a parse error. |
| RollbackRule.AnalyzeMigrationFileCode | src/IrreversibleMigrationsValidator.php:159-172 | A parser failure becomes a per-file failure carrying the parser's message. A parsed file never yields a parse-error verdict. |
| RollbackRule.MissingRollbackIffNoDownAnywhere | src/IrreversibleMigrationsValidator.php:124-133 | A parsed file is reported as missing `down` exactly when no node anywhere in its tree declares a method named `down`. |
| RollbackRule.PassIffFirstDownIsSoleThrow | src/IrreversibleMigrationsValidator.php:124-151 | A parsed file passes exactly when the first `down` in traversal order has a body of one `throw`. |
| RollbackRule.FirstDeclaredRollbackDecides | src/IrreversibleMigrationsValidator.php:124-127 | If the leading statements already declare `down`, statements after them (for example a second `down`) cannot change the verdict. |
| RollbackRule.SoleThrowPassesWhateverThePayload | src/IrreversibleMigrationsValidator.php:145-151 | A `down` body of one `throw` passes, whatever expression it throws. |
| RollbackRule.ThrowFollowedByAnythingFails | src/IrreversibleMigrationsValidator.php:145-151 | A body of two or more statements fails with "nothing more", even when the first statement is a `throw`. |
| RollbackRule.SuccessMigrationFixturePasses | stubs/success_migration.php:5-16 | The fixture class passes the rule: an empty `up` followed by a `down` that only throws an exception. |
| Validator.AnalyzeFiles | src/IrreversibleMigrationsValidator.php:40-45 | There is one report per filtered name, in order. Report `k` is for `dir/name_k` and carries that file's verdict. |
| Validator.CountFailures | src/IrreversibleMigrationsValidator.php:44-49 | The failure count is at most the number of reports. It is 0 exactly when every file passed, and equals the number of reports exactly when every file failed. |
| Validator.Summarize | src/IrreversibleMigrationsValidator.php:52-68 | Given the per-file reports, `filesCount` is their number and `errorsCount` the number of failures. An empty list ends as "no migration files". The exit code is 0 or 1, and it is 0 exactly when there is at least one report and every report passed. The rollback example is shown exactly when some file failed. |
| Validator.AnalyzeEach | src/IrreversibleMigrationsValidator.php:40-50 | The PHP loop yields exactly the reference reports, and its counter is incremented once per failing file. |
| Validator.Run | src/IrreversibleMigrationsValidator.php:24-69 | If the trimmed path is not a directory, the result is exit 1 and no file is processed. Otherwise `filesCount` is the number of filtered names and `errorsCount` the number of failures, so `0 <= errorsCount <= filesCount`. The exit code is 0 or 1, and it is 0 exactly when the directory holds at least one candidate and every one passed. The rollback example is shown exactly when `errorsCount > 0`. |
| Validator.SlashOnlyPathIsNotADirectory | src/IrreversibleMigrationsValidator.php:27-33 | The path `/` trims to the empty path, which `is_dir` rejects: the run ends as "not a directory" with exit code 1 and no file analyzed, whatever the filesystem reports. |
| Validator.Invoke | src/IrreversibleMigrationsValidator.php:24-69 | The method, written like the PHP (trim, directory test, filter, loop, zero-files test, error test), computes exactly the reference run. |
| Validator.ParseErrorStaysWithItsFile | src/IrreversibleMigrationsValidator.php:40-50 | A file that fails to parse gets a failure carrying the parser's message. The run still analyzes and counts every file, reaches its summary, and exits with 1. |
| ValidatorExample.ExampleFilter | src/IrreversibleMigrationsValidator.php:87-105 | For the listing `.`, `..`, `a.php`, `b.php`, `notes.txt`, the filter keeps `a.php` and `b.php`, in that order. |
| ValidatorExample.EmptyDownFails | src/IrreversibleMigrationsValidator.php:139-143 | A class whose `down` has an empty body fails with "no statements". |
| ValidatorExample.OnePassingOneFailing | src/IrreversibleMigrationsValidator.php:52-66 | A directory holding one compliant and one empty-`down` migration yields two files analyzed, one error, exit code 1, and the rollback example shown. |

## Left out

- The PHP parser (`ParserFactory`, `NodeFinder`, node classes) is not modelled. A parse result is an input, and a syntax node is reduced to a kind plus child statements. For a method, the children are its body statements only; parameters and return types carry no method declarations that matter here.
- Filesystem calls (`is_dir`, `file_exists`, `is_file`, `scandir`, `file_get_contents`) are not modelled. What they report is an input. `scandir` order is taken as given, and a path that exists but is neither a file nor a directory is not represented.
- A file-read failure is not modelled. When `file_get_contents` returns `false`, the strictly typed `getFileCode` raises a type error. `getFileCode` is called at src/IrreversibleMigrationsValidator.php:42, before the `try` block at lines 44-49, so no `catch` applies and the error ends the whole run. No per-file outcome exists for it.
- Abstract or interface `down` methods are not modelled. Such a method has no body (its statement list is `null`), but here every method has a statement list.
- Output is not modelled: message wording, separators and the example text. The model keeps only the verdict, the file path it is reported under, the two counters and whether the example is shown.
- The comparison is character-based. PHP strings are byte strings, but the suffix test is an exact, case-sensitive comparison either way. `Memcmp` reports only whether the compared prefixes are equal (zero) or not; the sign of a nonzero result is not modelled and nothing depends on it.
- Several input paths and de-duplication of the resulting file list are not modelled. Neither `__invoke` nor `FileFinder::findInPath` does either: each takes a single path. A design that concatenates and de-duplicates several paths would be a different program.
- `__invoke` does not call `FileFinder`. It requires a directory: a path naming a regular file is refused with exit code 1. `FileFinder` accepts a regular file as is. Both behaviours are modelled, each for its own entry point.
- PhpStrings.SubstrCompare: the contract pins the result down only for a negative offset that lies within the haystack, plus the out-of-range case. The polyfill only ever passes `-|needle|`, and a needle longer than the haystack is covered through `IsStringEndsWith`. The out-of-range case follows PHP 7.x from 7.2.18 / 7.3.5 on, which returns `false` only for an offset past the end. Earlier 7.x releases also return `false` when the offset equals the length, and PHP 8 throws a `ValueError` instead of returning `false`. The polyfill only reaches that boundary with an empty haystack, and every version then answers "not a suffix", so `IsStringEndsWith` is the same in every version.
- FileFinder.ListFilePaths: a directory whose listing fails (an unreadable directory, for example) is not represented. `Stat.Directory` always carries a listing. In PHP, `scandir` returns `false` there, and the array-typed `filterPhpFiles` (src/FileFinder.php:49-51) then raises a type error that leaves `findInPath` without a list. Only the failure caused by an all-slash path is modelled.
- Validator.Run: the same unreadable-directory case is not represented. In PHP, `scandir` at src/IrreversibleMigrationsValidator.php:78 returns `false`, and the array-typed `filterMigrationFiles` (lines 87-89) raises a type error that ends the run without an exit code.
