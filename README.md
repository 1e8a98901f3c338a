# backupsss core, modelled in Dafny

backupsss backs up a directory by running `tar` and then prunes old backups
from a storage location. Two classes carry its logic, and this project models
both. The behaviour modelled is the one pinned down by the repository's RSpec
files for them.

- **`Backupsss::Tar`** (the archive builder), in `archiving.dfy`. It has a
  source path, a destination path and a compression flag, which defaults to
  on.
  - `filename` is the base name of the destination.
  - `valid_src?` checks that the source exists and then that it is readable.
  - `valid_dest?` checks that the destination's directory exists and then
    that it is writable. Each failure raises `ENOENT` or `EPERM`, naming the
    path that failed.
  - `tar_command` is `tar -zcvf` or `tar -cvf`.
  - `check_tar_result` classifies a finished run. A non-zero exit status
    fails before the filesystem is consulted. Otherwise the destination file
    must exist, and only then is its size asked for; the size must not be
    zero.
  - The filesystem is a `Filesystem` object. It holds a map from path to
    `FileInfo(readable, writable, size)`; a path exists when it is a key.
    It records every question it is asked (`queries`), so the model can
    state which queries happen, how often and in what order.
- **`Backupsss::Janitor`** (the retention janitor), in `pruning.dfy`. It
  holds a storage driver and a `retentionCount`, which defaults to 0. Its
  stdout is a sequence of printed lines (`output`).
  - `sift_trash` prints the driver's listing (most recent first). The first
    `retentionCount` items are marked ` (retaining)`. It returns the rest as
    garbage, in listing order.
  - `rm_garbage` announces each item and asks the driver to remove it. A
    removal error is reported with its cause, and the next item is still
    tried. It always ends with `Finished cleaning up.`.
  - The driver is a `StorageDriver` holding a fixed listing and a map from
    name to the cause of a failed removal. It records every removal it is
    asked for (`removals`).
- `paths.dfy` splits a path into directory name and base name. `decimal.dfy`
  prints the exit status as a decimal number inside the error message.

Each class method states its result and its whole new state, in terms of
specification functions (`Garbage`, `SiftLog`, `CleanupLog`) or case by case
(the `Tar` checks). Lemmas prove what the behaviour promises about those
functions. Methods named `…Example` replay each test scenario through the
class contracts alone.

Choices about exit statuses and messages:
- Every non-zero exit status is fatal. The tests try only status 3
  (tar_spec.rb:101-111). `check_tar_result` is called with the status alone
  (tar_spec.rb:109), so no error output from `tar` reaches it that could
  tell a harmless status apart.
- The zero-size message is `ERROR: Tar destionation file is 0 bytes.`, with
  the misspelling that the test's pattern at tar_spec.rb:139 requires.
- The missing-file message is `ERROR: Tar destination file does not exist.`.
  The test's pattern at tar_spec.rb:124 fixes only the text before any
  final period, so the trailing `.` is a choice of this model.

## Model

| member | source | states |
|---|---|---|
| `Paths.Basename` | spec/backupsss/tar_spec.rb:14-21 | the result has no `/`, ends `p`, and is all of `p` or follows the last `/` in it |
| `Paths.Dirname` | spec/backupsss/tar_spec.rb:48-62 | never empty; a path without `/` lies in "."; a path whose only `/` before the base name is the leading one lies in "/"; otherwise joining the directory, `/` and the base name gives the path back |
| `Paths.JoinSplit` | spec/backupsss/tar_spec.rb:49-61 | splitting `dir + "/" + name`, for a slash-free name, gives back `dir` and `name` |
| `Paths.BasenameAfterSlash` | spec/backupsss/tar_spec.rb:14-21 | the base name of `dir + "/" + name`, for a slash-free name, is `name` |
| `Paths.DestinationExample` | spec/backupsss/tar_spec.rb:14-15 | the test destination has base name `backup.tar` and its directory (and that of the invalid destination) is the expected one |
| `Decimal.NatToString` | spec/backupsss/tar_spec.rb:110 | the printed status is non-empty, digits only, with no leading zero, and one digit exactly when below 10 |
| `Decimal.ValueOfNatToString` | spec/backupsss/tar_spec.rb:103-110 | reading the printed status back gives the status |
| `Decimal.NatToStringInjective` | spec/backupsss/tar_spec.rb:103-110 | different statuses are printed differently |
| `Archiving.Message` | spec/backupsss/tar_spec.rb:28-37 | an ENOENT or EPERM message starts with its kind's text and ends with the failing path; a runtime error's message is its own text |
| `Archiving.ExitMessage` | spec/backupsss/tar_spec.rb:109-110 | the fatal-exit message is exactly `ERROR: <command> exited ` followed by the status (prefix, suffix and length fixed), and differs from both the missing-file and the empty-file message |
| `Archiving.ExitThreeMessage` | spec/backupsss/tar_spec.rb:110 | exit status 3 of `tar -zcvf` gives `ERROR: tar -zcvf exited 3` |
| `Archiving.Filesystem.Exist` | spec/backupsss/tar_spec.rb:16 | answers whether the path exists and records one existence query for it |
| `Archiving.Filesystem.Readable` | spec/backupsss/tar_spec.rb:34 | answers whether the path exists and is readable and records one readability query |
| `Archiving.Filesystem.Writable` | spec/backupsss/tar_spec.rb:58-65 | answers whether the path exists and is writable and records one writability query |
| `Archiving.Filesystem.Size` | spec/backupsss/tar_spec.rb:107-137 | gives the size of an existing file and records one size query |
| `Archiving.Tar.constructor` | spec/backupsss/tar_spec.rb:74-80 | keeps source, destination and compression flag; compression is on unless switched off |
| `Archiving.Tar.Filename` | spec/backupsss/tar_spec.rb:18-22 | the destination's last `/`-separated component |
| `Archiving.Tar.TarCommand` | spec/backupsss/tar_spec.rb:72-84 | `tar -zcvf` when compressing and `tar -cvf` otherwise; the gzip flag appears exactly when compressing, and no path is part of the command |
| `Archiving.Tar.ValidSrc` | spec/backupsss/tar_spec.rb:24-45 | missing source: ENOENT on the source after one existence query; existing source: existence then readability queried, and EPERM on the source when unreadable, else it passes |
| `Archiving.Tar.ValidDest` | spec/backupsss/tar_spec.rb:47-70 | the same two-step check on the destination's directory `Dirname(dest)` (through `DestDir`), not on the destination itself: writability instead of readability, and the errors name the directory |
| `Archiving.Tar.CheckTarResult` | spec/backupsss/tar_spec.rb:100-143 | non-zero status: fails with the exit message and asks nothing; status 0 and no file: the missing-file error after a single existence query; otherwise existence then size, each asked once, then the empty-file error at size 0, else it passes |
| `Archiving.FilenameExample` | spec/backupsss/tar_spec.rb:18-22 | the test destination's file name is `backup.tar` |
| `Archiving.TarCommandExample` | spec/backupsss/tar_spec.rb:72-84 | the default object gives `tar -zcvf`; with compression off it gives `tar -cvf` |
| `Archiving.ValidSrcMissingExample` | spec/backupsss/tar_spec.rb:25-30 | `does_not_exist` raises ENOENT, and the message ends with that path |
| `Archiving.ValidSrcUnreadableExample` | spec/backupsss/tar_spec.rb:32-38 | an unreadable source raises EPERM, and the message ends with the source |
| `Archiving.ValidSrcReadableExample` | spec/backupsss/tar_spec.rb:40-44 | a readable source passes |
| `Archiving.ValidDestMissingDirExample` | spec/backupsss/tar_spec.rb:48-54 | a destination in a missing directory raises ENOENT naming `spec/fixtures/invalid` |
| `Archiving.ValidDestUnwritableExample` | spec/backupsss/tar_spec.rb:56-62 | an unwritable destination directory raises EPERM naming that directory |
| `Archiving.ValidDestWritableExample` | spec/backupsss/tar_spec.rb:64-69 | a writable destination directory passes |
| `Archiving.CheckTarResultNonZeroExample` | spec/backupsss/tar_spec.rb:101-112 | exit 3 fails with `ERROR: tar -zcvf exited 3` even though a non-empty file exists, and no query is made |
| `Archiving.CheckTarResultMissingExample` | spec/backupsss/tar_spec.rb:113-127 | exit 0 without a file: missing-file error; the queries are exactly one existence query on the destination |
| `Archiving.CheckTarResultEmptyExample` | spec/backupsss/tar_spec.rb:128-142 | exit 0 with an empty file: the zero-size error; the queries are existence, then size, of the destination |
| `Archiving.CheckTarResultSuccessExample` | spec/backupsss/tar_spec.rb:86-97 | exit 0 with a non-empty file passes, as a clean `make` requires |
| `Pruning.PartitionListing` | spec/backupsss/janitor_spec.rb:29-51 | retained items followed by garbage are the listing; exactly min(n, length) items are retained; with n = 0 everything is garbage |
| `Pruning.ReportLines` | spec/backupsss/janitor_spec.rb:40-57 | one report line per item, in listing order; line i is item i, suffixed exactly when i < n |
| `Pruning.SiftLogFormat` | spec/backupsss/janitor_spec.rb:27-59 | for a non-empty listing: the header, then one line per item; a line carries ` (retaining)` if and only if its index is below n; other lines are the item as it is |
| `Pruning.DefaultCountRetainsNothing` | spec/backupsss/janitor_spec.rb:48-58 | with count 0 the report is the listing unchanged and all of it is garbage |
| `Pruning.PlainLinesAreGarbage` | spec/backupsss/janitor_spec.rb:32-58 | the report lines after the retained ones are exactly the garbage returned |
| `Pruning.ProgressAppend` | spec/backupsss/janitor_spec.rb:86-113 | removing two batches in turn prints what removing each prints, so each item's lines depend on that item alone |
| `Pruning.ItemInPlace` | spec/backupsss/janitor_spec.rb:86-113 | item k's lines (announcement, then failure report if its removal fails) sit between the lines of the items before and after it, ahead of the final line |
| `Pruning.FailureReported` | spec/backupsss/janitor_spec.rb:88-112 | a failing item's announcement is followed directly by `Could not clean up <name>: <cause>` |
| `Pruning.CleanupLogWhenAllRemoved` | spec/backupsss/janitor_spec.rb:66-83 | when no removal fails, the output is `Cleaning up <x>` for each item in order, then `Finished cleaning up.` |
| `Pruning.ProgressNeverFinishes` | spec/backupsss/janitor_spec.rb:71 | no per-item line is the final line |
| `Pruning.FinishedExactlyOnce` | spec/backupsss/janitor_spec.rb:71-82 | whatever fails, `Finished cleaning up.` is the last line and occurs exactly once |
| `Pruning.StorageDriver.Rm` | spec/backupsss/janitor_spec.rb:88-108 | records the removal and fails with the stored cause exactly for names that have one |
| `Pruning.Janitor.constructor` | spec/backupsss/janitor_spec.rb:11-14 | keeps the driver; the retention count is the given one, 0 by default; nothing is printed yet |
| `Pruning.Janitor.SiftTrash` | spec/backupsss/janitor_spec.rb:17-61 | returns the items from index `retentionCount` on, in order, and appends the sift log to the output (`No garbage found` for an empty listing) |
| `Pruning.Janitor.RmGarbage` | spec/backupsss/janitor_spec.rb:63-115 | asks the driver to remove every item, in order, whatever fails, and appends the cleanup log to the output |
| `Pruning.DefaultRetentionCount` | spec/backupsss/janitor_spec.rb:11-14 | a janitor made without a count has count 0 |
| `Pruning.SiftTrashEmptyExample` | spec/backupsss/janitor_spec.rb:18-25 | an empty listing gives no garbage and prints only `No garbage found` |
| `Pruning.SiftTrashRetainOneExample` | spec/backupsss/janitor_spec.rb:32-46 | count 1 on `1.tar, 0.tar, a.tar` returns `0.tar, a.tar` and prints the header, `1.tar (retaining)`, `0.tar`, `a.tar` |
| `Pruning.SiftTrashDefaultExample` | spec/backupsss/janitor_spec.rb:48-59 | the default count returns every item and prints every item unmarked |
| `Pruning.RmGarbageAllRemovedExample` | spec/backupsss/janitor_spec.rb:66-84 | removes `0.tar, 1.tar, 2.tar` in order and prints three announcements and the final line |
| `Pruning.RmGarbageMissingExample` | spec/backupsss/janitor_spec.rb:87-100 | a failure on the last item is reported after its announcement; all three removals are still asked |
| `Pruning.RmGarbageNotPermittedExample` | spec/backupsss/janitor_spec.rb:102-113 | a failure on the middle item is reported and the last item is still announced and removed |

## Left out

- `Tar#make` is left out: it runs `tar` as a subprocess and returns a `File`
  object. Only the checks it relies on are modelled, and the exit status is
  an input to `CheckTarResult`. The order in which `make` chains the checks
  is therefore not modelled either.
- `Archiving.Tar.CheckTarResult`: treats every non-zero exit status as
  fatal. The tests cover status 3 only, so a status that the code might
  accept as a harmless warning (such as 1) is not modelled.
- A `nil` exit status (a process killed by a signal) is not modelled. The
  status is a natural number.
- `Paths.Basename` and `Paths.Dirname` split on the last `/` literally. They
  do not copy Ruby's handling of trailing and repeated slashes (`a/b/`,
  `a//b`).
- Existence is one abstract query. The tests stub `File.exist?` to true for
  the whole file (tar_spec.rb:16), yet a missing source or destination
  directory still raises ENOENT. So the code uses another existence check
  for those two, which the model does not tell apart from `File.exist?`.
- Stubbing `tar_command` to return `tarcmd` is not modelled. The exit
  message quotes the real command.
- Output is a sequence of printed lines. Real stdout and its newlines are
  not modelled.
- The storage driver's own behaviour (`ls_rt`, `rm`) is not modelled: its
  listing and its failing names are fixed data. A removal does not take the
  item out of the listing.
- Only `RemovalError` is modelled among driver errors, because it is the one
  the janitor catches. Other errors would escape `rm_garbage`.
- The Errno class hierarchy becomes the `SysError` kinds, with Ruby's
  `<description> - <path>` message form.
- The options hash passed to `Janitor.new` becomes constructor parameters.
  The retention count is a natural number.
