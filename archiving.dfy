/** The archive builder: checks its source and destination against the
    filesystem, chooses the archiving command, and classifies the outcome of
    an archiving run from its exit status and the file it left behind. */
module Archiving {
  import Decimal
  import Paths

  /** What the filesystem knows about one existing path. */
  datatype FileInfo = FileInfo(readable: bool, writable: bool, size: nat)

  /** One question put to the filesystem, in the order it was asked. */
  datatype Query =
    | ExistQuery(path: string)
    | ReadableQuery(path: string)
    | WritableQuery(path: string)
    | SizeQuery(path: string)

  /** The errors the archive builder raises. */
  datatype SysError =
    | Enoent(path: string)         // no such file or directory
    | Eperm(path: string)          // operation not permitted
    | RuntimeError(message: string)

  /** A check either passes or raises an error. */
  datatype Outcome = Pass | Fail(error: SysError)

  predicate EndsWith(s: string, suffix: string) {
    |suffix| <= |s| && s[|s| - |suffix|..] == suffix
  }

  predicate StartsWith(s: string, prefix: string) {
    |prefix| <= |s| && s[..|prefix|] == prefix
  }

  /** The message an error carries: a system error names its path at the
      end, after the text of its kind; a runtime error is its own message. */
  function Message(e: SysError): (m: string)
    ensures e.Enoent? ==> StartsWith(m, "No such file or directory") && EndsWith(m, e.path)
    ensures e.Eperm? ==> StartsWith(m, "Operation not permitted") && EndsWith(m, e.path)
    ensures e.RuntimeError? ==> m == e.message
  {
    match e
    case Enoent(p) => "No such file or directory - " + p
    case Eperm(p) => "Operation not permitted - " + p
    case RuntimeError(msg) => msg
  }

  const MissingDestinationMessage := "ERROR: Tar destination file does not exist."
  /** Spelled as the archive builder spells it. */
  const EmptyDestinationMessage := "ERROR: Tar destionation file is 0 bytes."

  /** The message for an archiving run that exited with a non-zero status:
      it quotes the command and is followed directly by the status as a
      decimal numeral, with nothing in between or after. */
  function ExitMessage(command: string, status: nat): (m: string)
    ensures StartsWith(m, "ERROR: " + command + " exited ")
    ensures EndsWith(m, Decimal.NatToString(status))
    ensures |m| == |"ERROR: " + command + " exited "| + |Decimal.NatToString(status)|
    ensures m != MissingDestinationMessage && m != EmptyDestinationMessage
  {
    var m := "ERROR: " + command + " exited " + Decimal.NatToString(status);
    assert m[|m| - 1] == Decimal.NatToString(status)[|Decimal.NatToString(status)| - 1];
    m
  }

  /** The filesystem the archive builder inspects. Its contents do not change;
      every question put to it is recorded in `queries`. */
  class Filesystem {
    const files: map<string, FileInfo>
    var queries: seq<Query>

    constructor (files: map<string, FileInfo>)
      ensures this.files == files && queries == []
    {
      this.files := files;
      queries := [];
    }

    method Exist(path: string) returns (b: bool)
      modifies this
      ensures b <==> path in files
      ensures queries == old(queries) + [ExistQuery(path)]
    {
      b := path in files;
      queries := queries + [ExistQuery(path)];
    }

    method Readable(path: string) returns (b: bool)
      modifies this
      ensures b <==> path in files && files[path].readable
      ensures queries == old(queries) + [ReadableQuery(path)]
    {
      b := path in files && files[path].readable;
      queries := queries + [ReadableQuery(path)];
    }

    method Writable(path: string) returns (b: bool)
      modifies this
      ensures b <==> path in files && files[path].writable
      ensures queries == old(queries) + [WritableQuery(path)]
    {
      b := path in files && files[path].writable;
      queries := queries + [WritableQuery(path)];
    }

    /** The size of an existing file (asking for a missing one is an error). */
    method Size(path: string) returns (n: nat)
      requires path in files
      modifies this
      ensures n == files[path].size
      ensures queries == old(queries) + [SizeQuery(path)]
    {
      n := files[path].size;
      queries := queries + [SizeQuery(path)];
    }
  }

  /** An archive to build from `src` into `dest`, compressed unless told not to. */
  class Tar {
    const src: string
    const dest: string
    const compressArchive: bool

    constructor (src: string, dest: string, compressArchive: bool := true)
      ensures this.src == src && this.dest == dest && this.compressArchive == compressArchive
    {
      this.src := src;
      this.dest := dest;
      this.compressArchive := compressArchive;
    }

    /** The base name of the destination: its last `/`-separated component. */
    function Filename(): (r: string)
      ensures '/' !in r
      ensures EndsWith(dest, r)
      ensures |r| < |dest| ==> dest[|dest| - |r| - 1] == '/'
    {
      Paths.Basename(dest)
    }

    /** The archiving command: create, verbose, to a file, with gzip exactly
        when the archive is compressed; the paths are not part of it. */
    function TarCommand(): (r: string)
      ensures StartsWith(r, "tar -") && EndsWith(r, "cvf")
      ensures 'z' in r <==> compressArchive
      ensures '/' !in r
      ensures compressArchive ==> r == "tar -zcvf"
      ensures !compressArchive ==> r == "tar -cvf"
    {
      if compressArchive then "tar -zcvf" else "tar -cvf"
    }

    /** The source must exist and then be readable; each failure names the
        source. Readability is asked only of a source that exists. */
    method ValidSrc(fs: Filesystem) returns (r: Outcome)
      modifies fs
      ensures src !in fs.files ==>
        r == Fail(Enoent(src)) && fs.queries == old(fs.queries) + [ExistQuery(src)]
      ensures src in fs.files ==>
        fs.queries == old(fs.queries) + [ExistQuery(src), ReadableQuery(src)] &&
        r == (if fs.files[src].readable then Pass else Fail(Eperm(src)))
    {
      var present := fs.Exist(src);
      if !present {
        return Fail(Enoent(src));
      }
      var readable := fs.Readable(src);
      if !readable {
        return Fail(Eperm(src));
      }
      return Pass;
    }

    /** The directory the destination is to be written into. */
    function DestDir(): string {
      Paths.Dirname(dest)
    }

    /** The directory that will hold the destination (not the destination
        itself) must exist and then be writable; each failure names that
        directory. */
    method ValidDest(fs: Filesystem) returns (r: Outcome)
      modifies fs
      ensures DestDir() !in fs.files ==>
        r == Fail(Enoent(DestDir())) && fs.queries == old(fs.queries) + [ExistQuery(DestDir())]
      ensures DestDir() in fs.files ==>
        fs.queries == old(fs.queries) + [ExistQuery(DestDir()), WritableQuery(DestDir())] &&
        r == (if fs.files[DestDir()].writable then Pass else Fail(Eperm(DestDir())))
    {
      var dir := DestDir();
      var present := fs.Exist(dir);
      if !present {
        return Fail(Enoent(dir));
      }
      var writable := fs.Writable(dir);
      if !writable {
        return Fail(Eperm(dir));
      }
      return Pass;
    }

    /** Classifies a finished archiving run. A non-zero exit status fails
        before the filesystem is consulted at all; then the destination must
        exist, and only then is its size asked, which must not be zero. */
    method CheckTarResult(exitStatus: nat, fs: Filesystem) returns (r: Outcome)
      modifies fs
      ensures exitStatus != 0 ==>
        r == Fail(RuntimeError(ExitMessage(TarCommand(), exitStatus))) &&
        fs.queries == old(fs.queries)
      ensures exitStatus == 0 && dest !in fs.files ==>
        r == Fail(RuntimeError(MissingDestinationMessage)) &&
        fs.queries == old(fs.queries) + [ExistQuery(dest)]
      ensures exitStatus == 0 && dest in fs.files ==>
        fs.queries == old(fs.queries) + [ExistQuery(dest), SizeQuery(dest)] &&
        r == (if fs.files[dest].size == 0 then Fail(RuntimeError(EmptyDestinationMessage)) else Pass)
    {
      if exitStatus != 0 {
        return Fail(RuntimeError(ExitMessage(TarCommand(), exitStatus)));
      }
      var present := fs.Exist(dest);
      if !present {
        return Fail(RuntimeError(MissingDestinationMessage));
      }
      var size := fs.Size(dest);
      if size == 0 {
        return Fail(RuntimeError(EmptyDestinationMessage));
      }
      return Pass;
    }
  }

  // The scenarios the archive builder is specified by, run against the
  // contracts above.

  const ValidSrcPath := "spec/fixtures/backup_src/with_data"
  const EmptySrcPath := "spec/fixtures/backup_src/empty"
  const SrcPath := "spec/fixtures/backup_src"
  const DestDir := "spec/fixtures/backups_dest"
  const DestPath := "spec/fixtures/backups_dest/backup.tar"

  method FilenameExample() returns (name: string)
    ensures name == "backup.tar"
  {
    var tar := new Tar(ValidSrcPath, DestPath);
    Paths.DestinationExample();
    name := tar.Filename();
  }

  method TarCommandExample() returns (compressed: string, plain: string)
    ensures compressed == "tar -zcvf" && plain == "tar -cvf"
  {
    var byDefault := new Tar("src/", "dest.tar");
    var uncompressed := new Tar("src/", "dest.tar", false);
    compressed := byDefault.TarCommand();
    plain := uncompressed.TarCommand();
  }

  /** A missing source raises ENOENT whose message ends with the source. */
  method ValidSrcMissingExample() returns (r: Outcome, message: string)
    ensures r == Fail(Enoent("does_not_exist"))
    ensures EndsWith(message, "does_not_exist")
  {
    var fs := new Filesystem(map[]);
    var tar := new Tar("does_not_exist", "");
    r := tar.ValidSrc(fs);
    message := Message(r.error);
  }

  /** An unreadable source raises EPERM whose message ends with the source. */
  method ValidSrcUnreadableExample() returns (r: Outcome, message: string)
    ensures r == Fail(Eperm(EmptySrcPath))
    ensures EndsWith(message, EmptySrcPath)
  {
    var fs := new Filesystem(map[EmptySrcPath := FileInfo(false, true, 0)]);
    var tar := new Tar(EmptySrcPath, "");
    r := tar.ValidSrc(fs);
    message := Message(r.error);
  }

  method ValidSrcReadableExample() returns (r: Outcome)
    ensures r == Pass
  {
    var fs := new Filesystem(map[ValidSrcPath := FileInfo(true, true, 4096)]);
    var tar := new Tar(ValidSrcPath, "");
    r := tar.ValidSrc(fs);
  }

  /** A missing destination directory raises ENOENT naming the directory. */
  method ValidDestMissingDirExample() returns (r: Outcome, message: string)
    ensures r == Fail(Enoent("spec/fixtures/invalid"))
    ensures EndsWith(message, "spec/fixtures/invalid")
  {
    var fs := new Filesystem(map[DestDir := FileInfo(true, true, 4096)]);
    var tar := new Tar(ValidSrcPath, "spec/fixtures/invalid/backup.tar");
    Paths.DestinationExample();
    r := tar.ValidDest(fs);
    message := Message(r.error);
  }

  /** An unwritable destination directory raises EPERM naming the directory. */
  method ValidDestUnwritableExample() returns (r: Outcome, message: string)
    ensures r == Fail(Eperm(DestDir))
    ensures EndsWith(message, DestDir)
  {
    var fs := new Filesystem(map[DestDir := FileInfo(true, false, 4096)]);
    var tar := new Tar(ValidSrcPath, DestPath);
    Paths.DestinationExample();
    r := tar.ValidDest(fs);
    message := Message(r.error);
  }

  method ValidDestWritableExample() returns (r: Outcome)
    ensures r == Pass
  {
    var fs := new Filesystem(map[DestDir := FileInfo(true, true, 4096)]);
    var tar := new Tar("", DestPath);
    Paths.DestinationExample();
    r := tar.ValidDest(fs);
  }

  lemma ExitThreeMessage()
    ensures ExitMessage("tar -zcvf", 3) == "ERROR: tar -zcvf exited 3"
  {
    assert Decimal.NatToString(3) == [Decimal.DigitChar(3)];
  }

  /** Exit status 3 fails even though a non-empty destination exists, and
      the filesystem is not asked anything. */
  method CheckTarResultNonZeroExample() returns (r: Outcome, queries: seq<Query>)
    ensures r == Fail(RuntimeError("ERROR: tar -zcvf exited 3"))
    ensures queries == []
  {
    var fs := new Filesystem(map[DestPath := FileInfo(true, true, 999)]);
    var tar := new Tar(SrcPath, DestPath);
    r := tar.CheckTarResult(3, fs);
    queries := fs.queries;
    ExitThreeMessage();
  }

  /** Exit status 0 and no destination: existence is asked once, of the
      destination, and its size is never asked. */
  method CheckTarResultMissingExample() returns (r: Outcome, queries: seq<Query>)
    ensures r == Fail(RuntimeError(MissingDestinationMessage))
    ensures queries == [ExistQuery(DestPath)]
  {
    var fs := new Filesystem(map[]);
    var tar := new Tar(SrcPath, DestPath);
    r := tar.CheckTarResult(0, fs);
    queries := fs.queries;
  }

  /** Exit status 0 and an empty destination: existence, then size, each
      asked once, of the destination. */
  method CheckTarResultEmptyExample() returns (r: Outcome, queries: seq<Query>)
    ensures r == Fail(RuntimeError(EmptyDestinationMessage))
    ensures queries == [ExistQuery(DestPath), SizeQuery(DestPath)]
  {
    var fs := new Filesystem(map[DestPath := FileInfo(true, true, 0)]);
    var tar := new Tar(SrcPath, DestPath);
    r := tar.CheckTarResult(0, fs);
    queries := fs.queries;
  }

  method CheckTarResultSuccessExample() returns (r: Outcome)
    ensures r == Pass
  {
    var fs := new Filesystem(map[DestPath := FileInfo(true, true, 10240)]);
    var tar := new Tar(SrcPath, DestPath);
    r := tar.CheckTarResult(0, fs);
  }
}
