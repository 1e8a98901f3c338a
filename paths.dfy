/** Splitting a `/`-separated path into its directory name and its base name,
    as the archive builder does for its destination path. */
module Paths {

  /** The last `/`-separated component of `p`: the longest suffix of `p`
      that holds no `/`. */
  function Basename(p: string): (b: string)
    ensures '/' !in b
    ensures |b| <= |p| && p[|p| - |b|..] == b
    ensures |b| < |p| ==> p[|p| - |b| - 1] == '/'
  {
    if p == [] || p[|p| - 1] == '/' then []
    else
      var rest := p[..|p| - 1];
      assert p == rest + [p[|p| - 1]];
      Basename(rest) + [p[|p| - 1]]
  }

  /** The directory that holds `p`: what precedes the last `/`, "/" when
      that is the root, and "." when `p` has no `/` at all. */
  function Dirname(p: string): (d: string)
    ensures d != []
    ensures '/' !in p ==> d == "."
    ensures |p| - |Basename(p)| == 1 ==> d == "/"
    ensures '/' in p ==> p == d + "/" + Basename(p) || (d == "/" && p == "/" + Basename(p))
  {
    var k := |p| - |Basename(p)|;
    if k == 0 then "."
    else if k == 1 then "/"
    else p[..k - 1]
  }

  /** Splitting a path built by joining a directory and a slash-free name
      gives back that directory and that name. */
  lemma {:induction false} JoinSplit(dir: string, name: string)
    requires dir != [] && '/' !in name
    ensures Basename(dir + "/" + name) == name
    ensures Dirname(dir + "/" + name) == dir
  {
    BasenameAfterSlash(dir, name);
    var p := dir + "/" + name;
    assert p[..|dir|] == dir;
  }

  lemma {:induction false} BasenameAfterSlash(dir: string, name: string)
    requires '/' !in name
    ensures Basename(dir + "/" + name) == name
  {
    var p := dir + "/" + name;
    if name == [] {
      assert p[|p| - 1] == '/';
    } else {
      var init := name[..|name| - 1];
      assert name == init + [name[|name| - 1]];
      assert '/' !in init by {
        forall i | 0 <= i < |init| ensures init[i] != '/' {
          assert init[i] == name[i];
        }
      }
      assert p[..|p| - 1] == dir + "/" + init;
      assert p[|p| - 1] == name[|name| - 1];
      BasenameAfterSlash(dir, init);
    }
  }

  /** The destination used throughout the archive builder's tests. */
  lemma DestinationExample()
    ensures Basename("spec/fixtures/backups_dest/backup.tar") == "backup.tar"
    ensures Dirname("spec/fixtures/backups_dest/backup.tar") == "spec/fixtures/backups_dest"
    ensures Dirname("spec/fixtures/invalid/backup.tar") == "spec/fixtures/invalid"
  {
    assert "spec/fixtures/backups_dest/backup.tar" == "spec/fixtures/backups_dest" + "/" + "backup.tar";
    assert "spec/fixtures/invalid/backup.tar" == "spec/fixtures/invalid" + "/" + "backup.tar";
    JoinSplit("spec/fixtures/backups_dest", "backup.tar");
    JoinSplit("spec/fixtures/invalid", "backup.tar");
  }
}
