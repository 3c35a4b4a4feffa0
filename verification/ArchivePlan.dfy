/** Which names of an archive are safe, and which manifests are let through. */
module ArchivePlan {
  import opened Options
  import opened Characters
  import Splitting
  import opened ReleaseArchive

  // ------------------------------------------------------------- safe names

  /** A component that stays where it is put, on any system. */
  predicate Plain(part: string) {
    part !in {"", ".", ".."} && forall c <- part :: c !in "/\\:\0"
  }

  ghost predicate Inside(p: Path) {
    p != [] && forall part <- p :: Plain(part)
  }

  function Slashes(k: nat): string {
    if k == 0 then "" else Slashes(k - 1) + "/"
  }

  lemma {:induction false} SplitParts(s: string, c: char)
    ensures forall x <- Splitting.Split(s, c) :: c !in x && forall d <- x :: d in s
    decreases |s|
  {
    var i := FindChar(s, c, 0);
    if i < |s| {
      SplitParts(s[i+1..], c);
      assert forall d <- s[i+1..] :: d in s;
    }
    assert forall d <- s[..i] :: d in s;
  }

  lemma {:induction false} JoinChars(p: Path)
    requires p != []
    ensures forall d <- Join(p) :: d == '/' || exists part <- p :: d in part
  {
    if |p| == 1 {
      assert p[0] in p;
    } else {
      JoinChars(p[1..]);
      var rest := Join(p[1..]);
      assert Join(p) == p[0] + "/" + rest;
      forall d | d in Join(p) && d != '/' ensures exists part <- p :: d in part {
        if d in p[0] {
          assert p[0] in p;
        } else {
          assert d in rest;
          var part :| part in p[1..] && d in part;
          assert part in p;
        }
      }
    }
  }

  lemma {:induction false} JoinEnds(p: Path)
    requires p != [] && forall part <- p :: part != "" && '/' !in part
    ensures var n := Join(p); n != "" && n[0] != '/' && n[|n|-1] != '/'
  {
    assert p[0] in p;
    if |p| > 1 {
      assert forall part <- p[1..] :: part in p;
      JoinEnds(p[1..]);
    }
  }

  lemma {:induction false} TrimSlashes(n: string, k: nat)
    requires n != "" && n[|n|-1] != '/'
    ensures Trim(n + Slashes(k)) == n
  {
    var s := n + Slashes(k);
    if k == 0 {
      assert s == n;
    } else {
      assert s[|s|-1] == '/' && s[..|s|-1] == n + Slashes(k - 1);
      TrimSlashes(n, k - 1);
    }
  }

  lemma {:induction false} TrimLeaves(s: string) returns (k: nat)
    ensures s == Trim(s) + Slashes(k)
  {
    if s != "" && s[|s|-1] == '/' {
      var j := TrimLeaves(s[..|s|-1]);
      k := j + 1;
      assert s == s[..|s|-1] + "/";
    } else {
      k := 0;
    }
  }

  lemma SafeIsShaped(name: string) returns (p: Path, k: nat)
    requires MemberPath(name).Some?
    ensures Inside(p) && MemberPath(name).value == Join(p) && name == Join(p) + Slashes(k)
  {
    hide Trim;
    var n := Trim(name);
    p := Split(n);
    k := TrimLeaves(name);
    JoinSplits(n);
    SplitParts(n, '/');
    forall part | part in p ensures Plain(part) {
      var i :| 0 <= i < |p| && p[i] == part;
      forall c | c in part ensures c !in "/\\:\0" {
        assert c in n && c in name;
      }
    }
  }

  lemma ShapedIsSafe(p: Path, k: nat)
    requires Inside(p)
    ensures MemberPath(Join(p) + Slashes(k)) == Some(Join(p))
  {
    hide Trim, Join, Split, Slashes;
    var n := Join(p);
    var name := n + Slashes(k);
    assert forall part <- p :: Plain(part) && '/' !in part;
    JoinEnds(p);
    TrimSlashes(n, k);
    PartsAgain(p);
    NothingForbidden(p, k);
    assert name[0] == n[0];
    assert forall i | 0 <= i < |p| :: p[i] in p;
  }

  lemma PartsAgain(p: Path)
    requires Inside(p)
    ensures Split(Join(p)) == p
  {
    Splitting.SplitJoins(p, '/');
  }

  lemma NothingForbidden(p: Path, k: nat)
    requires Inside(p)
    ensures forall i | 0 <= i < |Join(p) + Slashes(k)| :: (Join(p) + Slashes(k))[i] !in "\\:\0"
  {
    hide Join, Slashes;
    var n := Join(p);
    JoinChars(p);
    OnlySlashes(k);
    forall i | 0 <= i < |n + Slashes(k)| ensures (n + Slashes(k))[i] !in "\\:\0" {
      assert if i < |n| then n[i] in n else Slashes(k)[i-|n|] in Slashes(k);
    }
  }

  lemma {:induction false} OnlySlashes(k: nat)
    ensures forall c <- Slashes(k) :: c == '/'
  {
    if k > 0 {
      OnlySlashes(k - 1);
    }
  }

  ghost predicate Shaped(name: string, n: string, p: Path, k: nat) {
    Inside(p) && n == Join(p) && name == n + Slashes(k)
  }

  /** A name is safe exactly when it is a path of plain components, none of which
      leads up or out, with any number of slashes behind it. */
  lemma MemberPathMeans(name: string, n: string)
    ensures MemberPath(name) == Some(n) <==> exists p, k :: Shaped(name, n, p, k)
  {
    hide MemberPath, Inside;
    if MemberPath(name) == Some(n) {
      var p, k := SafeIsShaped(name);
      assert Shaped(name, n, p, k);
    }
    if p, k: nat :| Shaped(name, n, p, k) {
      ShapedIsSafe(p, k);
    }
  }

  // ------------------------------------------------------------- the manifest

  /** A directory of the manifest's own list, by its path. */
  ghost predicate Listed(m: Manifest, p: Path) {
    exists d <- m.directories :: MemberPath(d).Some? && Split(MemberPath(d).value) == p
  }

  /** A directory above a file of the manifest. */
  ghost predicate Implied(m: Manifest, p: Path) {
    exists n <- m.files :: Above(p, Split(n)) && p != Split(n)
  }

  ghost predicate Sound(m: Manifest) {
    && (forall n <- m.files :: SafeName(n) && Sha256Text(m.files[n].digest)) && m.main in m.files
    && (forall d <- m.directories :: MemberPath(d).Some?)
    && forall n <- m.files :: !Listed(m, Split(n)) && !Implied(m, Split(n))
  }

  lemma FilesMean(m: Manifest)
    requires forall n <- m.files :: SafeName(n)
    ensures forall p :: p in FilesByPath(m.files) <==> exists n <- m.files :: Split(n) == p
    ensures forall n <- m.files :: Split(n) in FilesByPath(m.files) && FilesByPath(m.files)[Split(n)] == m.files[n]
  {
    hide MemberPath;
    forall n | n in m.files ensures Join(Split(n)) == n {
      JoinSplits(n);
    }
  }

  lemma AllowedMean(m: Manifest, p: Path)
    requires (forall n <- m.files :: SafeName(n)) && (forall d <- m.directories :: MemberPath(d).Some?)
    ensures p in ListedDirectories(m.directories) <==> Listed(m, p)
    ensures p in AllParents(FilesByPath(m.files).Keys) <==> Implied(m, p)
  {
    hide MemberPath, FilesByPath;
    FilesMean(m);
    if Listed(m, p) {
      var d :| d in m.directories && MemberPath(d).Some? && Split(MemberPath(d).value) == p;
      var i :| 0 <= i < |m.directories| && m.directories[i] == d;
    }
    if p in ListedDirectories(m.directories) {
      var i :| 0 <= i < |m.directories| && Split(MemberPath(m.directories[i]).value) == p;
      assert m.directories[i] in m.directories;
    }
  }

  ghost predicate Named(m: Manifest) {
    (forall n <- m.files :: SafeName(n)) && forall d <- m.directories :: MemberPath(d).Some?
  }

  lemma NoCollision(m: Manifest)
    requires Named(m)
    ensures
      var files, allowed := FilesByPath(m.files), ListedDirectories(m.directories) + AllParents(FilesByPath(m.files).Keys);
      && (forall p :: p in allowed <==> Listed(m, p) || Implied(m, p))
      && (files.Keys * allowed == {} <==> forall n <- m.files :: !Listed(m, Split(n)) && !Implied(m, Split(n)))
  {
    hide SafeName, FilesByPath, ListedDirectories, AllParents, Listed, Implied;
    FilesMean(m);
    var files, allowed := FilesByPath(m.files), ListedDirectories(m.directories) + AllParents(FilesByPath(m.files).Keys);
    forall p ensures p in allowed <==> Listed(m, p) || Implied(m, p) {
      AllowedMean(m, p);
    }
    if files.Keys * allowed == {} {
      forall n | n in m.files ensures Split(n) !in allowed {
        assert Split(n) !in files.Keys * allowed;
      }
    }
  }

  /** A manifest is let through exactly when its names are safe, its digests are
      digests, its main file is one of the files, and no file is a directory that
      is listed or that stands above a file. Its plan then has each file with its
      record, and allows those directories and no others. */
  lemma ManifestMeans(m: Manifest)
    ensures ReadManifest(m).Ok? <==> Sound(m)
    ensures ReadManifest(m).Ok? ==>
              var plan := ReadManifest(m).value;
              && (forall p :: p in plan.files <==> exists n <- m.files :: Split(n) == p)
              && (forall n <- m.files :: Split(n) in plan.files && plan.files[Split(n)] == m.files[n])
              && forall p :: p in plan.allowed <==> Listed(m, p) || Implied(m, p)
  {
    hide MemberPath, Sha256Text, FilesByPath, ListedDirectories, AllParents, Listed, Implied;
    assert forall d <- m.directories :: exists i :: 0 <= i < |m.directories| && m.directories[i] == d;
    assert forall i | 0 <= i < |m.directories| :: m.directories[i] in m.directories;
    if Named(m) {
      FilesMean(m);
      NoCollision(m);
    }
  }
}
