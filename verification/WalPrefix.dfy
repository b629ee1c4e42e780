/** The WAL archive paths of three files: crafted by scripts/configure_spilo.py, patched by
    major_upgrade/inplace_upgrade.py and searched by bootstrap/clone_with_wale.py. */
module WalPrefixes {
  import opened Strings
  import opened Wrappers

  // ---- Paths ---------------------------------------------------------------------

  predicate IsSlash(c: char) {
    c == '/'
  }

  predicate At(s: string, i: nat, part: string) {
    i + |part| <= |s| && s[i..i + |part|] == part
  }

  /** part in s */
  predicate Contains(s: string, part: string) {
    exists i :: 0 <= i <= |s| && At(s, i, part)
  }

  predicate EndsWith(s: string, part: string) {
    |part| <= |s| && s[|s| - |part|..] == part
  }

  /** s.rstrip('/') */
  function RStrip(s: string): string {
    StripRight(s, IsSlash)
  }

  /** Where the last component of a path begins. */
  function NameStart(path: string): (i: nat)
    ensures i <= |path| && '/' !in path[i..] && (i > 0 ==> path[i - 1] == '/')
  {
    if path == "" || path[|path| - 1] == '/' then |path|
    else
      var i := NameStart(path[..|path| - 1]);
      assert path[i..] == path[..|path| - 1][i..] + [path[|path| - 1]];
      i
  }

  /** os.path.split(path) */
  function PathSplit(path: string): (string, string) {
    var i := NameStart(path);
    var head := path[..i];
    (if forall c :: c in head ==> c == '/' then head else RStrip(head), path[i..])
  }

  /** os.path.join(dir, name) */
  function PathJoin(dir: string, name: string): string {
    if name != "" && name[0] == '/' then name
    else if dir == "" || dir[|dir| - 1] == '/' then dir + name
    else dir + "/" + name
  }

  // ---- The three programs ------------------------------------------------------------

  /** write_wale_environment: the prefix when none is configured; scope stands for
      {WAL_BUCKET_SCOPE_PREFIX}{SCOPE}{WAL_BUCKET_SCOPE_SUFFIX}. */
  function Crafted(store: string, bucket: string, scope: string, version: string): string {
    CraftedDir(store, bucket, scope) + "/" + version
  }

  function CraftedDir(store: string, bucket: string, scope: string): string {
    store + "://" + bucket + "/spilo/" + scope + "/wal"
  }

  /** The stores whose prefix write_wale_environment can craft. */
  datatype Store = S3 | GS | Swift

  function PrefixName(store: Store): string {
    match store
    case S3 => "WALE_S3_PREFIX"
    case GS => "WALE_GS_PREFIX"
    case Swift => "WALE_SWIFT_PREFIX"
  }

  function BucketName(store: Store): string {
    match store
    case S3 => "WAL_S3_BUCKET"
    case GS => "WAL_GS_BUCKET"
    case Swift => "WAL_SWIFT_BUCKET"
  }

  function Scheme(store: Store): string {
    match store
    case S3 => "s3"
    case GS => "gs"
    case Swift => "swift"
  }

  /** The variable of wal-g, where there is one besides. */
  function WalgName(store: Store): Option<string> {
    match store
    case S3 => Some("WALG_S3_PREFIX")
    case GS => Some("WALG_GS_PREFIX")
    case Swift => None
  }

  /** The dictionary `wale` of write_wale_environment. */
  class WaleEnvironment {
    var wale: map<string, string>

    /** wale.get(name), when it is true */
    predicate Set(name: string)
      reads this
    {
      name in wale && wale[name] != ""
    }

    function Value(name: string): string
      reads this
    {
      if name in wale then wale[name] else ""
    }

    /** The prefix variables: one configured stays; otherwise the prefix is crafted, and
        that of wal-g follows it. */
    method SetPrefixes(store: Store)
      modifies this
      ensures Set(PrefixName(store))
      ensures wale[PrefixName(store)] == if old(Set(PrefixName(store))) then old(wale)[PrefixName(store)] else
                Scheme(store) + "://" + old(Value(BucketName(store))) + "/spilo/"
                + old(Value("WAL_BUCKET_SCOPE_PREFIX") + Value("SCOPE") + Value("WAL_BUCKET_SCOPE_SUFFIX"))
                + "/wal/" + old(Value("PGVERSION"))
      ensures WalgName(store).Some? ==>
                var walg := WalgName(store).value;
                Set(walg) && wale[walg] == if old(Set(walg)) then old(wale)[walg] else wale[PrefixName(store)]
      ensures forall k :: k != PrefixName(store) && WalgName(store) != Some(k) ==>
                (k in wale <==> k in old(wale)) && (k in wale ==> wale[k] == old(wale)[k])
    {
      hide Crafted;
      var name := PrefixName(store);
      if !Set(name) {
        var scope := Value("WAL_BUCKET_SCOPE_PREFIX") + Value("SCOPE") + Value("WAL_BUCKET_SCOPE_SUFFIX");
        CraftedIsSomething(Scheme(store), Value(BucketName(store)), scope, Value("PGVERSION"));
        CraftedText(Scheme(store), Value(BucketName(store)), scope, Value("PGVERSION"));
        wale := wale[name := Crafted(Scheme(store), Value(BucketName(store)), scope, Value("PGVERSION"))];
      }
      var walg := WalgName(store);
      if walg.Some? && !Set(walg.value) {
        wale := wale[walg.value := wale[name]];
      }
    }
  }

  /** The variables of each store, by their names. */
  lemma StoreNames()
    ensures PrefixName(S3) == "WALE_S3_PREFIX" && BucketName(S3) == "WAL_S3_BUCKET" && Scheme(S3) == "s3"
    ensures PrefixName(GS) == "WALE_GS_PREFIX" && BucketName(GS) == "WAL_GS_BUCKET" && Scheme(GS) == "gs"
    ensures PrefixName(Swift) == "WALE_SWIFT_PREFIX" && BucketName(Swift) == "WAL_SWIFT_BUCKET" && Scheme(Swift) == "swift"
    ensures WalgName(S3) == Some("WALG_S3_PREFIX") && WalgName(GS) == Some("WALG_GS_PREFIX") && WalgName(Swift) == None
  {
  }

  lemma CraftedText(store: string, bucket: string, scope: string, version: string)
    ensures Crafted(store, bucket, scope, version) == store + "://" + bucket + "/spilo/" + scope + "/wal/" + version
  {
  }

  lemma CraftedIsSomething(store: string, bucket: string, scope: string, version: string)
    ensures Crafted(store, bucket, scope, version) != ""
  {
  }

  /** patch_wale_prefix(value, newVersion) */
  function Patch(value: string, newVersion: string, valid: string -> bool): string {
    if Contains(value, "/spilo/") && Contains(value, "/wal/") then
      var (basename, oldVersion) := PathSplit(RStrip(value));
      if valid(oldVersion) && oldVersion != newVersion then PathJoin(basename, newVersion) else value
    else value
  }

  /** get_wale_environments: the values tried for the prefix, in order. */
  function Candidates(value: string, versions: seq<string>): (r: seq<string>)
    ensures r != [] && r[|r| - 1] == value
  {
    var stripped := RStrip(value);
    (if Contains(stripped, "/spilo/") && EndsWith(stripped, "/wal") then
       seq(|versions|, i requires 0 <= i < |versions| => stripped + "/" + versions[i] + "/")
     else [])
    + [value]
  }

  /** A path is searched under all versions exactly when it holds `/spilo/` and ends with `/wal`,
      slashes at the end aside; otherwise as it is. */
  lemma CandidatesIff(value: string, versions: seq<string>)
    ensures
      var stripped := RStrip(value);
      var crafted := (exists a, b :: stripped == a + "/spilo/" + b) && (exists a :: stripped == a + "/wal");
      Candidates(value, versions)
      == (if crafted then seq(|versions|, i requires 0 <= i < |versions| => stripped + "/" + versions[i] + "/") else []) + [value]
  {
    var stripped := RStrip(value);
    if Contains(stripped, "/spilo/") {
      var i :| 0 <= i <= |stripped| && At(stripped, i, "/spilo/");
      assert stripped == stripped[..i] + "/spilo/" + stripped[i + 7..];
    }
    if a, b :| stripped == a + "/spilo/" + b {
      ContainsPart(a, "/spilo/", b);
    }
    if EndsWith(stripped, "/wal") {
      assert stripped == stripped[..|stripped| - 4] + "/wal";
    }
    if a :| stripped == a + "/wal" {
      assert stripped[|stripped| - 4..] == "/wal";
    }
  }

  // ---- How they fit together -----------------------------------------------------------

  /** What a version or any other last component of a path looks like. */
  predicate IsName(s: string) {
    s != "" && '/' !in s
  }

  lemma {:induction false} NameStartAt(dir: string, name: string)
    requires '/' !in name
    ensures NameStart(dir + "/" + name) == |dir| + 1
  {
    var path := dir + "/" + name;
    if name != "" {
      NameStartAt(dir, name[..|name| - 1]);
      assert path[..|path| - 1] == dir + "/" + name[..|name| - 1];
    }
  }

  lemma SplitJoined(dir: string, name: string)
    requires IsName(name) && dir != "" && dir[|dir| - 1] != '/'
    ensures PathSplit(dir + "/" + name) == (dir, name)
    ensures PathJoin(dir, name) == dir + "/" + name
    ensures RStrip(dir + "/" + name) == dir + "/" + name
  {
    var path := dir + "/" + name;
    NameStartAt(dir, name);
    assert path[..|dir| + 1] == dir + "/" && path[|dir| + 1..] == name;
    assert (dir + "/")[|dir| - 1] == dir[|dir| - 1] && dir[|dir| - 1] in dir + "/";
    RStripSlash(dir);
    assert path[|path| - 1] == name[|name| - 1];
  }

  lemma RStripSlash(dir: string)
    requires dir != "" && dir[|dir| - 1] != '/'
    ensures RStrip(dir) == dir && RStrip(dir + "/") == dir
  {
    assert (dir + "/")[..|dir + "/"| - 1] == dir;
  }

  lemma ContainsPart(before: string, part: string, after: string)
    ensures Contains(before + part + after, part)
  {
    assert At(before + part + after, |before|, part);
  }

  lemma CraftedShape(store: string, bucket: string, scope: string, version: string)
    ensures
      var dir, path := CraftedDir(store, bucket, scope), Crafted(store, bucket, scope, version);
      && EndsWith(dir, "/wal") && dir != "" && dir[|dir| - 1] != '/'
      && Contains(dir, "/spilo/") && Contains(path, "/spilo/") && Contains(path, "/wal/")
  {
    hide Contains;
    var dir, path := CraftedDir(store, bucket, scope), Crafted(store, bucket, scope, version);
    var head := store + "://" + bucket;
    assert dir == head + "/spilo/" + (scope + "/wal");
    ContainsPart(head, "/spilo/", scope + "/wal");
    assert path == head + "/spilo/" + (scope + "/wal/" + version);
    ContainsPart(head, "/spilo/", scope + "/wal/" + version);
    assert path == (head + "/spilo/" + scope) + "/wal/" + version;
    ContainsPart(head + "/spilo/" + scope, "/wal/", version);
  }

  /** Patching the path crafted for one version gives the path crafted for another,
      exactly when the first is an installed version or they are the same. */
  lemma PatchCrafted(store: string, bucket: string, scope: string, v1: string, v2: string, valid: string -> bool)
    requires IsName(v1) && IsName(v2)
    ensures Patch(Crafted(store, bucket, scope, v1), v2, valid) == Crafted(store, bucket, scope, v2)
            <==> valid(v1) || v1 == v2
  {
    hide Contains, PathSplit, RStrip, PathJoin;
    var dir := CraftedDir(store, bucket, scope);
    CraftedShape(store, bucket, scope, v1);
    SplitJoined(dir, v1);
    SplitJoined(dir, v2);
    assert (dir + "/" + v1)[|dir + "/"|..] == v1;
    assert (dir + "/" + v2)[|dir + "/"|..] == v2;
  }

  /** A path crafted before the version is known is never patched to the right one. */
  lemma PatchWithoutVersion(store: string, bucket: string, scope: string, v2: string, valid: string -> bool)
    requires IsName(v2)
    ensures Patch(Crafted(store, bucket, scope, ""), v2, valid) != Crafted(store, bucket, scope, v2)
  {
    hide Contains, NameStart, RStrip;
    var dir, base := CraftedDir(store, bucket, scope), store + "://" + bucket + "/spilo/" + scope;
    assert dir == base + "/" + "wal";
    CraftedShape(store, bucket, scope, "");
    RStripSlash(dir);
    NameStartAt(base, "wal");
    assert dir + "/" + "" == dir + "/";
    HeadShorter(dir);
    assert |Patch(Crafted(store, bucket, scope, ""), v2, valid)| < |dir + "/" + v2|;
  }

  lemma HeadShorter(path: string)
    ensures |PathSplit(path).0| <= NameStart(path)
  {
  }

  /** Patching twice is patching once, on every string. */
  lemma PatchIdempotent(value: string, version: string, valid: string -> bool)
    requires IsName(version)
    ensures Patch(Patch(value, version, valid), version, valid) == Patch(value, version, valid)
  {
    hide Contains, NameStart, RStrip;
    var once := Patch(value, version, valid);
    if once != value {
      var dir := PathSplit(RStrip(value)).0;
      JoinedName(dir, version);
    }
  }

  /** The last component of a joined path is the name joined. */
  lemma JoinedName(dir: string, name: string)
    requires IsName(name)
    ensures RStrip(PathJoin(dir, name)) == PathJoin(dir, name)
    ensures PathSplit(PathJoin(dir, name)).1 == name
  {
    var path := PathJoin(dir, name);
    assert path[|path| - 1] == name[|name| - 1];
    assert path == dir + name || path == dir + "/" + name;
    if dir == "" {
      assert path == name;
      NameStartBare(name);
    } else if dir[|dir| - 1] == '/' {
      var d := dir[..|dir| - 1];
      assert path == d + "/" + name;
      NameStartAt(d, name);
      assert path[|d| + 1..] == name;
    } else {
      NameStartAt(dir, name);
      assert path[|dir| + 1..] == name;
    }
  }

  lemma {:induction false} NameStartBare(name: string)
    requires '/' !in name
    ensures NameStart(name) == 0
  {
    if name != "" {
      NameStartBare(name[..|name| - 1]);
    }
  }

  /** The clone search over a path crafted without a version visits the path crafted
      for each possible version, in their order, and then the path itself. */
  lemma CloneVisitsCrafted(store: string, bucket: string, scope: string, versions: seq<string>)
    ensures
      var visited := Candidates(Crafted(store, bucket, scope, ""), versions);
      && |visited| == |versions| + 1
      && (forall i :: 0 <= i < |versions| ==> visited[i] == Crafted(store, bucket, scope, versions[i]) + "/")
      && visited[|versions|] == Crafted(store, bucket, scope, "")
  {
    hide Contains, EndsWith, RStrip;
    var dir := CraftedDir(store, bucket, scope);
    CraftedShape(store, bucket, scope, "");
    RStripSlash(dir);
    assert dir + "/" + "" == dir + "/";
  }

  /** A path with a version is searched as it is. */
  lemma CloneVisitsOnlyKnown(store: string, bucket: string, scope: string, version: string, versions: seq<string>)
    requires IsName(version)
    ensures Candidates(Crafted(store, bucket, scope, version), versions) == [Crafted(store, bucket, scope, version)]
            <==> version != "wal" || versions == []
  {
    hide Contains, RStrip, EndsWith;
    var dir, path := CraftedDir(store, bucket, scope), Crafted(store, bucket, scope, version);
    CraftedShape(store, bucket, scope, version);
    SplitJoined(dir, version);
    EndsWithWal(dir, version);
  }

  lemma EndsWithWal(dir: string, version: string)
    requires '/' !in version && EndsWith(dir, "/wal")
    ensures EndsWith(dir + "/" + version, "/wal") <==> version == "wal"
  {
    var path := dir + "/" + version;
    var n := |path|;
    assert forall i :: |dir| < i < n ==> path[i] == version[i - |dir| - 1];
    if EndsWith(path, "/wal") {
      assert path[n - 4..][0] == '/' && path[n - 4..][1] == 'w' && path[n - 4..][2] == 'a' && path[n - 4..][3] == 'l';
      assert path[|dir|] == '/';
      assert version == path[n - 3..];
    }
  }

  /** What the clone settled on is later patched to the new version, without the
      trailing slash, exactly when its own version is another installed one. */
  lemma PatchVisited(store: string, bucket: string, scope: string, v1: string, v2: string, valid: string -> bool)
    requires IsName(v1) && IsName(v2)
    ensures Patch(Crafted(store, bucket, scope, v1) + "/", v2, valid) == Crafted(store, bucket, scope, v2)
            <==> valid(v1) && v1 != v2
  {
    hide Contains, PathSplit, RStrip, PathJoin;
    var dir, path := CraftedDir(store, bucket, scope), Crafted(store, bucket, scope, v1);
    SplitJoined(dir, v1);
    SplitJoined(dir, v2);
    RStripSlash(path);
    SlashContains(store, bucket, scope, v1);
    assert (path + "/")[|path|] == '/';
    assert (dir + "/" + v2)[|dir + "/" + v2| - 1] == v2[|v2| - 1];
  }

  lemma SlashContains(store: string, bucket: string, scope: string, version: string)
    ensures
      var path := Crafted(store, bucket, scope, version) + "/";
      Contains(path, "/spilo/") && Contains(path, "/wal/")
  {
    assert Crafted(store, bucket, scope, version) + "/" == Crafted(store, bucket, scope, version + "/");
    CraftedShape(store, bucket, scope, version + "/");
  }
}
