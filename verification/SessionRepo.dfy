/**
 `SecureCRTSshSessionRepoGenerator.generate` of ansible/devutil/ssh_session_repo.py: session files in a folder
 tree whose folders list their contents in index files that are read, updated and rewritten each time.
 */
module SessionRepo {
  import opened Common
  import opened FolderData
  import opened FolderRoundTrip

  type Path = seq<string>

  function Parent(p: Path): Path
    requires p != []
  {
    p[..|p| - 1]
  }

  function Base(p: Path): string
    requires p != []
  {
    p[|p| - 1]
  }

  // ---- the tree as a value ----

  /** `records` are the parsed index files, `files` the session files by folder and name. */
  datatype Tree = Tree(dirs: set<Path>, records: map<Path, Record>, files: set<(Path, string)>)

  function RecordAt(t: Tree, p: Path): Record {
    if p in t.records then t.records[p] else Record({}, {}, false)
  }

  function ListFolder(t: Tree, p: Path, name: string): Tree {
    var r := RecordAt(t, p);
    t.(records := t.records[p := r.(folders := r.folders + {name})])
  }

  function ListSession(t: Tree, p: Path, name: string): Tree {
    var r := RecordAt(t, p);
    t.(records := t.records[p := r.(sessions := r.sessions + {name})])
  }

  /** `_create_ssh_session_folder`: missing ancestors first, each listed in its parent. */
  function Create(t: Tree, p: Path): Tree
    decreases |p|
  {
    if p == [] || p in t.dirs then t
    else
      var u := Create(t, Parent(p));
      ListFolder(u.(dirs := u.dirs + {p}), Parent(p), Base(p))
  }

  function AddSession(t: Tree, p: Path, name: string): Tree {
    var u := Create(t, p);
    ListSession(u.(files := u.files + {(p, name)}), p, name)
  }

  /** One `generate` call: a session for the IPv4 address and one for the IPv6 address, where given. */
  datatype Request = Request(folder: Path, device: string, hasIp: bool, hasIpv6: bool, hasUser: bool)

  function Generate(t: Tree, q: Request): Tree {
    var u := if q.hasIp && q.hasUser then AddSession(t, q.folder, q.device) else t;
    if q.hasIpv6 && q.hasUser then AddSession(u, q.folder, q.device + "-v6") else u
  }

  function Run(t: Tree, qs: seq<Request>): Tree {
    if qs == [] then t else Generate(Run(t, qs[..|qs| - 1]), qs[|qs| - 1])
  }

  // ---- nothing is lost ----

  /** Every folder, file and index entry of t is still in u, and flags are as they were. */
  ghost predicate Grown(t: Tree, u: Tree) {
    && t.dirs <= u.dirs && t.files <= u.files
    && forall p :: p in t.records ==>
         && p in u.records && t.records[p].folders <= u.records[p].folders
         && t.records[p].sessions <= u.records[p].sessions && t.records[p].expanded == u.records[p].expanded
  }

  /** Every folder that t did not have is listed in its parent, every session file in its folder. */
  ghost predicate Indexed(t: Tree, u: Tree) {
    && (forall p :: p in u.dirs && p !in t.dirs ==> p != [] && Base(p) in RecordAt(u, Parent(p)).folders)
    && (forall f :: f in u.files && f !in t.files ==> f.1 in RecordAt(u, f.0).sessions && f.0 in u.dirs)
  }

  ghost predicate Sound(t: Tree, u: Tree) {
    Grown(t, u) && Indexed(t, u)
  }

  lemma SoundChains(t: Tree, u: Tree, v: Tree)
    requires Sound(t, u) && Sound(u, v)
    ensures Sound(t, v)
  {
    forall p | p in u.dirs && p !in t.dirs ensures p != [] && Base(p) in RecordAt(v, Parent(p)).folders {
      assert Parent(p) in u.records;
    }
    forall f | f in u.files && f !in t.files ensures f.1 in RecordAt(v, f.0).sessions && f.0 in v.dirs {
      assert f.0 in u.records;
    }
  }

  lemma {:induction false} CreateSound(t: Tree, p: Path)
    requires [] in t.dirs
    ensures Sound(t, Create(t, p)) && p in Create(t, p).dirs && [] in Create(t, p).dirs
    decreases |p|
  {
    if p == [] || p in t.dirs {
    } else {
      CreateSound(t, Parent(p));
      ListFolderSound(Create(t, Parent(p)), p);
      SoundChains(t, Create(t, Parent(p)), Create(t, p));
    }
  }

  lemma ListFolderSound(u: Tree, p: Path)
    requires p != []
    ensures Sound(u, ListFolder(u.(dirs := u.dirs + {p}), Parent(p), Base(p)))
  {
  }

  lemma AddSessionSound(t: Tree, p: Path, name: string)
    requires [] in t.dirs
    ensures Sound(t, AddSession(t, p, name)) && [] in AddSession(t, p, name).dirs
    ensures (p, name) in AddSession(t, p, name).files && name in RecordAt(AddSession(t, p, name), p).sessions
  {
    CreateSound(t, p);
    SoundChains(t, Create(t, p), AddSession(t, p, name));
  }

  lemma GenerateSound(t: Tree, q: Request)
    requires [] in t.dirs
    ensures Sound(t, Generate(t, q)) && [] in Generate(t, q).dirs
    ensures q.hasIp && q.hasUser ==> (q.folder, q.device) in Generate(t, q).files
    ensures q.hasIpv6 && q.hasUser ==> (q.folder, q.device + "-v6") in Generate(t, q).files
  {
    var u := if q.hasIp && q.hasUser then AddSession(t, q.folder, q.device) else t;
    if q.hasIp && q.hasUser { AddSessionSound(t, q.folder, q.device); }
    if q.hasIpv6 && q.hasUser { AddSessionSound(u, q.folder, q.device + "-v6"); }
    SoundChains(t, u, Generate(t, q));
  }

  lemma {:induction false} RunRootStays(t: Tree, qs: seq<Request>)
    requires [] in t.dirs
    ensures [] in Run(t, qs).dirs && Sound(t, Run(t, qs))
  {
    if qs == [] {
    } else {
      var init := qs[..|qs| - 1];
      RunRootStays(t, init);
      GenerateSound(Run(t, init), qs[|qs| - 1]);
      SoundChains(t, Run(t, init), Run(t, qs));
    }
  }

  lemma NextCallSound(t: Tree, qs: seq<Request>, k: nat)
    requires [] in t.dirs && k < |qs|
    ensures var q, u := qs[k], Run(t, qs[..k + 1]);
            && Sound(Run(t, qs[..k]), u)
            && (q.hasIp && q.hasUser ==> (q.folder, q.device) in u.files)
            && (q.hasIpv6 && q.hasUser ==> (q.folder, q.device + "-v6") in u.files)
  {
    RunRootStays(t, qs[..k]);
    assert qs[..k + 1][..k] == qs[..k] && qs[..k + 1][k] == qs[k];
    GenerateSound(Run(t, qs[..k]), qs[k]);
  }

  lemma FilesStay(t: Tree, u: Tree)
    requires Sound(t, u)
    ensures t.files <= u.files
  {
  }

  lemma {:induction false} LaterCallsSound(t: Tree, qs: seq<Request>, k: nat)
    requires [] in t.dirs && k <= |qs|
    ensures Sound(Run(t, qs[..k]), Run(t, qs))
    decreases |qs| - k
  {
    if k == |qs| {
      assert qs[..k] == qs;
      Unchanged(Run(t, qs));
    } else {
      LaterCallsSound(t, qs, k + 1);
      NextCallSound(t, qs, k);
      SoundChains(Run(t, qs[..k]), Run(t, qs[..k + 1]), Run(t, qs));
    }
  }

  lemma Unchanged(t: Tree)
    ensures Sound(t, t)
  {
  }

  /**
   No sequence of calls loses an entry: what any earlier prefix of the calls had is still there, every folder
   created on the way is listed in its parent, and every session file in its folder.
   */
  lemma RunLosesNothing(t: Tree, qs: seq<Request>, k: nat)
    requires [] in t.dirs && k <= |qs|
    ensures Sound(t, Run(t, qs)) && Sound(Run(t, qs[..k]), Run(t, qs))
    ensures k < |qs| && qs[k].hasIp && qs[k].hasUser ==> (qs[k].folder, qs[k].device) in Run(t, qs).files
    ensures k < |qs| && qs[k].hasIpv6 && qs[k].hasUser ==> (qs[k].folder, qs[k].device + "-v6") in Run(t, qs).files
  {
    RunRootStays(t, qs);
    LaterCallsSound(t, qs, k);
    if k < |qs| {
      NextCallSound(t, qs, k);
      LaterCallsSound(t, qs, k + 1);
      FilesStay(Run(t, qs[..k + 1]), Run(t, qs));
    }
  }

  // ---- and nothing is made up ----

  /** The request asks for this session file: one per address, if a user is known. */
  ghost predicate Asks(q: Request, f: (Path, string)) {
    q.hasUser && ((q.hasIp && f == (q.folder, q.device)) || (q.hasIpv6 && f == (q.folder, q.device + "-v6")))
  }

  lemma {:induction false} CreateFiles(t: Tree, p: Path)
    ensures Create(t, p).files == t.files
    decreases |p|
  {
    if p == [] || p in t.dirs {
    } else {
      CreateFiles(t, Parent(p));
    }
  }

  lemma GenerateFiles(t: Tree, q: Request, f: (Path, string))
    ensures f in Generate(t, q).files <==> f in t.files || Asks(q, f)
  {
    CreateFiles(t, q.folder);
    var u := if q.hasIp && q.hasUser then AddSession(t, q.folder, q.device) else t;
    CreateFiles(u, q.folder);
  }

  /** After any calls the session files are those that were there and those that the calls ask for. */
  lemma {:induction false} RunFilesExactly(t: Tree, qs: seq<Request>, f: (Path, string))
    ensures f in Run(t, qs).files <==> f in t.files || exists k :: 0 <= k < |qs| && Asks(qs[k], f)
  {
    if qs != [] {
      var init, last := qs[..|qs| - 1], qs[|qs| - 1];
      RunFilesExactly(t, init, f);
      GenerateFiles(Run(t, init), last, f);
      assert forall k :: 0 <= k < |init| ==> init[k] == qs[k];
      if k :| 0 <= k < |qs| && Asks(qs[k], f) {
        if k < |init| { assert Asks(init[k], f); }
      }
    }
  }

  /** The call makes a folder: it writes at least one session file there. */
  ghost predicate Makes(q: Request) {
    q.hasUser && (q.hasIp || q.hasIpv6)
  }

  /** A file system: each folder has its ancestors. */
  ghost predicate Rooted(t: Tree) {
    [] in t.dirs && forall p :: p in t.dirs && p != [] ==> Parent(p) in t.dirs
  }

  lemma {:induction false} AncestorsExist(t: Tree, p: Path, d: Path)
    requires Rooted(t) && p in t.dirs && d <= p
    ensures d in t.dirs
    decreases |p|
  {
    if d != p {
      assert d <= Parent(p);
      AncestorsExist(t, Parent(p), d);
    }
  }

  lemma {:induction false} CreateDirs(t: Tree, p: Path, d: Path)
    requires Rooted(t)
    ensures Rooted(Create(t, p))
    ensures d in Create(t, p).dirs <==> d in t.dirs || d <= p
    decreases |p|
  {
    if p == [] {
    } else if p in t.dirs {
      if d <= p { AncestorsExist(t, p, d); }
    } else {
      CreateDirs(t, Parent(p), d);
      CreateDirs(t, Parent(p), Parent(p));
      assert d <= p <==> d == p || d <= Parent(p);
    }
  }

  lemma GenerateDirs(t: Tree, q: Request, d: Path)
    requires Rooted(t)
    ensures Rooted(Generate(t, q))
    ensures d in Generate(t, q).dirs <==> d in t.dirs || (Makes(q) && d <= q.folder)
  {
    var u := if q.hasIp && q.hasUser then AddSession(t, q.folder, q.device) else t;
    CreateDirs(t, q.folder, d);
    CreateDirs(u, q.folder, d);
  }

  /** After any calls the folders are those that were there, the requested ones, and their ancestors. */
  lemma {:induction false} RunDirsExactly(t: Tree, qs: seq<Request>, d: Path)
    requires Rooted(t)
    ensures Rooted(Run(t, qs))
    ensures d in Run(t, qs).dirs <==> d in t.dirs || exists k :: 0 <= k < |qs| && Makes(qs[k]) && d <= qs[k].folder
  {
    if qs != [] {
      var init, last := qs[..|qs| - 1], qs[|qs| - 1];
      RunDirsExactly(t, init, d);
      GenerateDirs(Run(t, init), last, d);
      assert forall k :: 0 <= k < |init| ==> init[k] == qs[k];
      if k :| 0 <= k < |qs| && Makes(qs[k]) && d <= qs[k].folder {
        if k < |init| { assert Makes(init[k]); }
      }
    }
  }

  ghost predicate NewFolder(t: Tree, u: Tree, p: Path) {
    p in u.dirs && p !in t.dirs
  }

  /** The folder lists gain the new folders and nothing else. */
  ghost predicate FoldersGrow(t: Tree, u: Tree) {
    && t.dirs <= u.dirs
    && forall p, name :: name in RecordAt(u, p).folders <==>
                         name in RecordAt(t, p).folders || NewFolder(t, u, p + [name])
  }

  lemma FoldersChain(t: Tree, v: Tree, u: Tree)
    requires FoldersGrow(t, v) && FoldersGrow(v, u)
    ensures FoldersGrow(t, u)
  {
  }

  lemma ListedFolderGrows(u: Tree, p: Path, v: Tree)
    requires p != [] && v == ListFolder(u.(dirs := u.dirs + {p}), Parent(p), Base(p)) && p !in u.dirs
    ensures FoldersGrow(u, v) && forall q :: RecordAt(v, q).sessions == RecordAt(u, q).sessions
  {
    forall q, name ensures NewFolder(u, v, q + [name]) <==> q == Parent(p) && name == Base(p) {
      assert (q + [name])[..|q|] == q && p == Parent(p) + [Base(p)];
    }
  }

  lemma {:induction false} CreatedAreAncestors(t: Tree, p: Path, d: Path)
    requires d in Create(t, p).dirs && d !in t.dirs
    ensures |d| <= |p|
    decreases |p|
  {
    if p != [] && p !in t.dirs && d != p { CreatedAreAncestors(t, Parent(p), d); }
  }

  lemma {:induction false} CreateEntries(t: Tree, p: Path)
    ensures FoldersGrow(t, Create(t, p)) && forall q :: RecordAt(Create(t, p), q).sessions == RecordAt(t, q).sessions
    decreases |p|
  {
    if p == [] || p in t.dirs {
    } else {
      var u := Create(t, Parent(p));
      CreateEntries(t, Parent(p));
      if p in u.dirs { CreatedAreAncestors(t, Parent(p), p); }
      ListedFolderGrows(u, p, Create(t, p));
      FoldersChain(t, u, Create(t, p));
    }
  }

  lemma SessionEntries(t: Tree, p: Path, name: string, q: Path, entry: string)
    ensures FoldersGrow(t, AddSession(t, p, name))
    ensures entry in RecordAt(AddSession(t, p, name), q).sessions <==>
            entry in RecordAt(t, q).sessions || (q == p && entry == name)
  {
    CreateEntries(t, p);
    FoldersChain(t, Create(t, p), AddSession(t, p, name));
  }

  lemma GenerateEntries(t: Tree, q: Request, p: Path, name: string)
    ensures FoldersGrow(t, Generate(t, q))
    ensures name in RecordAt(Generate(t, q), p).sessions <==> name in RecordAt(t, p).sessions || Asks(q, (p, name))
  {
    var u := if q.hasIp && q.hasUser then AddSession(t, q.folder, q.device) else t;
    SessionEntries(t, q.folder, q.device, p, name);
    SessionEntries(u, q.folder, q.device + "-v6", p, name);
    if q.hasIpv6 && q.hasUser { FoldersChain(t, u, Generate(t, q)); }
  }

  /** And the index files list just the folders that came into being and the sessions that the calls ask for. */
  lemma {:induction false} RunEntriesExactly(t: Tree, qs: seq<Request>, p: Path, name: string)
    ensures FoldersGrow(t, Run(t, qs))
    ensures name in RecordAt(Run(t, qs), p).sessions <==>
            name in RecordAt(t, p).sessions || exists k :: 0 <= k < |qs| && Asks(qs[k], (p, name))
  {
    if qs != [] {
      var init, last := qs[..|qs| - 1], qs[|qs| - 1];
      RunEntriesExactly(t, init, p, name);
      GenerateEntries(Run(t, init), last, p, name);
      FoldersChain(t, Run(t, init), Run(t, qs));
      assert forall k :: 0 <= k < |init| ==> init[k] == qs[k];
      if k :| 0 <= k < |qs| && Asks(qs[k], (p, name)) {
        if k < |init| { assert Asks(init[k], (p, name)); }
      }
    }
  }

  // ---- the files ----

  /** The first of the names in the order in which they are saved. */
  ghost predicate Least(names: set<string>, x: string) {
    x in names && forall y :: y in names && y != x ==> Less(x, y)
  }

  /** Names that come back from an index file: plain, and the one saved first does not start with a blank. */
  ghost predicate Survives(names: set<string>) {
    && (forall x :: x in names ==> PlainName(x))
    && (forall x :: Least(names, x) && x != "" ==> !IsSpace(x[0]))
  }

  ghost predicate GoodRecord(r: Record) {
    Survives(r.folders) && Survives(r.sessions)
  }

  lemma {:induction false} LessAsymmetric(a: string, b: string)
    requires Less(a, b)
    ensures !Less(b, a)
  {
    if a != "" && a[0] == b[0] {
      LessAsymmetric(a[1..], b[1..]);
    }
  }

  lemma FirstIsLeast(xs: seq<string>, names: set<string>)
    requires Sorted(xs) && Elems(xs) == names
    ensures xs != [] ==> Least(names, xs[0])
    ensures forall x :: Least(names, x) ==> xs != [] && x == xs[0]
  {
    forall y | y in names ensures y in xs && (y != xs[0] ==> Less(xs[0], y)) {
      assert y in Elems(xs);
    }
    forall x | Least(names, x) ensures xs != [] && x == xs[0] {
      assert x in Elems(xs) && xs[0] in Elems(xs);
      if x != xs[0] { LessAsymmetric(xs[0], x); }
    }
  }

  /** In the order in which they are saved, names are storable exactly when they survive. */
  lemma StorableIffSurvives(xs: seq<string>, names: set<string>)
    requires Sorted(xs) && Elems(xs) == names
    ensures Storable(xs) <==> Survives(names)
  {
    FirstIsLeast(xs, names);
    assert forall x :: x in xs <==> x in names;
  }

  lemma SortedDistinct(xs: seq<string>)
    requires Sorted(xs)
    ensures Distinct(xs)
  {
    forall i, j | 0 <= i < j < |xs| ensures xs[i] != xs[j] {
      LessTotal(xs[i], xs[j]);
    }
  }

  /** A saved record comes back exactly when its names survive. */
  lemma SavedComesBack(r: Record, fs: seq<string>, ss: seq<string>)
    requires Sorted(fs) && Elems(fs) == r.folders && Sorted(ss) && Elems(ss) == r.sessions
    ensures Parse(Text(fs, ss, r.expanded)) == Some(r) <==> GoodRecord(r)
    ensures GoodRecord(r) ==> HasLists(Text(fs, ss, r.expanded))
  {
    SortedDistinct(fs);
    SortedDistinct(ss);
    RoundTripExactly(fs, ss, r.expanded);
    StorableIffSurvives(fs, r.folders);
    StorableIffSurvives(ss, r.sessions);
    if GoodRecord(r) { SavedHasLists(fs, ss, r.expanded); }
  }

  function WithFolder(r: Record, name: string): Record {
    r.(folders := r.folders + {name})
  }

  function WithSession(r: Record, name: string): Record {
    r.(sessions := r.sessions + {name})
  }

  /** Every index file that creating the folder writes comes back. */
  ghost predicate CreateStorable(t: Tree, p: Path)
    decreases |p|
  {
    p == [] || p in t.dirs
    || (CreateStorable(t, Parent(p)) && GoodRecord(WithFolder(RecordAt(Create(t, Parent(p)), Parent(p)), Base(p))))
  }

  ghost predicate AddStorable(t: Tree, p: Path, name: string) {
    CreateStorable(t, p) && GoodRecord(WithSession(RecordAt(Create(t, p), p), name))
  }

  ghost predicate GenerateStorable(t: Tree, q: Request) {
    var v4 := q.hasIp && q.hasUser;
    && (v4 ==> AddStorable(t, q.folder, q.device))
    && (q.hasIpv6 && q.hasUser ==>
          AddStorable(if v4 then AddSession(t, q.folder, q.device) else t, q.folder, q.device + "-v6"))
  }

  /** Every index file that the calls write comes back. */
  ghost predicate RunStorable(t: Tree, qs: seq<Request>) {
    qs == [] || (RunStorable(t, qs[..|qs| - 1]) && GenerateStorable(Run(t, qs[..|qs| - 1]), qs[|qs| - 1]))
  }

  // ---- names without leading blanks ----

  ghost predicate GoodName(x: string) {
    PlainName(x) && !IsSpace(x[0])
  }

  ghost predicate GoodNames(r: Record) {
    forall x :: x in r.folders || x in r.sessions ==> GoodName(x)
  }

  ghost predicate AllGood(t: Tree) {
    forall p :: p in t.records ==> GoodNames(t.records[p])
  }

  ghost predicate GoodRequest(q: Request) {
    GoodName(q.device) && forall x :: x in q.folder ==> GoodName(x)
  }

  lemma GoodNamesSurvive(r: Record)
    requires GoodNames(r)
    ensures GoodRecord(r)
  {
  }

  lemma GoodAt(t: Tree, p: Path)
    requires AllGood(t)
    ensures GoodNames(RecordAt(t, p))
  {
  }

  lemma {:induction false} CreateGood(t: Tree, p: Path)
    requires AllGood(t) && forall x :: x in p ==> GoodName(x)
    ensures AllGood(Create(t, p)) && CreateStorable(t, p)
    decreases |p|
  {
    if p != [] && p !in t.dirs {
      CreateGood(t, Parent(p));
      var u := Create(t, Parent(p));
      GoodAt(u, Parent(p));
      assert Base(p) in p;
      GoodNamesSurvive(WithFolder(RecordAt(u, Parent(p)), Base(p)));
    }
  }

  lemma AddGood(t: Tree, p: Path, name: string)
    requires AllGood(t) && GoodName(name) && forall x :: x in p ==> GoodName(x)
    ensures AllGood(AddSession(t, p, name)) && AddStorable(t, p, name)
  {
    CreateGood(t, p);
    GoodAt(Create(t, p), p);
    GoodNamesSurvive(WithSession(RecordAt(Create(t, p), p), name));
  }

  lemma GenerateGood(t: Tree, q: Request)
    requires AllGood(t) && GoodRequest(q)
    ensures AllGood(Generate(t, q)) && GenerateStorable(t, q)
  {
    assert GoodName(q.device + "-v6");
    if q.hasIp && q.hasUser {
      AddGood(t, q.folder, q.device);
      AddGood(AddSession(t, q.folder, q.device), q.folder, q.device + "-v6");
    } else {
      AddGood(t, q.folder, q.device + "-v6");
    }
  }

  /** Names free of separators, line breaks and leading blanks are always enough, in whatever order the calls come. */
  lemma {:induction false} GoodRequestsStorable(t: Tree, qs: seq<Request>)
    requires AllGood(t) && forall q :: q in qs ==> GoodRequest(q)
    ensures AllGood(Run(t, qs)) && RunStorable(t, qs)
  {
    if qs != [] {
      GoodRequestsStorable(t, qs[..|qs| - 1]);
      GenerateGood(Run(t, qs[..|qs| - 1]), qs[|qs| - 1]);
    }
  }

  // ---- the empty file ----

  lemma LinesOfLine(line: string)
    requires OneLine(line)
    ensures Lines(line + "\r\n") == [line, ""]
  {
    FirstLine(line, "");
    FirstLine("", "");
    assert line + "\r\n" == line + ("\r\n" + "");
  }

  lemma TwoKeys(f: string, s: string, tail: string)
    requires OneLine(f) && OneLine(s)
    ensures Lines(f + "\r\n" + (s + "\r\n" + tail)) == [f, s] + Lines(tail)
  {
    TwoLines(f, s, tail);
    assert s + "\r\n" + tail == s + ("\r\n" + tail);
    assert f + "\r\n" + (s + "\r\n" + tail) == f + ("\r\n" + (s + ("\r\n" + tail)));
  }

  lemma EmptyField(key: string)
    requires key in {FOLDERS, SESSIONS}
    ensures |Split(key, '=')| > 1 && NonEmpty(Split(Field(key), ':')) == {}
  {
    KeyedLineSplits(key, key);
    assert key[|key|..] == "";
  }

  lemma KeysOneLine(line: string)
    requires line == EXPANDED + "00000000"
    ensures OneLine(FOLDERS) && OneLine(SESSIONS) && OneLine(line)
  {
  }

  lemma FourLines(f: string, s: string, line: string)
    requires OneLine(f) && OneLine(s) && OneLine(line)
    ensures Lines(f + "\r\n" + (s + "\r\n" + (line + "\r\n"))) == [f, s] + [line, ""]
  {
    TwoKeys(f, s, line + "\r\n");
    LinesOfLine(line);
  }

  lemma ParseEmptyLines(line: string)
    requires line == EXPANDED + "00000000"
    ensures ParseLines(Record({}, {}, false), [FOLDERS, SESSIONS] + [line, ""]) == Some(Record({}, {}, false))
  {
    EmptyField(FOLDERS);
    EmptyField(SESSIONS);
    ParseTwo(FOLDERS, SESSIONS, [line, ""]);
    ParseClearFlag(Record({}, {}, false), line);
  }

  /** The index file written for a new folder is an empty record. */
  lemma EmptyTextParses()
    ensures Parse(EMPTY_TEXT) == Some(Record({}, {}, false))
  {
    var line := EXPANDED + "00000000";
    KeysOneLine(line);
    FourLines(FOLDERS, SESSIONS, line);
    ParseEmptyLines(line);
  }

  lemma EmptyTextHasLists()
    ensures HasLists(EMPTY_TEXT)
  {
    var line := EXPANDED + "00000000";
    KeysOneLine(line);
    FourLines(FOLDERS, SESSIONS, line);
    TwoLists(EMPTY_TEXT, FOLDERS, SESSIONS, [line, ""]);
  }

  lemma ParseClearFlag(r: Record, line: string)
    requires !r.expanded && line == EXPANDED + "00000000"
    ensures ParseLines(r, [line, ""]) == Some(r)
  {
    ParseFlagLine(r, "00000000");
    BlankLine(r);
    assert [line, ""][1..] == [""];
  }

  lemma BlankLine(r: Record)
    ensures ParseLines(r, [""]) == Some(r)
  {
  }

  ghost predicate Parseable(ini: map<Path, string>) {
    forall p :: p in ini ==> Parse(ini[p]).Some?
  }

  /** Every index file holds both of its lists. */
  ghost predicate Listed(ini: map<Path, string>) {
    forall p {:trigger HasLists(ini[p])} :: p in ini ==> HasLists(ini[p])
  }

  lemma ListedUpdate(ini: map<Path, string>, p: Path, text: string)
    requires Listed(ini) && HasLists(text)
    ensures Listed(ini[p := text])
  {
    var next := ini[p := text];
    forall g | g in next ensures HasLists(next[g]) {
      if g != p { assert HasLists(ini[g]); }
    }
  }

  /** What the index files say. */
  ghost function Parsed(ini: map<Path, string>): map<Path, Record>
    requires Parseable(ini)
  {
    map p | p in ini :: Parse(ini[p]).value
  }

  lemma ParsedUpdate(ini: map<Path, string>, p: Path, text: string, r: Record)
    requires Parseable(ini) && Parse(text) == Some(r)
    ensures Parseable(ini[p := text]) && Parsed(ini[p := text]) == Parsed(ini)[p := r]
  {
  }

  class Repo {
    var dirs: set<Path>
    var ini: map<Path, string>
    var files: set<(Path, string)>

    constructor (existing: set<Path>)
      requires [] in existing
      ensures Valid() && View() == Tree(existing, map[], {})
    {
      dirs, ini, files := existing, map[], {};
    }

    /** The root exists, and the index files are as the generator writes them. */
    ghost predicate Valid()
      reads this
    {
      [] in dirs && Parseable(ini) && Listed(ini)
    }

    ghost function View(): Tree
      requires Valid()
      reads this
    {
      Tree(dirs, Parsed(ini), files)
    }

    /** `from_folder(..., create_if_not_exist=True)`. */
    method FromFolder(p: Path) returns (r: Record)
      requires Valid()
      modifies `ini
      ensures Valid() && r == RecordAt(old(View()), p)
      ensures View() == old(View()).(records := old(View()).records[p := r])
    {
      if p !in ini {
        EmptyTextParses();
        EmptyTextHasLists();
        ParsedUpdate(ini, p, EMPTY_TEXT, Record({}, {}, false));
        ListedUpdate(ini, p, EMPTY_TEXT);
        ini := ini[p := EMPTY_TEXT];
      }
      var parsed := ParseIni(ini[p]);
      r := parsed.value;
    }

    /** `save`: the file, which gives the record back exactly when its names survive. */
    method Store(p: Path, r: Record)
      modifies `ini
      ensures p in ini && ini == old(ini)[p := ini[p]]
      ensures Parse(ini[p]) == Some(r) <==> GoodRecord(r)
      ensures GoodRecord(r) ==> HasLists(ini[p])
    {
      var text := Save(r);
      ghost var fs, ss :| Sorted(fs) && Elems(fs) == r.folders && Sorted(ss) && Elems(ss) == r.sessions
                          && text == Text(fs, ss, r.expanded);
      SavedComesBack(r, fs, ss);
      ini := ini[p := text];
    }

    /** Read, add a folder, rewrite. */
    method AddFolder(p: Path, name: string)
      requires Valid() && GoodRecord(WithFolder(RecordAt(View(), p), name))
      modifies `ini
      ensures Valid() && View() == ListFolder(old(View()), p, name)
    {
      ghost var t := View();
      var r := FromFolder(p);
      ghost var read := ini;
      Store(p, WithFolder(r, name));
      ParsedUpdate(read, p, ini[p], WithFolder(r, name));
      ListedUpdate(read, p, ini[p]);
      assert t.records[p := r][p := WithFolder(r, name)] == t.records[p := WithFolder(r, name)];
    }

    /** Read, add a session, rewrite. */
    method AddSessionName(p: Path, name: string)
      requires Valid() && GoodRecord(WithSession(RecordAt(View(), p), name))
      modifies `ini
      ensures Valid() && View() == ListSession(old(View()), p, name)
    {
      ghost var t := View();
      var r := FromFolder(p);
      ghost var read := ini;
      Store(p, WithSession(r, name));
      ParsedUpdate(read, p, ini[p], WithSession(r, name));
      ListedUpdate(read, p, ini[p]);
      assert t.records[p := r][p := WithSession(r, name)] == t.records[p := WithSession(r, name)];
    }

    method CreateFolder(p: Path)
      requires Valid() && CreateStorable(View(), p)
      modifies `dirs, `ini
      ensures Valid() && View() == Create(old(View()), p)
      decreases |p|
    {
      if p in dirs {
        return;
      }
      var parent := Parent(p);
      ghost var t := View();
      if parent !in dirs {
        CreateFolder(parent);
      }
      ghost var u := View();
      assert u == Create(t, parent);
      dirs := dirs + {p};
      assert View() == u.(dirs := u.dirs + {p});
      AddFolder(parent, Base(p));
    }

    method AddSessionFile(p: Path, name: string)
      requires Valid() && AddStorable(View(), p, name)
      modifies this
      ensures Valid() && View() == AddSession(old(View()), p, name)
    {
      CreateFolder(p);
      ghost var u := View();
      files := files + {(p, name)};
      assert View() == u.(files := u.files + {(p, name)});
      AddSessionName(p, name);
    }

    /** The loop over the two addresses of a device. */
    method GenerateSessions(q: Request)
      requires Valid() && GenerateStorable(View(), q)
      modifies this
      ensures Valid() && View() == Generate(old(View()), q)
    {
      var matrix := [(q.device, q.hasIp), (q.device + "-v6", q.hasIpv6)];
      if matrix[0].1 && q.hasUser {
        AddSessionFile(q.folder, matrix[0].0);
      }
      if matrix[1].1 && q.hasUser {
        AddSessionFile(q.folder, matrix[1].0);
      }
    }

    /** Any number of calls, one after the other. */
    method GenerateAll(qs: seq<Request>)
      requires Valid() && RunStorable(View(), qs)
      modifies this
      ensures Valid() && View() == Run(old(View()), qs)
    {
      ghost var t := View();
      PrefixesStorable(t, qs);
      assert qs[..0] == [];
      for k := 0 to |qs|
        invariant Valid() && View() == Run(t, qs[..k])
      {
        assert RunStorable(t, qs[..k + 1]) && qs[..k + 1][..k] == qs[..k] && qs[..k + 1][k] == qs[k];
        GenerateSessions(qs[k]);
      }
      assert qs[..|qs|] == qs;
    }
  }

  lemma {:induction false} PrefixesStorable(t: Tree, qs: seq<Request>)
    requires RunStorable(t, qs)
    ensures forall k :: 0 <= k <= |qs| ==> RunStorable(t, qs[..k])
  {
    if qs == [] {
      assert qs[..0] == qs;
    } else {
      var init := qs[..|qs| - 1];
      PrefixesStorable(t, init);
      forall k | 0 <= k <= |qs| ensures RunStorable(t, qs[..k]) {
        if k == |qs| { assert qs[..k] == qs; } else { assert qs[..k] == init[..k]; }
      }
    }
  }
}
