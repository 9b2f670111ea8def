/**
 `analyze_file` of spytest/identify_dependencies.py: a depth-first search over imports with two global sets.
 The file system and the import extraction are tables; imports may form cycles.
 */
module ImportClosure {
  import opened Common

  type File = string

  /** `imports` lists the import names of a file in whatever order its set is iterated. */
  datatype Repo = Repo(existing: set<File>, imports: map<File, seq<string>>, varFiles: map<File, seq<File>>)

  // ---- names and paths ----

  predicate EndsWith(s: string, suffix: string) {
    |suffix| <= |s| && s[|s| - |suffix|..] == suffix
  }

  predicate Internal(name: string) {
    StartsWith(name, "apis") || StartsWith(name, "utilities") || StartsWith(name, "spytest")
  }

  /** `'/'.join(name.split('.'))`. */
  function Slashed(name: string): string {
    if name == "" then "" else [if name[0] == '.' then '/' else name[0]] + Slashed(name[1..])
  }

  /** Dots become slashes, and nothing else changes. */
  lemma {:induction false} SlashedIs(name: string)
    ensures |Slashed(name)| == |name|
    ensures forall i :: 0 <= i < |name| ==> Slashed(name)[i] == if name[i] == '.' then '/' else name[i]
  {
    if name != "" { SlashedIs(name[1..]); }
  }

  /** The module file and the package file of an import, where they exist. */
  function Resolve(repo: Repo, name: string): seq<File> {
    var direct, package := Slashed(name) + ".py", Slashed(name) + "/__init__.py";
    (if direct in repo.existing then [direct] else []) + (if package in repo.existing then [package] else [])
  }

  predicate Parsed(repo: Repo, f: File) {
    f in repo.existing && EndsWith(f, ".py")
  }

  function ImportsOf(repo: Repo, f: File): seq<string> {
    if f in repo.imports then repo.imports[f] else []
  }

  /** The files that analysing f leads to. */
  function Successors(repo: Repo, f: File): set<File> {
    if !Parsed(repo, f) then {}
    else set name, g | name in ImportsOf(repo, f) && Internal(name) && g in Resolve(repo, name) :: g
  }

  /** The path spells the import name, dots as slashes, with the ending. */
  ghost predicate PathOf(name: string, ending: string, g: File) {
    && |g| == |name| + |ending| && g[|name|..] == ending
    && forall i :: 0 <= i < |name| ==> g[i] == if name[i] == '.' then '/' else name[i]
  }

  lemma PathOfIs(name: string, ending: string, g: File)
    ensures PathOf(name, ending, g) <==> g == Slashed(name) + ending
  {
    SlashedIs(name);
    var path := Slashed(name) + ending;
    assert path[|name|..] == ending && forall i :: 0 <= i < |name| ==> path[i] == Slashed(name)[i];
    if PathOf(name, ending, g) {
      forall i | 0 <= i < |g| ensures g[i] == path[i] {
        if i >= |name| { assert g[i] == ending[i - |name|]; }
      }
    }
  }

  lemma ResolvedIs(repo: Repo, name: string, g: File)
    ensures g in Resolve(repo, name) <==>
            g in repo.existing && (PathOf(name, ".py", g) || PathOf(name, "/__init__.py", g))
  {
    PathOfIs(name, ".py", g);
    PathOfIs(name, "/__init__.py", g);
  }

  /** The import is from one of the three own packages, and the path is its module file or package file. */
  ghost predicate Names(name: string, g: File) {
    && (StartsWith(name, "apis") || StartsWith(name, "utilities") || StartsWith(name, "spytest"))
    && (PathOf(name, ".py", g) || PathOf(name, "/__init__.py", g))
  }

  lemma ImportLeads(repo: Repo, name: string, g: File)
    ensures Internal(name) && g in Resolve(repo, name) <==> g in repo.existing && Names(name, g)
  {
    ResolvedIs(repo, name, g);
  }

  /** A Python file leads to the existing module and package files of its imports from the own packages. */
  lemma SuccessorsExactly(repo: Repo, f: File, g: File)
    ensures g in Successors(repo, f) <==>
            && f in repo.existing && EndsWith(f, ".py") && f in repo.imports && g in repo.existing
            && exists name :: name in repo.imports[f] && Names(name, g)
  {
    if g in Successors(repo, f) {
      var name :| name in ImportsOf(repo, f) && Internal(name) && g in Resolve(repo, name);
      ImportLeads(repo, name, g);
    }
    if Parsed(repo, f) && f in repo.imports && g in repo.existing {
      if name :| name in repo.imports[f] && Names(name, g) {
        ImportLeads(repo, name, g);
      }
    }
  }

  /** The variable files of a test file. */
  function VarFilesOf(repo: Repo, f: File): set<File> {
    if Parsed(repo, f) && Contains(f, "test_") && f in repo.varFiles then Elems(repo.varFiles[f]) else {}
  }

  function AllVarFiles(repo: Repo, fs: set<File>): set<File> {
    set f, v | f in fs && v in VarFilesOf(repo, f) :: v
  }

  // ---- closures ----

  ghost predicate Closed(repo: Repo, S: set<File>) {
    forall f :: f in S ==> Successors(repo, f) <= S
  }

  /** P is the least closed set that holds the roots. */
  ghost predicate IsClosure(repo: Repo, roots: set<File>, P: set<File>) {
    && roots <= P && Closed(repo, P)
    && forall S :: roots <= S && Closed(repo, S) ==> P <= S
  }

  /** All of `added` is forced by f. */
  ghost predicate Forced(repo: Repo, f: File, added: set<File>) {
    forall S :: f in S && Closed(repo, S) ==> added <= S
  }

  ghost predicate Expanded(repo: Repo, fs: set<File>, P: set<File>) {
    forall f :: f in fs ==> Successors(repo, f) <= P
  }

  lemma SuccessorsExist(repo: Repo, f: File)
    ensures Successors(repo, f) <= repo.existing
  {
  }

  /**
   Between two moments of analysing f: nothing was lost, what was added is expanded and forced by f, and the
   required files grew by the same files and their variable files.
   */
  ghost predicate Progress(repo: Repo, f: File, before: set<File>, had: set<File>, now: set<File>, has: set<File>) {
    && before <= now
    && Expanded(repo, now - before, now)
    && Forced(repo, f, now - before)
    && has == had + (now - before) + AllVarFiles(repo, now - before)
  }

  /** Progress made for an import of f is progress made for f. */
  lemma ProgressChains(repo: Repo, f: File, g: File, before: set<File>, had: set<File>, mid: set<File>,
                       midHas: set<File>,
                       now: set<File>, has: set<File>)
    requires Progress(repo, f, before, had, mid, midHas) && Progress(repo, g, mid, midHas, now, has)
    requires Forced(repo, f, {g})
    ensures Progress(repo, f, before, had, now, has)
  {
    AddedTogether(repo, before, mid, now);
    assert forall S :: f in S && Closed(repo, S) ==> {g} <= S && g in S;
  }

  /** The files of the first i imports are in P. */
  ghost predicate Followed(repo: Repo, names: seq<string>, i: nat, P: set<File>)
    requires i <= |names|
  {
    forall k :: 0 <= k < i && Internal(names[k]) ==> Elems(Resolve(repo, names[k])) <= P
  }

  lemma NextFollowed(repo: Repo, names: seq<string>, i: nat, mid: set<File>, now: set<File>)
    requires i < |names| && Followed(repo, names, i, mid) && mid <= now
    requires Internal(names[i]) ==> Elems(Resolve(repo, names[i])) <= now
    ensures Followed(repo, names, i + 1, now)
  {
  }

  lemma AllFollowed(repo: Repo, f: File, P: set<File>)
    requires Followed(repo, ImportsOf(repo, f), |ImportsOf(repo, f)|, P)
    ensures Successors(repo, f) <= P
  {
    forall g | g in Successors(repo, f) ensures g in P {
      var name :| name in ImportsOf(repo, f) && Internal(name) && g in Resolve(repo, name);
      assert g in Elems(Resolve(repo, name));
    }
  }

  /** What an import of f resolves to is forced by f. */
  lemma ResolvedForced(repo: Repo, f: File, name: string)
    requires Parsed(repo, f) && name in ImportsOf(repo, f) && Internal(name)
    ensures Forced(repo, f, Elems(Resolve(repo, name))) && Elems(Resolve(repo, name)) <= repo.existing
  {
    assert Elems(Resolve(repo, name)) <= Successors(repo, f);
    SuccessorsExist(repo, f);
  }

  /** Expanded so far, apart from f itself, whose imports are still being followed. */
  lemma FileDone(repo: Repo, f: File, before: set<File>, had: set<File>, mid: set<File>, midHas: set<File>,
                 now: set<File>, has: set<File>)
    requires f !in before && mid == before + {f} && midHas == had + {f} + VarFilesOf(repo, f)
    requires Progress(repo, f, mid, midHas, now, has) && Successors(repo, f) <= now
    ensures Progress(repo, f, before, had, now, has)
  {
    AddedTogether(repo, before, mid, now);
    OneFile(repo, f);
    assert mid - before == {f};
  }

  lemma OneFile(repo: Repo, f: File)
    ensures AllVarFiles(repo, {f}) == VarFilesOf(repo, f)
  {
  }

  class Analyzer {
    var processed: set<File>
    var required: set<File>

    constructor ()
      ensures processed == {} && required == {}
    {
      processed, required := {}, {};
    }

    /** The loop over the files that one import of f resolves to. */
    method FollowResolved(repo: Repo, f: File, resolved: seq<File>, ghost universe: set<File>)
      requires repo.existing <= universe && Elems(resolved) <= universe && Forced(repo, f, Elems(resolved))
      modifies this
      ensures Progress(repo, f, old(processed), old(required), processed, required)
      ensures Elems(resolved) <= processed
      decreases universe - processed, 1
    {
      ghost var before, had := processed, required;
      for r := 0 to |resolved|
        invariant Progress(repo, f, before, had, processed, required)
        invariant forall k :: 0 <= k < r ==> resolved[k] in processed
      {
        ghost var g, mid, midHas := resolved[r], processed, required;
        assert g in Elems(resolved);
        AnalyzeFile(repo, resolved[r], universe);
        ProgressChains(repo, f, g, before, had, mid, midHas, processed, required);
      }
    }

    /** The loop over the imports of f. */
    method FollowImports(repo: Repo, f: File, ghost universe: set<File>)
      requires repo.existing <= universe && Parsed(repo, f)
      modifies this
      ensures Progress(repo, f, old(processed), old(required), processed, required)
      ensures Successors(repo, f) <= processed
      decreases universe - processed, 2
    {
      var names := ImportsOf(repo, f);
      ghost var before, had := processed, required;
      for i := 0 to |names|
        invariant Progress(repo, f, before, had, processed, required)
        invariant Followed(repo, names, i, processed)
      {
        ghost var mid, midHas := processed, required;
        if Internal(names[i]) {
          var resolved := Resolve(repo, names[i]);
          ResolvedForced(repo, f, names[i]);
          FollowResolved(repo, f, resolved, universe);
          ProgressChains(repo, f, f, before, had, mid, midHas, processed, required);
        }
        NextFollowed(repo, names, i, mid, processed);
      }
      AllFollowed(repo, f, processed);
    }

    method AnalyzeFile(repo: Repo, f: File, ghost universe: set<File>)
      requires repo.existing <= universe && f in universe
      modifies this
      ensures Progress(repo, f, old(processed), old(required), processed, required)
      ensures f in processed
      decreases universe - processed, 0
    {
      if f in processed {
        return;
      }
      ghost var before, had := processed, required;
      processed, required := processed + {f}, required + {f};
      if f in repo.existing {
        if EndsWith(f, ".py") && Contains(f, "test_") {
          required := required + (if f in repo.varFiles then Elems(repo.varFiles[f]) else {});
        }
      }
      ghost var mid, midHas := processed, required;
      if f in repo.existing && EndsWith(f, ".py") {
        FollowImports(repo, f, universe);
      }
      FileDone(repo, f, before, had, mid, midHas, processed, required);
    }

    /** The loop over the test files, from empty sets. */
    method AnalyzeAll(repo: Repo, roots: seq<File>)
      requires processed == {} && required == {}
      modifies this
      ensures IsClosure(repo, Elems(roots), processed)
      ensures required == processed + AllVarFiles(repo, processed)
    {
      ghost var universe := repo.existing + Elems(roots);
      for i := 0 to |roots|
        invariant Closed(repo, processed) && Elems(roots[..i]) <= processed
        invariant forall S :: Elems(roots) <= S && Closed(repo, S) ==> processed <= S
        invariant required == processed + AllVarFiles(repo, processed)
      {
        ghost var mid := processed;
        assert roots[i] in Elems(roots) && roots[..i + 1] == roots[..i] + [roots[i]];
        AnalyzeFile(repo, roots[i], universe);
        AddedTogether(repo, {}, mid, processed);
        assert processed == mid + (processed - mid) && mid - {} == mid && processed - {} == processed;
      }
      assert roots[..|roots|] == roots;
    }
  }

  /** What was added in two stretches adds up. */
  lemma AddedTogether(repo: Repo, before: set<File>, mid: set<File>, after: set<File>)
    requires before <= mid <= after
    ensures after - before == (mid - before) + (after - mid)
    ensures AllVarFiles(repo, after - before) == AllVarFiles(repo, mid - before) + AllVarFiles(repo, after - mid)
  {
  }

  // ---- independence of the iteration order ----

  /** The same files and the same set of imports per file, listed in any order. */
  ghost predicate SameContent(a: Repo, b: Repo) {
    && a.existing == b.existing
    && forall f :: Elems(ImportsOf(a, f)) == Elems(ImportsOf(b, f))
  }

  lemma SameSuccessors(a: Repo, b: Repo, f: File)
    requires SameContent(a, b)
    ensures Successors(a, f) == Successors(b, f)
  {
    forall name ensures name in ImportsOf(a, f) <==> name in ImportsOf(b, f) {
      assert name in Elems(ImportsOf(a, f)) <==> name in Elems(ImportsOf(b, f));
    }
    assert forall name :: Resolve(a, name) == Resolve(b, name);
  }

  /** The closure is determined by the files and imports alone: neither iteration order nor root order matters. */
  lemma ClosureUnique(a: Repo, b: Repo, roots: set<File>, P: set<File>, Q: set<File>)
    requires SameContent(a, b) && IsClosure(a, roots, P) && IsClosure(b, roots, Q)
    ensures P == Q
  {
    forall f ensures Successors(a, f) == Successors(b, f) {
      SameSuccessors(a, b, f);
    }
    assert Closed(a, Q) && Closed(b, P);
  }

  /** Membership in the closure is reachability: each of its files is a root or follows from one in it. */
  lemma ClosureIsReached(repo: Repo, roots: set<File>, P: set<File>, f: File)
    requires IsClosure(repo, roots, P) && f in P && f !in roots
    ensures exists g :: g in P && g != f && f in Successors(repo, g)
  {
    if forall g :: g in P && g != f ==> f !in Successors(repo, g) {
      var smaller := P - {f};
      assert Closed(repo, smaller);
    }
  }
}
