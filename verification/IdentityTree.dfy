/**
 * Directory trees and the two recursive walks of app-native/src/identity.rs: the verbatim copy and
 * the verification of a copy against its source.
 */
module IdentityTree {
  import opened Prelude

  type Path = seq<string>

  datatype Entry = File(bytes: seq<int>) | Directory

  /** Everything at and below one place on disk, by relative path; the empty map is an absent place. */
  type Tree = map<Path, Entry>

  const ABSENT: Tree := map[]

  predicate IsDir(t: Tree) { [] in t && t[[]].Directory? }

  predicate IsFile(t: Tree) { [] in t && t[[]].File? }

  /** The parent of every entry is a directory of the tree. */
  ghost predicate WellFormed(t: Tree) {
    forall p :: p in t && p != [] ==> Front(p) in t && t[Front(p)].Directory?
  }

  /** `read_dir`: the names directly inside a directory. */
  function Names(t: Tree, dir: Path): set<string> {
    set p | p in t && |p| == |dir| + 1 && p[..|dir|] == dir :: p[|dir|]
  }

  lemma NamesAreChildren(t: Tree, dir: Path)
    ensures forall n :: n in Names(t, dir) <==> dir + [n] in t
  {
    forall n
      ensures n in Names(t, dir) <==> dir + [n] in t
    {
      if dir + [n] in t {
        assert (dir + [n])[..|dir|] == dir && (dir + [n])[|dir|] == n;
      }
      if n in Names(t, dir) {
        var p :| p in t && |p| == |dir| + 1 && p[..|dir|] == dir && p[|dir|] == n;
        assert p == dir + [n];
      }
    }
  }

  function Under(t: Tree, dir: Path): Tree {
    map p | p in t && dir <= p :: t[p]
  }

  /** A path strictly below `dir` goes through one of its children. */
  lemma BelowThroughChild(t: Tree, dir: Path, p: Path)
    requires WellFormed(t) && p in t && dir < p
    ensures dir + [p[|dir|]] in t && dir + [p[|dir|]] <= p && p[|dir|] in Names(t, dir)
    ensures p != dir + [p[|dir|]] ==> t[dir + [p[|dir|]]].Directory?
    decreases |p|
  {
    NamesAreChildren(t, dir);
    if |p| == |dir| + 1 {
      assert p == dir + [p[|dir|]];
    } else {
      assert dir < Front(p);
      BelowThroughChild(t, dir, Front(p));
    }
  }

  // ---- Copying -----------------------------------------------------------------------------

  /** At `at`, or at and below one of `names` in it. */
  ghost predicate Covered(at: Path, names: set<string>, p: Path) {
    at <= p && (p == at || p[|at|] in names)
  }

  ghost function Part(src: Tree, at: Path, names: set<string>): Tree {
    map p | p in src && Covered(at, names, p) :: src[p]
  }

  /** No file stands where the source has a directory, nor the other way round. */
  ghost predicate Compatible(src: Tree, dst: Tree) {
    forall p :: p in src && p in dst ==> src[p].Directory? == dst[p].Directory?
  }

  /**
   * `copy_dir_recursive`. It fails exactly if the target holds a file in the place of a directory, or a
   * directory in the place of a file; otherwise the target becomes the source laid over it.
   */
  method CopyDirRecursive(src: Tree, at: Path, dst: Tree) returns (ok: bool, copy: Tree)
    requires WellFormed(src) && at in src && src[at].Directory?
    ensures ok ==> copy == dst + Under(src, at)
    ensures ok <==> Compatible(Under(src, at), dst)
    decreases |Under(src, at)|, 1
  {
    copy := dst;
    if at in dst && dst[at].File? {
      return false, copy;
    }
    copy := dst[at := Directory];
    ok := true;
    NamesAreChildren(src, at);
    ghost var all := Names(src, at);
    var todo := Names(src, at);
    assert all - todo == {};
    PartOfNothing(src, at);
    while todo != {}
      invariant ok && todo <= all
      invariant copy == dst + Part(src, at, all - todo) && Compatible(Part(src, at, all - todo), dst)
      decreases todo
    {
      var name :| name in todo;
      ghost var done := all - todo;
      var child := at + [name];
      ConflictBelow(src, at, done, dst, name);
      ok, copy := CopyChild(src, at, name, copy);
      if !ok {
        return;
      }
      PartGrows(src, at, done, name);
      LayersJoin(dst, Part(src, at, done), Under(src, child));
      todo := todo - {name};
      assert all - todo == done + {name};
    }
    assert all - todo == all;
    PartOfAll(src, at);
  }

  /** One entry of the directory: a directory by recursion, a file as a whole. */
  method CopyChild(src: Tree, at: Path, name: string, dst: Tree) returns (ok: bool, copy: Tree)
    requires WellFormed(src) && at in src && src[at].Directory? && at + [name] in src
    ensures ok ==> copy == dst + Under(src, at + [name])
    ensures ok <==> Compatible(Under(src, at + [name]), dst)
    decreases |Under(src, at)|, 0
  {
    var child := at + [name];
    if src[child].Directory? {
      UnderShrinks(src, at, child);
      ok, copy := CopyDirRecursive(src, child, dst);
    } else {
      OnlyItself(src, child);
      ok := !(child in dst && dst[child].Directory?);
      copy := if ok then dst[child := src[child]] else dst;
    }
  }

  lemma LayersJoin(a: Tree, b: Tree, c: Tree)
    ensures (a + b) + c == a + (b + c)
  {
  }

  lemma PartOfNothing(src: Tree, at: Path)
    requires at in src
    ensures Part(src, at, {}) == map[at := src[at]]
  {
  }

  lemma PartOfAll(src: Tree, at: Path)
    requires WellFormed(src)
    ensures Part(src, at, Names(src, at)) == Under(src, at)
  {
    forall p | p in src && at <= p && p != at
      ensures p[|at|] in Names(src, at)
    {
      BelowThroughChild(src, at, p);
    }
  }

  /** One more child adds the conflicts below it. */
  lemma ConflictBelow(src: Tree, at: Path, done: set<string>, dst: Tree, name: string)
    requires name !in done && Compatible(Part(src, at, done), dst)
    ensures Compatible(Under(src, at + [name]), dst + Part(src, at, done))
            <==> Compatible(Part(src, at, done + {name}), dst)
    ensures Compatible(Under(src, at), dst) ==> Compatible(Part(src, at, done + {name}), dst)
  {
    PartGrows(src, at, done, name);
    forall p
      ensures !(p in Under(src, at + [name]) && p in Part(src, at, done))
    {
      ThroughName(at, name, p);
    }
  }

  lemma UnderShrinks(t: Tree, dir: Path, child: Path)
    requires dir in t && dir < child
    ensures |Under(t, child)| < |Under(t, dir)|
  {
    SubsetCardinality(Under(t, child).Keys, Under(t, dir).Keys - {dir});
  }

  lemma OnlyItself(t: Tree, file: Path)
    requires WellFormed(t) && file in t && t[file].File?
    ensures Under(t, file) == map[file := t[file]]
  {
    forall p | p in t && file <= p
      ensures p == file
    {
      FileIsLeaf(t, file, p);
    }
  }

  lemma {:induction false} FileIsLeaf(t: Tree, file: Path, p: Path)
    requires WellFormed(t) && file in t && t[file].File? && p in t && file <= p
    ensures p == file
    decreases |p|
  {
    if p != file {
      assert file <= Front(p);
      FileIsLeaf(t, file, Front(p));
    }
  }

  lemma ThroughName(at: Path, name: string, p: Path)
    ensures at + [name] <= p <==> at <= p && p != at && p[|at|] == name
  {
    if at <= p && p != at && p[|at|] == name {
      assert p[..|at| + 1] == at + [name];
    }
    if at + [name] <= p {
      assert p[..|at|] == (at + [name])[..|at|] == at;
      assert p[|at|] == (at + [name])[|at|];
    }
  }

  lemma PartGrows(src: Tree, at: Path, done: set<string>, name: string)
    ensures Part(src, at, done) + Under(src, at + [name]) == Part(src, at, done + {name})
  {
    forall p | p in src
      ensures Covered(at, done + {name}, p) <==> Covered(at, done, p) || at + [name] <= p
    {
      ThroughName(at, name, p);
    }
  }

  // ---- Verifying ---------------------------------------------------------------------------

  /** The content hash and the JSON parser, as inputs. */
  datatype Checks = Checks(hash: seq<int> -> int, parses: seq<int> -> bool)

  /** The extension of a name is `json`; a name that is only `.json` has none. */
  predicate IsJson(name: string) {
    |name| > 5 && name[|name| - 5..] == ".json"
  }

  function NameOf(p: Path): string {
    if p == [] then "" else Last(p)
  }

  /** `verify_file_matches`. */
  predicate FileMatches(c: Checks, json: bool, source: seq<int>, staged: seq<int>) {
    c.hash(source) == c.hash(staged) && (json ==> c.parses(staged))
  }

  predicate MatchesAt(c: Checks, source: Tree, staged: Tree, p: Path)
    requires p in source
  {
    source[p].File? ==>
      p in staged && staged[p].File? && FileMatches(c, IsJson(NameOf(p)), source[p].bytes, staged[p].bytes)
  }

  /** Every file of the source has a counterpart at the same place with the same hash, and parses if it must. */
  ghost predicate Matches(c: Checks, source: Tree, staged: Tree) {
    forall p :: p in source ==> MatchesAt(c, source, staged, p)
  }

  /** The name is a stem and `.json`. */
  ghost predicate NamedJson(p: Path) {
    p != [] && exists stem: string :: stem != "" && Last(p) == stem + ".json"
  }

  lemma JsonNames(p: Path)
    ensures IsJson(NameOf(p)) <==> NamedJson(p)
  {
    if NamedJson(p) {
      var stem :| stem != "" && Last(p) == stem + ".json";
      assert Last(p)[|stem|..] == ".json";
    }
    if IsJson(NameOf(p)) {
      var stem := Last(p)[..|Last(p)| - 5];
      assert stem != "" && Last(p) == stem + Last(p)[|stem|..];
    }
  }

  /** Different files at the same place have different hashes. */
  ghost predicate TellsApart(c: Checks, source: Tree, staged: Tree) {
    forall p :: p in source && p in staged && source[p].File? && staged[p].File? && staged[p] != source[p] ==>
      c.hash(source[p].bytes) != c.hash(staged[p].bytes)
  }

  /** Every file of the source is in the staged tree byte for byte, and parses if it is named `.json`. */
  ghost predicate Verbatim(c: Checks, source: Tree, staged: Tree) {
    forall p :: p in source && source[p].File? ==>
      p in staged && staged[p] == source[p] && (NamedJson(p) ==> c.parses(source[p].bytes))
  }

  lemma MatchIsVerbatim(c: Checks, source: Tree, staged: Tree)
    requires TellsApart(c, source, staged)
    ensures Matches(c, source, staged) <==> Verbatim(c, source, staged)
  {
    forall p | p in source
      ensures MatchesAt(c, source, staged, p) <==>
              (source[p].File? ==>
                 p in staged && staged[p] == source[p] && (NamedJson(p) ==> c.parses(source[p].bytes)))
    {
      JsonNames(p);
    }
  }

  function Files(t: Tree): set<Path> {
    set p | p in t && t[p].File?
  }

  ghost predicate Below(roots: set<Path>, p: Path) {
    exists r :: r in roots && r <= p
  }

  ghost function FilesUnder(t: Tree, roots: set<Path>): set<Path> {
    set p | p in t && t[p].File? && Below(roots, p)
  }

  ghost function DirsUnder(t: Tree, roots: set<Path>): set<Path> {
    set p | p in t && t[p].Directory? && Below(roots, p)
  }

  /** Entries of the tree none of which lies inside another. */
  ghost predicate Antichain(t: Tree, roots: set<Path>) {
    && (forall r :: r in roots ==> r in t)
    && (forall q, r :: q in roots && r in roots && q <= r ==> q == r)
  }

  function Children(t: Tree, dir: Path): set<Path> {
    Inside(dir, Names(t, dir))
  }

  /** The roots once a directory is opened. */
  ghost function Opened(t: Tree, roots: set<Path>, dir: Path): set<Path> {
    roots - {dir} + Children(t, dir)
  }

  lemma ChildIsBelow(t: Tree, dir: Path, p: Path)
    requires WellFormed(t) && p in t && dir < p
    ensures Below(Children(t, dir), p)
  {
    BelowThroughChild(t, dir, p);
    assert dir + [p[|dir|]] in Children(t, dir);
  }

  lemma OpeningKeepsContents(t: Tree, roots: set<Path>, dir: Path)
    requires WellFormed(t) && Antichain(t, roots) && dir in roots && t[dir].Directory?
    ensures forall p :: p in t ==> (Below(Opened(t, roots, dir), p) <==> Below(roots, p) && p != dir)
  {
    forall p | p in t
      ensures Below(Opened(t, roots, dir), p) <==> Below(roots, p) && p != dir
    {
      if Below(roots, p) && p != dir {
        var r :| r in roots && r <= p;
        if r == dir {
          ChildIsBelow(t, dir, p);
          var c :| c in Children(t, dir) && c <= p;
          assert c in Opened(t, roots, dir);
        } else {
          assert r in Opened(t, roots, dir);
        }
      }
      if Below(Opened(t, roots, dir), p) {
        var r :| r in Opened(t, roots, dir) && r <= p;
        if r in Children(t, dir) {
          assert dir < r;
          assert dir in roots && dir <= p && p != dir;
        } else {
          assert r in roots;
        }
      }
    }
  }

  lemma OpeningKeepsAntichain(t: Tree, roots: set<Path>, dir: Path)
    requires WellFormed(t) && Antichain(t, roots) && dir in roots && t[dir].Directory?
    ensures Antichain(t, Opened(t, roots, dir))
  {
    NamesAreChildren(t, dir);
    forall q, r | q in Opened(t, roots, dir) && r in Opened(t, roots, dir) && q <= r
      ensures q == r
    {
      if q in Children(t, dir) {
        assert dir < q && dir <= r;
      } else if r in Children(t, dir) {
        assert dir == Front(r);
        assert q != r ==> q <= dir;
      }
    }
  }

  lemma OpeningOnlyRemovesTheDirectory(t: Tree, roots: set<Path>, dir: Path)
    requires WellFormed(t) && Antichain(t, roots) && dir in roots && t[dir].Directory?
    ensures var after := Opened(t, roots, dir);
            && Antichain(t, after)
            && FilesUnder(t, after) == FilesUnder(t, roots)
            && DirsUnder(t, after) == DirsUnder(t, roots) - {dir} && dir in DirsUnder(t, roots)
  {
    OpeningKeepsContents(t, roots, dir);
    OpeningKeepsAntichain(t, roots, dir);
    assert Below(roots, dir);
  }

  lemma ClosingRemovesTheFile(t: Tree, roots: set<Path>, file: Path)
    requires WellFormed(t) && Antichain(t, roots) && file in roots && t[file].File?
    ensures Antichain(t, roots - {file})
    ensures FilesUnder(t, roots - {file}) == FilesUnder(t, roots) - {file} && file in FilesUnder(t, roots)
    ensures DirsUnder(t, roots - {file}) == DirsUnder(t, roots)
  {
    forall p | p in t
      ensures Below(roots - {file}, p) <==> Below(roots, p) && p != file
    {
      if Below(roots, p) && p != file {
        var r :| r in roots && r <= p;
        if r == file {
          FileIsLeaf(t, file, p);
        }
        assert r in roots - {file};
      }
    }
    assert Below(roots, file);
  }

  function Elements(stack: seq<Path>): set<Path> {
    set r | r in stack
  }

  /** A stack of distinct directories. */
  ghost predicate DirStack(source: Tree, stack: seq<Path>) {
    && |Elements(stack)| == |stack|
    && forall d :: d in stack ==> d in source && source[d].Directory?
  }

  /** While the names `todo` of `rel` are left, `roots` are the stack and those names. */
  ghost predicate Frontier(source: Tree, rel: Path, stack: seq<Path>, todo: set<string>, roots: set<Path>) {
    && roots == Elements(stack) + Inside(rel, todo) && Elements(stack) !! Inside(rel, todo)
    && DirStack(source, stack) && forall n :: n in todo ==> rel + [n] in source
  }

  lemma PushName(source: Tree, rel: Path, stack: seq<Path>, todo: set<string>, roots: set<Path>, name: string)
    requires Frontier(source, rel, stack, todo, roots) && name in todo && source[rel + [name]].Directory?
    ensures Frontier(source, rel, stack + [rel + [name]], todo - {name}, roots)
  {
    InsideWithout(rel, todo, name);
    MoveOne(Elements(stack), Inside(rel, todo), rel + [name]);
    PushStack(stack, rel + [name]);
  }

  lemma DropName(source: Tree, rel: Path, stack: seq<Path>, todo: set<string>, roots: set<Path>, name: string)
    requires Frontier(source, rel, stack, todo, roots) && name in todo
    ensures rel + [name] in roots
    ensures Frontier(source, rel, stack, todo - {name}, roots - {rel + [name]})
  {
    InsideWithout(rel, todo, name);
    MoveOne(Elements(stack), Inside(rel, todo), rel + [name]);
  }

  /** The loop over one directory: files are checked and counted, directories pushed. */
  method VisitDirectory(c: Checks, source: Tree, staged: Tree, rel: Path, rest: seq<Path>,
                        before: nat, ghost others: set<Path>)
    returns (ok: bool, stack: seq<Path>, count: nat)
    requires WellFormed(source) && Frontier(source, rel, rest, Names(source, rel), others)
    requires Visiting(c, source, staged, others, before)
    ensures ok ==> Visiting(c, source, staged, Elements(stack), count) && DirStack(source, stack)
    ensures ok ==> DirsUnder(source, Elements(stack)) == DirsUnder(source, others)
    ensures !ok ==> !Matches(c, source, staged)
  {
    ok, stack, count := true, rest, before;
    var todo := Names(source, rel);
    ghost var roots := others;
    while todo != {}
      invariant Visiting(c, source, staged, roots, count) && DirsUnder(source, roots) == DirsUnder(source, others)
      invariant Frontier(source, rel, stack, todo, roots)
      decreases todo
    {
      var name :| name in todo;
      var child := rel + [name];
      DropName(source, rel, stack, todo, roots, name);
      if source[child].Directory? {
        PushName(source, rel, stack, todo, roots, name);
        stack := stack + [child];
      } else {
        if !MatchesAt(c, source, staged, child) {
          return false, stack, count;
        }
        CountFile(c, source, staged, roots, child, count);
        roots := roots - {child};
        count := count + 1;
      }
      todo := todo - {name};
    }
    assert roots == Elements(stack);
  }

  /**
   * `verify_dir_matches`: an explicit stack of directories still to visit. It succeeds exactly when
   * the staged tree matches, and then reports the number of files of the source.
   */
  method VerifyDirMatches(c: Checks, source: Tree, staged: Tree) returns (r: Option<nat>)
    requires WellFormed(source) && IsDir(source)
    ensures r.Some? <==> Matches(c, source, staged)
    ensures r.Some? ==> r.value == |Files(source)|
  {
    var count := 0;
    var stack: seq<Path> := [[]];
    assert Elements(stack) == {[]};
    assert FilesUnder(source, Elements(stack)) == Files(source) by {
      assert forall p :: p in source ==> [] in Elements(stack) && [] <= p;
    }
    while stack != []
      invariant Visiting(c, source, staged, Elements(stack), count) && DirStack(source, stack)
      decreases |DirsUnder(source, Elements(stack))|
    {
      var rel := Last(stack);
      ghost var roots := Elements(stack);
      PopStack(stack);
      OpeningOnlyRemovesTheDirectory(source, roots, rel);
      assert Elements(Front(stack)) !! Children(source, rel) by {
        assert forall r :: r in Elements(Front(stack)) && r in Children(source, rel) ==> rel <= r;
      }
      NamesAreChildren(source, rel);
      var ok;
      ok, stack, count := VisitDirectory(c, source, staged, rel, Front(stack), count, Opened(source, roots, rel));
      if !ok {
        return None;
      }
    }
    assert FilesUnder(source, {}) == {};
    r := Some(count);
  }

  /** What the walk has done while `roots` are still to be visited. */
  ghost predicate Visiting(c: Checks, source: Tree, staged: Tree, roots: set<Path>, count: nat) {
    && Antichain(source, roots)
    && count == |Files(source)| - |FilesUnder(source, roots)|
    && forall p :: p in source && p !in FilesUnder(source, roots) ==> MatchesAt(c, source, staged, p)
  }

  lemma CountFile(c: Checks, source: Tree, staged: Tree, roots: set<Path>, file: Path, count: nat)
    requires WellFormed(source) && Visiting(c, source, staged, roots, count)
    requires file in roots && source[file].File? && MatchesAt(c, source, staged, file)
    ensures Visiting(c, source, staged, roots - {file}, count + 1)
    ensures DirsUnder(source, roots - {file}) == DirsUnder(source, roots)
  {
    ClosingRemovesTheFile(source, roots, file);
  }

  function Inside(dir: Path, names: set<string>): set<Path> {
    set n | n in names :: dir + [n]
  }

  lemma InsideWithout(dir: Path, names: set<string>, name: string)
    requires name in names
    ensures dir + [name] in Inside(dir, names)
    ensures Inside(dir, names - {name}) == Inside(dir, names) - {dir + [name]}
  {
    forall n, m: string
      ensures dir + [n] == dir + [m] ==> n == m
    {
      assert (dir + [n])[|dir|] == n && (dir + [m])[|dir|] == m;
    }
  }

  lemma PopStack(stack: seq<Path>)
    requires stack != [] && |Elements(stack)| == |stack|
    ensures Elements(Front(stack)) == Elements(stack) - {Last(stack)} && |Elements(Front(stack))| == |Front(stack)|
  {
    FrontThenLast(stack);
    assert Elements(stack) == Elements(Front(stack)) + {Last(stack)};
    SeqSetSize(Front(stack));
  }

  lemma MoveOne(a: set<Path>, b: set<Path>, x: Path)
    requires x in b && a !! b
    ensures (a + {x}) + (b - {x}) == a + b && (a + b) - {x} == a + (b - {x})
    ensures (a + {x}) !! (b - {x}) && a !! (b - {x}) && x !in a
  {
  }

  lemma PushStack(stack: seq<Path>, dir: Path)
    requires dir !in stack
    ensures Elements(stack + [dir]) == Elements(stack) + {dir} && |Elements(stack + [dir])| == |Elements(stack)| + 1
  {
    assert Elements(stack + [dir]) == Elements(stack) + {dir};
  }

  lemma {:induction false} SeqSetSize(stack: seq<Path>)
    ensures |Elements(stack)| <= |stack|
  {
    if stack != [] {
      FrontThenLast(stack);
      SeqSetSize(Front(stack));
      assert Elements(stack) == Elements(Front(stack)) + {Last(stack)};
    }
  }
}
